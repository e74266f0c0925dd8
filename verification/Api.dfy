/**
 The API objects of apis/v1alpha1 on the heap, with their generated deep copies.

 Every Go pointer that the code can copy, share or assign through is an object here: a *string is a
 StringCell, a *metav1.Time a TimeCell, a slice an array whose slots may be null. `View` reads an
 object graph as a value.
 */
module Api {
  import opened Wrappers
  import opened TagLists

  class StringCell {
    var text: string

    constructor (text: string)
      ensures this.text == text
    {
      this.text := text;
    }
  }

  class TimeCell {
    var instant: int

    constructor (instant: int)
      ensures this.instant == instant
    {
      this.instant := instant;
    }
  }

  function Str(cell: StringCell?): Option<string>
    reads cell
  {
    if cell == null then None else Some(cell.text)
  }

  function Instant(cell: TimeCell?): Option<int>
    reads cell
  {
    if cell == null then None else Some(cell.instant)
  }

  twostate predicate NewCell(new cell: StringCell?) {
    cell != null ==> fresh(cell)
  }

  twostate predicate NewTime(new cell: TimeCell?) {
    cell != null ==> fresh(cell)
  }

  /** `*out = new(string); **out = **in`, guarded by `in != nil`. */
  method CopyString(src: StringCell?) returns (dst: StringCell?)
    ensures Str(dst) == Str(src)
    ensures NewCell(dst)
  {
    if src == null {
      dst := null;
    } else {
      dst := new StringCell(src.text);
    }
  }

  method MakeString(text: Option<string>) returns (cell: StringCell?)
    ensures Str(cell) == text
    ensures NewCell(cell)
  {
    if text.None? {
      cell := null;
    } else {
      cell := new StringCell(text.value);
    }
  }

  method CopyTime(src: TimeCell?) returns (dst: TimeCell?)
    ensures Instant(dst) == Instant(src)
    ensures NewTime(dst)
  {
    if src == null {
      dst := null;
    } else {
      dst := new TimeCell(src.instant);
    }
  }

  method MakeTime(instant: Option<int>) returns (cell: TimeCell?)
    ensures Instant(cell) == instant
    ensures NewTime(cell)
  {
    if instant.None? {
      cell := null;
    } else {
      cell := new TimeCell(instant.value);
    }
  }

  /* ---- Tag ---- */

  class Tag {
    var key: StringCell?
    var value: StringCell?

    constructor ()
      ensures key == null && value == null
    {
      key, value := null, null;
    }

    ghost function View(): TagValue
      reads this, key, value
    {
      TagValue(Str(key), Str(value))
    }

    method DeepCopyInto(out: Tag)
      requires out != this
      modifies out
      ensures out.View() == old(View())
      ensures NewCell(out.key) && NewCell(out.value)
    {
      out.key, out.value := key, value;
      if key != null {
        out.key := CopyString(key);
      }
      if value != null {
        out.value := CopyString(value);
      }
    }
  }

  ghost function SlotView(t: Tag?): Option<TagValue>
    reads t, if t == null then {} else {t.key, t.value}
  {
    if t == null then None else Some(t.View())
  }

  /* ---- Slices of tags ---- */

  ghost function SlotViews(s: seq<Tag?>): (vs: seq<Option<TagValue>>)
    reads set t: Tag | t in s
    reads set t: Tag | t in s :: t.key
    reads set t: Tag | t in s :: t.value
    ensures |vs| == |s| && forall i :: 0 <= i < |s| ==> vs[i] == SlotView(s[i])
  {
    seq(|s|, i requires 0 <= i < |s|
             reads (set t: Tag | t in s), (set t: Tag | t in s :: t.key), set t: Tag | t in s :: t.value
             => SlotView(s[i]))
  }

  /** The tag and its cells are newly allocated. */
  twostate predicate NewTag(new t: Tag?)
    reads t
  {
    t != null ==> fresh(t) && NewCell(t.key) && NewCell(t.value)
  }

  twostate predicate NewTagSlice(new a: array?<Tag?>)
    reads a, set t: Tag | a != null && t in a[..]
  {
    a != null ==> fresh(a) && forall i :: 0 <= i < a.Length ==> NewTag(a[i])
  }

  /** No Tag stands in two slots. */
  ghost predicate DistinctTags(a: array?<Tag?>)
    reads a
  {
    a != null ==> forall i, j :: 0 <= i < j < a.Length && a[i] != null ==> a[i] != a[j]
  }

  method FillTagSlot(src: Tag?, dst: array<Tag?>, i: nat)
    requires i < dst.Length
    modifies dst
    ensures forall j :: 0 <= j < dst.Length && j != i ==> dst[j] == old(dst[j])
    ensures SlotView(dst[i]) == old(SlotView(src))
    ensures NewTag(dst[i])
  {
    if src == null {
      dst[i] := null;
    } else {
      var copy := new Tag();
      src.DeepCopyInto(copy);
      dst[i] := copy;
    }
  }

  /** The loop of GlobalNetworkSpec.DeepCopyInto over the slots of its tag slice. */
  method CopyTagSlots(src: seq<Tag?>) returns (dst: array<Tag?>)
    ensures NewTagSlice(dst) && DistinctTags(dst)
    ensures SlotViews(dst[..]) == old(SlotViews(src))
  {
    ghost var want := SlotViews(src);
    dst := new Tag?[|src|](_ => null);
    for i := 0 to |src|
      invariant fresh(dst)
      invariant forall j :: 0 <= j < i ==> SlotView(dst[j]) == want[j]
      invariant forall j :: 0 <= j < i ==> NewTag(dst[j])
      invariant forall j :: i <= j < dst.Length ==> dst[j] == null
      invariant DistinctTags(dst)
    {
      assert SlotView(src[i]) == old(SlotView(src[i]));
      FillTagSlot(src[i], dst, i);
    }
  }

  /* ---- Condition and ResourceMetadata, from the ACK runtime ---- */

  datatype ConditionType = Terminal | Recoverable | ResourceSynced | OtherType(name: string)

  /** `Unset` is the zero value of a new Condition. */
  datatype ConditionStatus = Unset | True | False | Unknown

  datatype ConditionValue = ConditionValue(
    ctype: ConditionType,
    status: ConditionStatus,
    lastTransitionTime: Option<int>,
    message: Option<string>,
    reason: Option<string>)

  /** The two pointers of a condition that no code here reads or writes are values. */
  class Condition {
    var ctype: ConditionType
    var status: ConditionStatus
    var lastTransitionTime: Option<int>
    var message: StringCell?
    var reason: Option<string>

    constructor (ctype: ConditionType)
      ensures View() == ConditionValue(ctype, Unset, None, None, None)
      ensures message == null
    {
      this.ctype, status := ctype, Unset;
      lastTransitionTime, message, reason := None, null, None;
    }

    ghost function View(): ConditionValue
      reads this, message
    {
      ConditionValue(ctype, status, lastTransitionTime, Str(message), reason)
    }

    method DeepCopyInto(out: Condition)
      requires out != this
      modifies out
      ensures out.View() == old(View())
      ensures NewCell(out.message)
    {
      out.ctype, out.status, out.lastTransitionTime, out.reason := ctype, status, lastTransitionTime, reason;
      out.message := CopyString(message);
    }
  }

  ghost function ConditionView(c: Condition?): Option<ConditionValue>
    reads c, if c == null then {} else {c.message}
  {
    if c == null then None else Some(c.View())
  }

  datatype MetadataValue = MetadataValue(
    arn: Option<string>,
    ownerAccountID: Option<string>,
    partition: Option<string>,
    region: Option<string>)

  class ResourceMetadata {
    var arn: StringCell?
    var ownerAccountID: StringCell?
    var partition: StringCell?
    var region: StringCell?

    constructor ()
      ensures arn == ownerAccountID == partition == region == null
    {
      arn, ownerAccountID, partition, region := null, null, null, null;
    }

    ghost function View(): MetadataValue
      reads this, arn, ownerAccountID, partition, region
    {
      MetadataValue(Str(arn), Str(ownerAccountID), Str(partition), Str(region))
    }

    method DeepCopyInto(out: ResourceMetadata)
      requires out != this
      modifies out
      ensures out.View() == old(View())
      ensures NewCell(out.arn) && NewCell(out.ownerAccountID) && NewCell(out.partition) && NewCell(out.region)
    {
      out.arn := CopyString(arn);
      out.ownerAccountID := CopyString(ownerAccountID);
      out.partition := CopyString(partition);
      out.region := CopyString(region);
    }
  }

  /* ---- Slices of conditions ---- */

  ghost function ConditionViews(s: seq<Condition?>): (vs: seq<Option<ConditionValue>>)
    reads set c: Condition | c in s
    reads set c: Condition | c in s :: c.message
    ensures |vs| == |s| && forall i :: 0 <= i < |s| ==> vs[i] == ConditionView(s[i])
  {
    seq(|s|, i requires 0 <= i < |s|
             reads (set c: Condition | c in s), set c: Condition | c in s :: c.message
             => ConditionView(s[i]))
  }

  twostate predicate NewCondition(new c: Condition?)
    reads c
  {
    c != null ==> fresh(c) && NewCell(c.message)
  }

  twostate predicate NewConditionSlice(new a: array?<Condition?>)
    reads a, set c: Condition | a != null && c in a[..]
  {
    a != null ==> fresh(a) && forall i :: 0 <= i < a.Length ==> NewCondition(a[i])
  }

  /** No Condition stands in two slots. */
  ghost predicate DistinctConditions(a: array?<Condition?>)
    reads a
  {
    a != null ==> forall i, j :: 0 <= i < j < a.Length && a[i] != null ==> a[i] != a[j]
  }

  method FillConditionSlot(src: Condition?, dst: array<Condition?>, i: nat)
    requires i < dst.Length
    modifies dst
    ensures forall j :: 0 <= j < dst.Length && j != i ==> dst[j] == old(dst[j])
    ensures ConditionView(dst[i]) == old(ConditionView(src))
    ensures NewCondition(dst[i])
  {
    if src == null {
      dst[i] := null;
    } else {
      var copy := new Condition(src.ctype);
      src.DeepCopyInto(copy);
      dst[i] := copy;
    }
  }

  /** The loop of GlobalNetworkStatus.DeepCopyInto over the slots of its condition slice. */
  method CopyConditionSlots(src: seq<Condition?>) returns (dst: array<Condition?>)
    ensures NewConditionSlice(dst) && DistinctConditions(dst)
    ensures ConditionViews(dst[..]) == old(ConditionViews(src))
  {
    ghost var want := ConditionViews(src);
    dst := new Condition?[|src|](_ => null);
    for i := 0 to |src|
      invariant fresh(dst)
      invariant forall j :: 0 <= j < i ==> ConditionView(dst[j]) == want[j]
      invariant forall j :: 0 <= j < i ==> NewCondition(dst[j])
      invariant forall j :: i <= j < dst.Length ==> dst[j] == null
      invariant DistinctConditions(dst)
    {
      assert ConditionView(src[i]) == old(ConditionView(src[i]));
      FillConditionSlot(src[i], dst, i);
    }
  }

  /* ---- The slice and pointer fields of a GlobalNetwork ---- */

  ghost function TagSliceView(a: array?<Tag?>): Option<seq<Option<TagValue>>>
    reads a
    reads set t: Tag | a != null && t in a[..]
    reads set t: Tag | a != null && t in a[..] :: t.key
    reads set t: Tag | a != null && t in a[..] :: t.value
  {
    if a == null then None else Some(SlotViews(a[..]))
  }

  ghost function ConditionSliceView(a: array?<Condition?>): Option<seq<Option<ConditionValue>>>
    reads a
    reads set c: Condition | a != null && c in a[..]
    reads set c: Condition | a != null && c in a[..] :: c.message
  {
    if a == null then None else Some(ConditionViews(a[..]))
  }

  ghost function MetadataView(m: ResourceMetadata?): Option<MetadataValue>
    reads m
    reads if m == null then {} else {m.arn, m.ownerAccountID, m.partition, m.region}
  {
    if m == null then None else Some(m.View())
  }

  twostate predicate NewMetadata(new m: ResourceMetadata?)
    reads m
  {
    m != null ==> fresh(m) && NewCell(m.arn) && NewCell(m.ownerAccountID) && NewCell(m.partition) && NewCell(m.region)
  }

  method CopyTagSlice(src: array?<Tag?>) returns (dst: array?<Tag?>)
    ensures TagSliceView(dst) == old(TagSliceView(src))
    ensures NewTagSlice(dst) && DistinctTags(dst)
  {
    if src == null {
      dst := null;
    } else {
      dst := CopyTagSlots(src[..]);
    }
  }

  method CopyConditionSlice(src: array?<Condition?>) returns (dst: array?<Condition?>)
    ensures ConditionSliceView(dst) == old(ConditionSliceView(src))
    ensures NewConditionSlice(dst) && DistinctConditions(dst)
  {
    if src == null {
      dst := null;
    } else {
      dst := CopyConditionSlots(src[..]);
    }
  }

  method CopyMetadata(src: ResourceMetadata?) returns (dst: ResourceMetadata?)
    ensures MetadataView(dst) == old(MetadataView(src))
    ensures NewMetadata(dst)
  {
    if src == null {
      dst := null;
    } else {
      dst := new ResourceMetadata();
      src.DeepCopyInto(dst);
    }
  }

  /* ---- GlobalNetwork ---- */

  /** TypeMeta and ObjectMeta, copied by library code. */
  datatype ObjectMeta = ObjectMeta(typeMeta: string, objectMeta: string)

  datatype NetworkValue = NetworkValue(
    meta: ObjectMeta,
    description: Option<string>,
    tags: Option<seq<Option<TagValue>>>,
    metadata: Option<MetadataValue>,
    conditions: Option<seq<Option<ConditionValue>>>,
    createdAt: Option<int>,
    globalNetworkID: Option<string>,
    state: Option<string>)

  /** A GlobalNetwork; its Spec and Status are embedded structs, so their fields are fields of the object. */
  class GlobalNetwork {
    var meta: ObjectMeta
    // Spec
    var description: StringCell?
    var tags: array?<Tag?>
    // Status
    var metadata: ResourceMetadata?
    var conditions: array?<Condition?>
    var createdAt: TimeCell?
    var globalNetworkID: StringCell?
    var state: StringCell?

    constructor ()
      ensures View() == NetworkValue(ObjectMeta("", ""), None, None, None, None, None, None, None)
    {
      meta := ObjectMeta("", "");
      description, tags := null, null;
      metadata, conditions, createdAt, globalNetworkID, state := null, null, null, null, null;
    }

    ghost function View(): NetworkValue
      reads this, description, globalNetworkID, state, createdAt, tags, metadata, conditions
      reads if tags == null then {} else (set t: Tag | t in tags[..])
      reads if tags == null then {} else (set t: Tag | t in tags[..] :: t.key) + set t: Tag | t in tags[..] :: t.value
      reads if metadata == null then {} else {metadata.arn, metadata.ownerAccountID, metadata.partition, metadata.region}
      reads if conditions == null then {} else (set c: Condition | c in conditions[..])
      reads if conditions == null then {} else (set c: Condition | c in conditions[..] :: c.message)
    {
      var (d, t) := SpecView();
      var (m, c, at, id, st) := StatusView();
      NetworkValue(meta, d, t, m, c, at, id, st)
    }

    ghost function SpecView(): (Option<string>, Option<seq<Option<TagValue>>>)
      reads this, description
      reads tags
      reads set t: Tag | tags != null && t in tags[..]
      reads set t: Tag | tags != null && t in tags[..] :: t.key
      reads set t: Tag | tags != null && t in tags[..] :: t.value
    {
      (Str(description), TagSliceView(tags))
    }

    ghost function StatusView():
      (Option<MetadataValue>, Option<seq<Option<ConditionValue>>>, Option<int>, Option<string>, Option<string>)
      reads this, globalNetworkID, state, createdAt
      reads metadata
      reads if metadata == null then {} else {metadata.arn, metadata.ownerAccountID, metadata.partition, metadata.region}
      reads conditions
      reads set c: Condition | conditions != null && c in conditions[..]
      reads set c: Condition | conditions != null && c in conditions[..] :: c.message
    {
      (MetadataView(metadata), ConditionSliceView(conditions), Instant(createdAt), Str(globalNetworkID), Str(state))
    }

    /** The pointer fields of Spec.DeepCopyInto, and the condition slice of Status.DeepCopyInto. */
    method CopySpecAndConditions() returns (d: StringCell?, t: array?<Tag?>, c: array?<Condition?>)
      ensures Str(d) == old(Str(description)) && NewCell(d)
      ensures TagSliceView(t) == old(TagSliceView(tags)) && NewTagSlice(t) && DistinctTags(t)
      ensures ConditionSliceView(c) == old(ConditionSliceView(conditions))
      ensures NewConditionSlice(c) && DistinctConditions(c)
    {
      d := CopyString(description);
      t := CopyTagSlice(tags);
      c := CopyConditionSlice(conditions);
    }

    /** The pointer fields of Status.DeepCopyInto, its condition slice excepted. */
    method CopyStatusPointers() returns (m: ResourceMetadata?, at: TimeCell?, id: StringCell?, st: StringCell?)
      ensures MetadataView(m) == old(MetadataView(metadata)) && NewMetadata(m)
      ensures Instant(at) == old(Instant(createdAt)) && NewTime(at)
      ensures Str(id) == old(Str(globalNetworkID)) && NewCell(id)
      ensures Str(st) == old(Str(state)) && NewCell(st)
    {
      m := CopyMetadata(metadata);
      at := CopyTime(createdAt);
      id := CopyString(globalNetworkID);
      st := CopyString(state);
    }

    method CopyFields() returns (d: StringCell?, t: array?<Tag?>, c: array?<Condition?>,
                                 m: ResourceMetadata?, at: TimeCell?, id: StringCell?, st: StringCell?)
      ensures Str(d) == old(Str(description)) && NewCell(d)
      ensures TagSliceView(t) == old(TagSliceView(tags)) && NewTagSlice(t) && DistinctTags(t)
      ensures ConditionSliceView(c) == old(ConditionSliceView(conditions))
      ensures NewConditionSlice(c) && DistinctConditions(c)
      ensures MetadataView(m) == old(MetadataView(metadata)) && NewMetadata(m)
      ensures Instant(at) == old(Instant(createdAt)) && NewTime(at)
      ensures Str(id) == old(Str(globalNetworkID)) && NewCell(id)
      ensures Str(st) == old(Str(state)) && NewCell(st)
    {
      m, at, id, st := CopyStatusPointers();
      d, t, c := CopySpecAndConditions();
    }

    method SetSpec(meta: ObjectMeta, description: StringCell?, tags: array?<Tag?>)
      modifies this`meta, this`description, this`tags
      ensures this.meta == meta && this.description == description && this.tags == tags
      ensures View() == old(View()).(meta := meta, description := old(Str(description)), tags := old(TagSliceView(tags)))
    {
      this.meta, this.description, this.tags := meta, description, tags;
    }

    method SetStatus(metadata: ResourceMetadata?, conditions: array?<Condition?>, createdAt: TimeCell?,
                     id: StringCell?, state: StringCell?)
      modifies this`metadata, this`conditions, this`createdAt, this`globalNetworkID, this`state
      ensures this.metadata == metadata && this.conditions == conditions
      ensures this.createdAt == createdAt && this.globalNetworkID == id && this.state == state
      ensures View() == old(View()).(
        metadata := old(MetadataView(metadata)), conditions := old(ConditionSliceView(conditions)),
        createdAt := old(Instant(createdAt)), globalNetworkID := old(Str(id)), state := old(Str(state)))
    {
      this.metadata, this.conditions := metadata, conditions;
      this.createdAt, this.globalNetworkID, this.state := createdAt, id, state;
    }

    method SetFields(meta: ObjectMeta, description: StringCell?, tags: array?<Tag?>, metadata: ResourceMetadata?,
                     conditions: array?<Condition?>, createdAt: TimeCell?, id: StringCell?, state: StringCell?)
      modifies this
      ensures this.meta == meta && this.description == description && this.tags == tags
      ensures this.metadata == metadata && this.conditions == conditions
      ensures this.createdAt == createdAt && this.globalNetworkID == id && this.state == state
      ensures View() == old(NetworkValue(meta, Str(description), TagSliceView(tags), MetadataView(metadata),
                                         ConditionSliceView(conditions), Instant(createdAt), Str(id), Str(state)))
    {
      SetSpec(meta, description, tags);
      assert ConditionSliceView(conditions) == old(ConditionSliceView(conditions));
      SetStatus(metadata, conditions, createdAt, id, state);
    }

    /** Both slices of a copy are free of shared slots. */
    ghost predicate Distinct()
      reads this, tags, conditions
    {
      DistinctTags(tags) && DistinctConditions(conditions)
    }

    method DeepCopyInto(out: GlobalNetwork)
      requires out != this
      modifies out
      ensures out.View() == old(View())
      ensures NewParts(out) && out.Distinct()
    {
      var d, t, c, m, at, id, st := CopyFields();
      out.SetFields(meta, d, t, m, c, at, id, st);
    }

    /**
     The copy has the value of the original; it and everything reachable from it is newly allocated,
     and a Tag or Condition that stands in two slots of the original is copied once for each slot.
     */
    method DeepCopy() returns (out: GlobalNetwork)
      ensures fresh(out) && NewParts(out) && out.Distinct()
      ensures out.View() == old(View())
    {
      out := new GlobalNetwork();
      ViewKept(this);
      DeepCopyInto(out);
    }
  }

  /** Every object reachable from `n` is newly allocated. */
  twostate predicate NewParts(new n: GlobalNetwork)
    reads n, n.tags, n.metadata, n.conditions
    reads set t: Tag | n.tags != null && t in n.tags[..]
    reads set c: Condition | n.conditions != null && c in n.conditions[..]
  {
    && NewCell(n.description) && NewTagSlice(n.tags)
    && NewMetadata(n.metadata) && NewConditionSlice(n.conditions)
    && NewTime(n.createdAt) && NewCell(n.globalNetworkID) && NewCell(n.state)
  }

  /* ---- What a copy is for ---- */

  ghost function Fields(n: GlobalNetwork): set<object?>
    reads n, n.metadata
  {
    {n, n.description, n.tags, n.metadata, n.conditions, n.createdAt, n.globalNetworkID, n.state}
    + if n.metadata == null then {}
      else {n.metadata.arn, n.metadata.ownerAccountID, n.metadata.partition, n.metadata.region}
  }

  ghost function TagObjects(tags: array?<Tag?>): set<object?>
    reads *
  {
    if tags == null then {}
    else
      (set t: Tag | t in tags[..] :: t as object?) + (set t: Tag | t in tags[..] :: t.key as object?)
      + (set t: Tag | t in tags[..] :: t.value as object?)
  }

  ghost function ConditionObjects(conditions: array?<Condition?>): set<object?>
    reads *
  {
    if conditions == null then {}
    else
      (set c: Condition | c in conditions[..] :: c as object?)
      + (set c: Condition | c in conditions[..] :: c.message as object?)
  }

  /** The network and everything that can be reached from it. */
  ghost function Parts(n: GlobalNetwork): set<object>
    reads *
  {
    set o: object | o in Fields(n) + TagObjects(n.tags) + ConditionObjects(n.conditions)
  }

  twostate lemma NewTagsAreFresh(new tags: array?<Tag?>)
    requires NewTagSlice(tags)
    ensures forall o :: o in TagObjects(tags) && o != null ==> fresh(o)
  {
    if tags != null {
      forall t: Tag | t in tags[..] ensures NewTag(t) {
        var i :| 0 <= i < tags.Length && tags[i] == t;
      }
    }
  }

  twostate lemma NewConditionsAreFresh(new conditions: array?<Condition?>)
    requires NewConditionSlice(conditions)
    ensures forall o :: o in ConditionObjects(conditions) && o != null ==> fresh(o)
  {
    if conditions != null {
      forall c: Condition | c in conditions[..] ensures NewCondition(c) {
        var i :| 0 <= i < conditions.Length && conditions[i] == c;
      }
    }
  }

  twostate lemma NewPartsAreFresh(new n: GlobalNetwork)
    requires fresh(n) && NewParts(n)
    ensures fresh(Parts(n))
  {
    NewTagsAreFresh(n.tags);
    NewConditionsAreFresh(n.conditions);
    forall o: object | o in Parts(n) ensures fresh(o) {
      assert o in Fields(n) || o in TagObjects(n.tags) || o in ConditionObjects(n.conditions);
    }
  }

  /** Neither the value of the network nor what it reaches has changed. */
  twostate predicate Same(n: GlobalNetwork)
    reads *
  {
    n.View() == old(n.View()) && n.Distinct() == old(n.Distinct()) && Parts(n) == old(Parts(n))
  }

  /** Writes outside of what a network reaches leave it the same. */
  twostate lemma WritesElsewhere(n: GlobalNetwork)
    requires unchanged(old(Parts(n)))
    ensures Same(n)
  {
    OwnFieldsKept(n);
    TagsKept(n);
    ConditionsKept(n);
  }

  twostate lemma OwnFieldsKept(n: GlobalNetwork)
    requires unchanged(old(Parts(n)))
    ensures unchanged(n) && Fields(n) == old(Fields(n))
    ensures MetadataView(n.metadata) == old(MetadataView(n.metadata))
    ensures Str(n.description) == old(Str(n.description)) && Instant(n.createdAt) == old(Instant(n.createdAt))
    ensures Str(n.globalNetworkID) == old(Str(n.globalNetworkID)) && Str(n.state) == old(Str(n.state))
  {
    ghost var parts, own := old(Parts(n)), old(Fields(n));
    assert forall o: object {:trigger o in own} :: o in own ==> o in parts;
    assert n in own;
    assert n.description in own && n.metadata in own && n.createdAt in own && n.globalNetworkID in own && n.state in own;
    if n.metadata != null {
      assert n.metadata.arn in own && n.metadata.ownerAccountID in own;
      assert n.metadata.partition in own && n.metadata.region in own;
    }
  }

  twostate lemma TagsKept(n: GlobalNetwork)
    requires unchanged(old(Parts(n)))
    ensures TagSliceView(n.tags) == old(TagSliceView(n.tags)) && TagObjects(n.tags) == old(TagObjects(n.tags))
    ensures DistinctTags(n.tags) == old(DistinctTags(n.tags))
  {
    ghost var parts := old(Parts(n));
    assert n in old(Fields(n)) && n in parts;
    if n.tags != null {
      assert n.tags in old(Fields(n)) && n.tags in parts;
      assert n.tags[..] == old(n.tags[..]);
      ghost var objects := old(TagObjects(n.tags));
      assert forall o: object {:trigger o in objects} :: o in objects ==> o in parts;
      forall t: Tag | t in n.tags[..] ensures unchanged(t) && SlotView(t) == old(SlotView(t)) {
        assert t in objects && t.key in objects && t.value in objects;
      }
    }
  }

  twostate lemma ConditionsKept(n: GlobalNetwork)
    requires unchanged(old(Parts(n)))
    ensures ConditionSliceView(n.conditions) == old(ConditionSliceView(n.conditions))
    ensures ConditionObjects(n.conditions) == old(ConditionObjects(n.conditions))
    ensures DistinctConditions(n.conditions) == old(DistinctConditions(n.conditions))
  {
    ghost var parts := old(Parts(n));
    assert n in old(Fields(n)) && n in parts;
    if n.conditions != null {
      assert n.conditions in old(Fields(n)) && n.conditions in parts;
      assert n.conditions[..] == old(n.conditions[..]);
      ghost var objects := old(ConditionObjects(n.conditions));
      assert forall o: object {:trigger o in objects} :: o in objects ==> o in parts;
      forall c: Condition | c in n.conditions[..] ensures unchanged(c) && ConditionView(c) == old(ConditionView(c)) {
        assert c in objects && c.message in objects;
      }
    }
  }

  /** Names the objects for which the premise of AllKept and ViewKept is used. */
  predicate Named(o: object) {
    true
  }

  /** In particular, networks stay the same while code allocates but does not write. */
  twostate lemma AllKept(ns: seq<GlobalNetwork>)
    requires forall o: object {:trigger Named(o)} :: old(allocated(o)) ==> unchanged(o)
    ensures forall n :: n in ns ==> Same(n)
  {
    forall n | n in ns ensures Same(n) {
      forall o | o in old(Parts(n)) ensures unchanged(o) {
        assert Named(o);
      }
      WritesElsewhere(n);
    }
  }

  twostate lemma ViewKept(n: GlobalNetwork)
    requires forall o: object {:trigger Named(o)} :: old(allocated(o)) ==> unchanged(o)
    ensures n.View() == old(n.View())
  {
    forall o | o in old(Parts(n)) ensures unchanged(o) {
      assert Named(o);
    }
    WritesElsewhere(n);
  }
}
