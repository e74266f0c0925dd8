/** newResourceDelta of delta.go: the comparison that decides whether and how to update. */
module Delta {
  import opened Wrappers
  import opened TagLists
  import opened Api
  import opened Tags
  import opened SyncProtocol
  import opened SyncTags

  const ROOT := ""
  const SPEC_DESCRIPTION := "Spec.Description"
  const SPEC_TAGS := "Spec.Tags"

  /** ackcompare.Delta: the recorded paths, in the order in which they were added. */
  class Delta {
    var paths: seq<string>

    constructor ()
      ensures paths == []
    {
      paths := [];
    }

    method Add(path: string)
      modifies this
      ensures paths == old(paths) + [path]
    {
      paths := paths + [path];
    }

    predicate DifferentAt(path: string)
      reads this
    {
      path in paths
    }

    predicate DifferentExcept(path: string)
      reads this
    {
      exists p :: p in paths && p != path
    }
  }

  /** The resource struct: a pointer to a CR, which may be nil. */
  class Resource {
    var ko: GlobalNetwork?

    constructor (ko: GlobalNetwork?)
      ensures this.ko == ko
    {
      this.ko := ko;
    }
  }

  predicate SameDescription(a: NetworkValue, b: NetworkValue) {
    a.description == b.description
  }

  ghost predicate SameTags(a: NetworkValue, b: NetworkValue)
    requires NoNil(a.tags) && NoNil(b.tags)
  {
    TagMap(Listed(a.tags)) == TagMap(Listed(b.tags))
  }

  function Paths(description: bool, tags: bool): seq<string> {
    (if description then [SPEC_DESCRIPTION] else []) + if tags then [SPEC_TAGS] else []
  }

  /** The paths that newResourceDelta records for two CRs. */
  ghost function DeltaPaths(a: NetworkValue, b: NetworkValue): seq<string>
    requires NoNil(a.tags) && NoNil(b.tags)
  {
    Paths(!SameDescription(a, b), !SameTags(a, b))
  }

  /** HasNilDifference, or two strings that are not equal. */
  predicate DescriptionsDiffer(a: StringCell?, b: StringCell?)
    reads a, b
    ensures DescriptionsDiffer(a, b) <==> Str(a) != Str(b)
  {
    (a == null) != (b == null) || (a != null && b != null && a.text != b.text)
  }

  method EntriesOf(tags: array?<Tag?>) returns (entries: TagDict)
    requires NoNil(TagSliceView(tags))
    ensures entries == TagMap(Listed(old(TagSliceView(tags))))
  {
    var ackTags, _ := ConvertToOrderedACKTags(tags);
    entries := ackTags.entries;
  }

  method TagsDiffer(a: array?<Tag?>, b: array?<Tag?>) returns (differ: bool)
    requires NoNil(TagSliceView(a)) && NoNil(TagSliceView(b))
    ensures differ <==> TagMap(Listed(old(TagSliceView(a)))) != TagMap(Listed(old(TagSliceView(b))))
  {
    var desiredACKTags := EntriesOf(a);
    assert TagSliceView(b) == old(TagSliceView(b));
    var latestACKTags := EntriesOf(b);
    differ := desiredACKTags != latestACKTags;
  }

  method AddPaths(delta: Delta, description: bool, tags: bool)
    modifies delta
    ensures delta.paths == old(delta.paths) + Paths(description, tags)
  {
    if description {
      delta.Add(SPEC_DESCRIPTION);
    }
    if tags {
      delta.Add(SPEC_TAGS);
    }
  }

  /** The two comparisons; they allocate only. */
  method Compare(a: GlobalNetwork, b: GlobalNetwork) returns (description: bool, tags: bool)
    requires NoNil(TagSliceView(a.tags)) && NoNil(TagSliceView(b.tags))
    ensures description <==> !SameDescription(old(a.View()), old(b.View()))
    ensures tags <==> !SameTags(old(a.View()), old(b.View()))
  {
    description := DescriptionsDiffer(a.description, b.description);
    tags := TagsDiffer(a.tags, b.tags);
  }

  method NewResourceDelta(a: Resource?, b: Resource?) returns (delta: Delta)
    requires a != null || b != null
    requires a != null && b != null ==>
      && a.ko != null && b.ko != null
      && NoNil(TagSliceView(a.ko.tags)) && NoNil(TagSliceView(b.ko.tags))
    ensures fresh(delta)
    ensures delta.paths ==
      if a == null || b == null then [ROOT] else old(DeltaPaths(a.ko.View(), b.ko.View()))
  {
    delta := new Delta();
    if (a == null && b != null) || (a != null && b == null) {
      delta.Add(ROOT);
      return;
    }
    ViewKept(a.ko);
    ViewKept(b.ko);
    var description, tags := Compare(a.ko, b.ko);
    AddPaths(delta, description, tags);
  }

  /**
   Delta agrees with action: on tag slices that SyncTags can handle, the delta names Spec.Tags exactly
   when SyncTags sends at least one request, although the two build their maps differently.
   */
  lemma DeltaAgreesWithSync(a: NetworkValue, b: NetworkValue, arn: string, trace: seq<TagRequest>, failed: bool)
    requires SafeToSync(a.tags, b.tags)
    requires Attempt(arn, TagMap(Listed(a.tags)), TagMap(Listed(b.tags)), trace, failed)
    ensures SPEC_TAGS in DeltaPaths(a, b) <==> trace != []
  {
    var desired, existing := TagMap(Listed(a.tags)), TagMap(Listed(b.tags));
    DiffersIsDiff(existing, desired);
    assert ToAdd(desired, existing).Keys == {} <==> ToAdd(desired, existing) == map[];
    assert SPEC_TAGS != SPEC_DESCRIPTION;
    var n := AddCount(desired, existing);
    if n == 0 {
      assert trace[..0] == [] && trace[0..] == trace;
      assert AllOk(trace[..0]);
    }
  }

  /** The order of tags with distinct keys plays no part in the delta. */
  lemma DeltaIgnoresTagOrder(a: NetworkValue, a': NetworkValue, b: NetworkValue)
    requires NoNil(a.tags) && NoNil(a'.tags) && NoNil(b.tags)
    requires a'.description == a.description
    requires DistinctKeys(Listed(a.tags)) && DistinctKeys(Listed(a'.tags))
    requires multiset(Listed(a.tags)) == multiset(Listed(a'.tags))
    ensures DeltaPaths(a, b) == DeltaPaths(a', b) && DeltaPaths(b, a) == DeltaPaths(b, a')
  {
    TagMapIgnoresOrder(Listed(a.tags), Listed(a'.tags));
  }
}
