/** sdk.go: find, create, update and delete against the client, and the status fields they fill in. */
module Sdk {
  import opened Wrappers
  import opened Errors
  import opened TagLists
  import opened Api
  import opened SyncProtocol
  import opened Client
  import opened SyncTags
  import opened Delta

  datatype ManagerValue = ManagerValue(account: string, region: string, partition: string)

  const NO_METADATA := MetadataValue(None, None, None, None)

  function OrElse<T>(a: Option<T>, b: T): Option<T> {
    if a.Some? then a else Some(b)
  }

  /** setStatusDefaults: what is absent is filled in, what is present stays. */
  function WithDefaults(n: NetworkValue, rm: ManagerValue): NetworkValue {
    n.(metadata := Some(DefaultedMetadata(n.metadata.GetOr(NO_METADATA), rm)),
       conditions := OrElse(n.conditions, []))
  }

  function DefaultedMetadata(m: MetadataValue, rm: ManagerValue): MetadataValue {
    m.(region := OrElse(m.region, rm.region),
       partition := OrElse(m.partition, rm.partition),
       ownerAccountID := OrElse(m.ownerAccountID, rm.account))
  }

  /** What setStatusDefaults promises, field by field. */
  ghost predicate FilledIn(n: NetworkValue, rm: ManagerValue, d: NetworkValue) {
    var before := if n.metadata.Some? then n.metadata.value else MetadataValue(None, None, None, None);
    && d.metadata.Some?
    && d.metadata.value.region == (if before.region.Some? then before.region else Some(rm.region))
    && d.metadata.value.partition == (if before.partition.Some? then before.partition else Some(rm.partition))
    && d.metadata.value.ownerAccountID
       == (if before.ownerAccountID.Some? then before.ownerAccountID else Some(rm.account))
    && d.metadata.value.arn == before.arn
    && d.conditions == (if n.conditions.Some? then n.conditions else Some([]))
    && d.meta == n.meta && d.description == n.description && d.tags == n.tags
    && d.createdAt == n.createdAt && d.globalNetworkID == n.globalNetworkID && d.state == n.state
  }

  /** It says all there is to say about the result. */
  lemma DefaultsFillIn(n: NetworkValue, rm: ManagerValue, d: NetworkValue)
    ensures FilledIn(n, rm, d) <==> d == WithDefaults(n, rm)
  {
  }

  ghost function TagField(tags: Option<TagList>): Option<seq<Option<TagValue>>> {
    if tags.None? then None else Slots(tags.value)
  }

  /** A CR with the fields of a response merged in. An ARN that is not reported leaves the old one. */
  ghost function Observed(n: NetworkValue, e: Element): NetworkValue {
    var m := n.metadata.GetOr(NO_METADATA);
    n.(createdAt := e.createdAt,
       description := e.description,
       metadata := Some(m.(arn := if e.arn.Some? then e.arn else m.arn)),
       globalNetworkID := e.id,
       state := if e.state == "" then None else Some(e.state),
       tags := TagField(e.tags))
  }

  class ResourceManager {
    const awsAccountID: StringCell
    const awsRegion: StringCell
    const awsPartition: StringCell
    const sdkapi: NetworkManagerClient

    constructor (account: StringCell, region: StringCell, partition: StringCell, sdkapi: NetworkManagerClient)
      ensures awsAccountID == account && awsRegion == region && awsPartition == partition && this.sdkapi == sdkapi
    {
      awsAccountID, awsRegion, awsPartition, this.sdkapi := account, region, partition, sdkapi;
    }

    ghost function View(): ManagerValue
      reads awsAccountID, awsRegion, awsPartition
    {
      ManagerValue(awsAccountID.text, awsRegion.text, awsPartition.text)
    }

    method DefaultMetadata(m: ResourceMetadata)
      modifies m
      ensures m.View() == DefaultedMetadata(old(m.View()), View())
      ensures View() == old(View())
    {
      if m.region == null {
        m.region := awsRegion;
      }
      if m.partition == null {
        m.partition := awsPartition;
      }
      if m.ownerAccountID == null {
        m.ownerAccountID := awsAccountID;
      }
    }
  }

  /* ---- Writing into a CR, one step at a time ---- */

  method EnsureMetadata(ko: GlobalNetwork)
    modifies ko`metadata
    ensures ko.metadata != null && (old(ko.metadata) != null ==> ko.metadata == old(ko.metadata))
    ensures old(ko.metadata) == null ==> fresh(ko.metadata)
    ensures ko.View() == old(ko.View()).(metadata := Some(old(ko.View()).metadata.GetOr(NO_METADATA)))
  {
    if ko.metadata == null {
      ko.metadata := new ResourceMetadata();
    }
  }

  method EnsureConditions(ko: GlobalNetwork)
    modifies ko`conditions
    ensures ko.conditions != null && (old(ko.conditions) != null ==> ko.conditions == old(ko.conditions))
    ensures old(ko.conditions) == null ==> fresh(ko.conditions) && ko.conditions.Length == 0
    ensures ko.View() == old(ko.View()).(conditions := OrElse(old(ko.View()).conditions, []))
  {
    if ko.conditions == null {
      ko.conditions := new Condition?[0];
    }
  }

  method DefaultStatusMetadata(rm: ResourceManager, ko: GlobalNetwork)
    requires ko.metadata != null
    modifies ko.metadata
    ensures ko.View() == old(ko.View()).(metadata := Some(DefaultedMetadata(old(ko.metadata.View()), old(rm.View()))))
  {
    rm.DefaultMetadata(ko.metadata);
  }

  method SetStatusDefaults(rm: ResourceManager, ko: GlobalNetwork)
    modifies ko`metadata, ko`conditions, ko.metadata
    ensures ko.metadata != null && (old(ko.metadata) != null ==> ko.metadata == old(ko.metadata))
    ensures ko.conditions != null && (old(ko.conditions) != null ==> ko.conditions == old(ko.conditions))
    ensures old(ko.conditions) == null ==> fresh(ko.conditions) && ko.conditions.Length == 0
    ensures ko.View() == WithDefaults(old(ko.View()), old(rm.View()))
    ensures FilledIn(old(ko.View()), old(rm.View()), ko.View())
  {
    EnsureMetadata(ko);
    assert rm.View() == old(rm.View());
    DefaultStatusMetadata(rm, ko);
    EnsureConditions(ko);
  }

  /** The loop that turns the tags of a response into a tag slice. */
  method TagsFromSDK(ts: Option<TagList>) returns (tags: array?<Tag?>)
    ensures TagSliceView(tags) == TagField(ts)
    ensures NewTagSlice(tags) && DistinctTags(tags)
  {
    if ts.None? {
      tags := null;
      return;
    }
    var f5: seq<Tag> := [];
    for i := 0 to |ts.value|
      invariant |f5| == i
      invariant forall j :: 0 <= j < i ==> NewTag(f5[j]) && f5[j].View() == ts.value[j]
      invariant forall j, k :: 0 <= j < k < i ==> f5[j] != f5[k]
    {
      var elem := new Tag();
      elem.key := MakeString(ts.value[i].key);
      elem.value := MakeString(ts.value[i].value);
      f5 := f5 + [elem];
    }
    tags := new Tag?[|f5|](i requires 0 <= i < |f5| => f5[i]);
    forall i | 0 <= i < tags.Length
      ensures SlotView(tags[i]) == Some(ts.value[i]) && NewTag(tags[i])
    {
      assert tags[i] == f5[i];
    }
    assert SlotViews(tags[..]) == Slots(ts.value).value;
  }

  /** The loop that turns a tag slice into the tags of a request. */
  method TagsToSDK(tags: array?<Tag?>) returns (ts: Option<TagList>)
    requires NoNil(TagSliceView(tags))
    ensures ts == if tags == null then None else Some(Listed(TagSliceView(tags)))
  {
    if tags == null {
      return None;
    }
    ghost var want := Listed(TagSliceView(tags));
    var f1: TagList := [];
    for i := 0 to tags.Length
      invariant f1 == want[..i]
    {
      assert SlotView(tags[i]) == Some(want[i]);
      assert want[..i + 1] == want[..i] + [want[i]];
      f1 := f1 + [TagValue(Str(tags[i].key), Str(tags[i].value))];
    }
    assert want[..tags.Length] == want;
    ts := Some(f1);
  }

  method SetObserved(ko: GlobalNetwork, createdAt: TimeCell?, description: StringCell?, id: StringCell?,
                     state: StringCell?, tags: array?<Tag?>)
    modifies ko`createdAt, ko`description, ko`globalNetworkID, ko`state, ko`tags
    ensures ko.View() == old(ko.View()).(
      createdAt := old(Instant(createdAt)), description := old(Str(description)), globalNetworkID := old(Str(id)),
      state := old(Str(state)), tags := old(TagSliceView(tags)))
  {
    ko.createdAt, ko.description, ko.globalNetworkID, ko.state, ko.tags := createdAt, description, id, state, tags;
  }

  method SetARN(ko: GlobalNetwork, arn: string)
    requires ko.metadata != null
    modifies ko.metadata
    ensures ko.View() == old(ko.View()).(metadata := Some(old(ko.metadata.View()).(arn := Some(arn))))
  {
    ko.metadata.arn := new StringCell(arn);
  }

  method CellsOf(e: Element)
    returns (at: TimeCell?, description: StringCell?, id: StringCell?, state: StringCell?, tags: array?<Tag?>)
    ensures Instant(at) == e.createdAt && Str(description) == e.description && Str(id) == e.id
    ensures Str(state) == if e.state == "" then None else Some(e.state)
    ensures TagSliceView(tags) == TagField(e.tags)
  {
    at := MakeTime(e.createdAt);
    description := MakeString(e.description);
    id := MakeString(e.id);
    state := MakeString(if e.state == "" then None else Some(e.state));
    tags := TagsFromSDK(e.tags);
  }

  /** The fields of a response that are pointers of the CR. */
  method MergeFields(ko: GlobalNetwork, e: Element)
    modifies ko`createdAt, ko`description, ko`globalNetworkID, ko`state, ko`tags
    ensures ko.View() == old(ko.View()).(
      createdAt := e.createdAt, description := e.description, globalNetworkID := e.id,
      state := if e.state == "" then None else Some(e.state), tags := TagField(e.tags))
  {
    var at, description, id, state, tags := CellsOf(e);
    assert ko.View() == old(ko.View());
    SetObserved(ko, at, description, id, state, tags);
  }

  /** The merge of sdkFind: metadata appears only with an ARN. */
  method MergeElement(ko: GlobalNetwork, e: Element)
    modifies ko, ko.metadata
    ensures ko.metadata != null ==> fresh(ko.metadata) || ko.metadata == old(ko.metadata)
    ensures ko.View() == old(Observed(ko.View(), e).(
      metadata := if e.arn.Some? then Observed(ko.View(), e).metadata else ko.View().metadata))
  {
    MergeFields(ko, e);
    if e.arn.Some? {
      EnsureMetadata(ko);
      SetARN(ko, e.arn.value);
    }
  }

  /** The merge of sdkCreate and sdkUpdate: metadata always appears. */
  method MergeOutput(ko: GlobalNetwork, e: Element)
    modifies ko, ko.metadata
    ensures ko.metadata != null ==> fresh(ko.metadata) || ko.metadata == old(ko.metadata)
    ensures ko.View() == old(Observed(ko.View(), e))
  {
    MergeFields(ko, e);
    EnsureMetadata(ko);
    if e.arn.Some? {
      SetARN(ko, e.arn.value);
    }
  }

  method ObserveElement(rm: ResourceManager, from: GlobalNetwork, e: Element) returns (ko: GlobalNetwork)
    ensures fresh(ko)
    ensures ko.View() == WithDefaults(Observed(old(from.View()), e), old(rm.View()))
  {
    ko := from.DeepCopy();
    ghost var rmView := rm.View();
    MergeElement(ko, e);
    assert rm.View() == rmView;
    SetStatusDefaults(rm, ko);
  }

  method ObserveOutput(rm: ResourceManager, from: GlobalNetwork, e: Element) returns (ko: GlobalNetwork)
    ensures fresh(ko)
    ensures ko.View() == WithDefaults(Observed(old(from.View()), e), old(rm.View()))
  {
    ko := from.DeepCopy();
    ghost var rmView := rm.View();
    MergeOutput(ko, e);
    assert rm.View() == rmView;
    SetStatusDefaults(rm, ko);
  }

  /** `&resource{ko}`. */
  method NewResource(ko: GlobalNetwork) returns (r: Resource)
    ensures fresh(r) && r.ko == ko && ko.View() == old(ko.View())
  {
    r := new Resource(ko);
  }

  method MergedCopy(rm: ResourceManager, from: GlobalNetwork, e: Element) returns (r: Resource)
    ensures fresh(r) && r.ko != null && fresh(r.ko)
    ensures r.ko.View() == WithDefaults(Observed(old(from.View()), e), old(rm.View()))
  {
    var ko := ObserveOutput(rm, from, e);
    r := NewResource(ko);
  }

  /** Building the result allocates only. */
  method ResourceFromOutput(rm: ResourceManager, from: GlobalNetwork, e: Element) returns (r: Resource)
    ensures fresh(r) && r.ko != null && fresh(r.ko)
    ensures from.View() == old(from.View()) && rm.View() == old(rm.View())
    ensures r.ko.View() == WithDefaults(Observed(from.View(), e), rm.View())
  {
    r := MergedCopy(rm, from, e);
    ViewKept(from);
  }

  /** A call writes to the client, which no CR reaches. */
  twostate lemma ClientApart(n: GlobalNetwork, new client: NetworkManagerClient)
    requires forall o: object {:trigger Named(o)} :: old(allocated(o)) && o != client ==> unchanged(o)
    ensures n.View() == old(n.View())
  {
    forall o | o in old(Parts(n)) ensures unchanged(o) {
      assert Named(o) && o != client;
    }
    WritesElsewhere(n);
  }

  /* ---- sdkFind ---- */

  /** `e` reports the live network with the given ID. */
  ghost predicate FoundInBackend(client: NetworkManagerClient, id: Option<string>, e: Element)
    reads client
  {
    && id.Some? && id.value in client.networks
    && client.networks[id.value].arn in client.tags
    && Reports(e, id.value, client.networks[id.value], client.tags[client.networks[id.value].arn])
  }

  /**
   What sdkFind asks and how it answers. Without an ID it asks nothing and answers NotFound; else it asks
   for the ID once. An empty list means NotFound, and so does an error whose first API error has the code
   ResourceNotFoundException; any other error is handed on as it is.
   */
  ghost predicate ReadAnswer(id: Option<string>, asked: seq<NetworkCall>, err: Option<Error>) {
    if id.None? then asked == [] && err == Some(NotFound)
    else
      && |asked| == 1 && asked[0].DescribeCall? && asked[0].ids == [id.value]
      && err == if asked[0].err.Some? then
                  Some(if FirstCode(asked[0].err.value, "ResourceNotFoundException") then NotFound else asked[0].err.value)
                else if asked[0].found == [] then Some(NotFound) else None
  }

  /** The call failed, and not because the network is missing. */
  ghost predicate ReadFailed(asked: seq<NetworkCall>) {
    asked != [] && asked[0].err.Some? && !FirstCode(asked[0].err.value, "ResourceNotFoundException")
  }

  /** The backend half of sdkFind. */
  method ReadNetwork(client: NetworkManagerClient, id: Option<string>)
    returns (resp: seq<Element>, err: Option<Error>, ghost asked: seq<NetworkCall>)
    requires client.Valid()
    modifies client`calls
    ensures client.Valid() && client.calls == old(client.calls) + asked
    ensures ReadAnswer(id, asked, err) && (err.None? ==> resp == asked[0].found)
    ensures err.Some? ==> err == Some(NotFound) || FromSDK(err.value)
    ensures err == Some(NotFound) ==> id.None? || id.value !in client.networks
    ensures !ReadFailed(asked) ==> (err == Some(NotFound) <==> id.None? || id.value !in client.networks)
    ensures !ReadFailed(asked) ==> err.None? || err == Some(NotFound)
    ensures err.None? ==> |resp| > 0 && FoundInBackend(client, id, resp[0])
  {
    resp, asked := [], [];
    if id.None? {
      return resp, Some(NotFound), asked;
    }
    resp, err := client.DescribeGlobalNetworks(id.value);
    asked := [DescribeCall([id.value], resp, err)];
    if err.Some? {
      NotFoundExactly(err.value);
    }
    if err.Some? && IsNotFoundError(err.value) {
      err := Some(NotFound);
    } else if err == None && |resp| == 0 {
      err := Some(NotFound);
    }
  }

  /** sdkFind: the copy of the CR holds what the backend reports for its ID. */
  method SdkFind(rm: ResourceManager, r: Resource)
    returns (latest: Resource?, err: Option<Error>, ghost e: Element, ghost asked: seq<NetworkCall>)
    requires r.ko != null && rm.sdkapi.Valid()
    modifies rm.sdkapi`calls
    ensures rm.sdkapi.Valid() && rm.sdkapi.calls == old(rm.sdkapi.calls) + asked
    ensures r.ko.View() == old(r.ko.View()) && rm.View() == old(rm.View())
    ensures ReadAnswer(old(r.ko.View()).globalNetworkID, asked, err) && (err.None? ==> e == asked[0].found[0])
    ensures err.Some? <==> latest == null
    ensures err.Some? ==> err == Some(NotFound) || FromSDK(err.value)
    ensures err == Some(NotFound) ==>
      old(r.ko.View()).globalNetworkID.None? || old(r.ko.View()).globalNetworkID.value !in rm.sdkapi.networks
    ensures !ReadFailed(asked) ==>
      && (err.None? || err == Some(NotFound))
      && (err == Some(NotFound)
          <==> old(r.ko.View()).globalNetworkID.None? || old(r.ko.View()).globalNetworkID.value !in rm.sdkapi.networks)
    ensures latest != null ==>
      && fresh(latest) && latest.ko != null && fresh(latest.ko)
      && FoundInBackend(rm.sdkapi, old(r.ko.View()).globalNetworkID, e)
      && latest.ko.View() == WithDefaults(Observed(old(r.ko.View()), e), old(rm.View()))
  {
    latest, e := null, Element(None, None, None, None, "", None);
    var resp;
    resp, err, asked := AskFor(rm, r.ko);
    if err.None? {
      e := resp[0];
      latest := FoundResource(rm, r.ko, resp[0]);
    }
  }

  /** ReadNetwork for the ID of a CR, which stays as it is. */
  method AskFor(rm: ResourceManager, ko: GlobalNetwork)
    returns (resp: seq<Element>, err: Option<Error>, ghost asked: seq<NetworkCall>)
    requires rm.sdkapi.Valid()
    modifies rm.sdkapi`calls
    ensures rm.sdkapi.Valid() && rm.sdkapi.calls == old(rm.sdkapi.calls) + asked
    ensures ko.View() == old(ko.View()) && rm.View() == old(rm.View())
    ensures var id := ko.View().globalNetworkID;
      && ReadAnswer(id, asked, err) && (err.None? ==> resp == asked[0].found)
      && (err.Some? ==> err == Some(NotFound) || FromSDK(err.value))
      && (err == Some(NotFound) ==> id.None? || id.value !in rm.sdkapi.networks)
      && (!ReadFailed(asked) ==> (err == Some(NotFound) <==> id.None? || id.value !in rm.sdkapi.networks))
      && (!ReadFailed(asked) ==> err.None? || err == Some(NotFound))
      && (err.None? ==> |resp| > 0 && FoundInBackend(rm.sdkapi, id, resp[0]))
  {
    resp, err, asked := ReadNetwork(rm.sdkapi, Str(ko.globalNetworkID));
    ClientApart(ko, rm.sdkapi);
  }

  method FoundResource(rm: ResourceManager, from: GlobalNetwork, e: Element) returns (r: Resource)
    ensures from.View() == old(from.View()) && rm.View() == old(rm.View())
    ensures fresh(r) && r.ko != null && fresh(r.ko)
    ensures r.ko.View() == WithDefaults(Observed(from.View(), e), rm.View())
  {
    r := FoundCopy(rm, from, e);
    ViewKept(from);
  }

  method FoundCopy(rm: ResourceManager, from: GlobalNetwork, e: Element) returns (r: Resource)
    ensures fresh(r) && r.ko != null && fresh(r.ko)
    ensures r.ko.View() == WithDefaults(Observed(old(from.View()), e), old(rm.View()))
  {
    var ko := ObserveElement(rm, from, e);
    r := NewResource(ko);
  }

  /* ---- sdkCreate ---- */

  /** The tags of a request. */
  ghost function RequestTags(tags: Option<seq<Option<TagValue>>>): Option<TagList>
    requires NoNil(tags)
  {
    if tags.None? then None else Some(Listed(tags))
  }

  /** CreateGlobalNetwork writes to the backend only. */
  method CallCreate(rm: ResourceManager, ghost ko: GlobalNetwork, description: Option<string>, ts: Option<TagList>)
    returns (e: Element, err: Option<Error>)
    requires rm.sdkapi.Valid()
    modifies rm.sdkapi
    ensures rm.sdkapi.Valid()
    ensures rm.sdkapi.calls == old(rm.sdkapi.calls) + [CreateCall(description, ts, e, err)]
    ensures ko.View() == old(ko.View()) && rm.View() == old(rm.View())
    ensures err.Some? ==> FromSDK(err.value)
    ensures err.Some? ==> rm.sdkapi.networks == old(rm.sdkapi.networks) && rm.sdkapi.issued == old(rm.sdkapi.issued)
    ensures err.None? ==>
      Created(e, description, ts, old(rm.sdkapi.networks), rm.sdkapi.networks, old(rm.sdkapi.tags), rm.sdkapi.tags,
              old(rm.sdkapi.issued), rm.sdkapi.issued)
  {
    e, err := rm.sdkapi.CreateGlobalNetwork(description, ts);
    ClientApart(ko, rm.sdkapi);
  }

  /** newCreateRequestPayload: the description and the tags of the CR. */
  method NewCreateRequestPayload(ko: GlobalNetwork) returns (description: Option<string>, ts: Option<TagList>)
    requires NoNil(ko.View().tags)
    ensures ko.View() == old(ko.View())
    ensures description == ko.View().description && ts == RequestTags(ko.View().tags)
  {
    description := Str(ko.description);
    ts := TagsToSDK(ko.tags);
    assert ko.View() == old(ko.View());
  }

  /** The deferred function of sdkCreate: a later error is marked, and the CR is returned with it. */
  method PostCreate(created: Resource?, err: Option<Error>, ko: GlobalNetwork) returns (created': Resource?, err': Option<Error>)
    ensures err.None? ==> created' == created && err' == None
    ensures err.Some? ==>
      && err' == Some(PostCreateError(err.value)) && created' != null
      && (if created == null then fresh(created') && created'.ko == ko else created' == created)
    ensures ko.View() == old(ko.View())
  {
    created', err' := created, err;
    if err.Some? {
      err' := Some(PostCreateError(err.value));
      if created == null {
        created' := new Resource(ko);
      }
    }
  }

  /** The rest of sdkCreate after the call: nothing in it fails, so the deferred function changes nothing. */
  method FinishCreate(rm: ResourceManager, desired: GlobalNetwork, e: Element) returns (created: Resource?, err: Option<Error>)
    ensures err == None && created != null && fresh(created) && created.ko != null && fresh(created.ko)
    ensures created.ko.View() == WithDefaults(Observed(old(desired.View()), e), old(rm.View()))
  {
    var ko := ObserveOutput(rm, desired, e);
    created := NewResource(ko);
    ghost var view := ko.View();
    created, err := PostCreate(created, None, ko);
    assert ko.View() == view;
  }

  /** That part allocates only. */
  method MergeCreated(rm: ResourceManager, desired: GlobalNetwork, e: Element) returns (created: Resource?, err: Option<Error>)
    ensures desired.View() == old(desired.View()) && rm.View() == old(rm.View())
    ensures err == None && created != null && fresh(created) && created.ko != null && fresh(created.ko)
    ensures created.ko.View() == WithDefaults(Observed(desired.View(), e), rm.View())
  {
    created, err := FinishCreate(rm, desired, e);
    ViewKept(desired);
  }

  method SdkCreate(rm: ResourceManager, desired: Resource) returns (created: Resource?, err: Option<Error>, e: Element)
    requires desired.ko != null && rm.sdkapi.Valid() && NoNil(desired.ko.View().tags)
    modifies rm.sdkapi
    ensures rm.sdkapi.Valid()
    ensures rm.sdkapi.calls == old(rm.sdkapi.calls)
      + [CreateCall(old(desired.ko.View()).description, RequestTags(old(desired.ko.View()).tags), e, err)]
    ensures desired.ko.View() == old(desired.ko.View()) && rm.View() == old(rm.View())
    ensures err.Some? <==> created == null
    ensures err.Some? ==> FromSDK(err.value)
    ensures err.Some? ==> rm.sdkapi.networks == old(rm.sdkapi.networks) && rm.sdkapi.issued == old(rm.sdkapi.issued)
    ensures created != null ==>
      && fresh(created) && created.ko != null && fresh(created.ko)
      && Created(e, old(desired.ko.View()).description, RequestTags(old(desired.ko.View()).tags),
                 old(rm.sdkapi.networks), rm.sdkapi.networks, old(rm.sdkapi.tags), rm.sdkapi.tags,
                 old(rm.sdkapi.issued), rm.sdkapi.issued)
      && created.ko.View() == WithDefaults(Observed(old(desired.ko.View()), e), old(rm.View()))
  {
    created := null;
    ghost var rmView := rm.View();
    var description, tags := NewCreateRequestPayload(desired.ko);
    assert rm.View() == rmView;
    e, err := CallCreate(rm, desired.ko, description, tags);
    if err.None? {
      created, err := MergeCreated(rm, desired.ko, e);
    }
  }

  /* ---- sdkUpdate ---- */

  /** The ARN that sdkUpdate takes from the desired CR. */
  predicate HasARN(n: NetworkValue) {
    n.metadata.Some? && n.metadata.value.arn.Some?
  }

  ghost predicate OnlyTagsDiffer(paths: seq<string>) {
    forall p :: p in paths ==> p == SPEC_TAGS
  }

  /** What sdkUpdate dereferences when the tags differ. */
  ghost predicate SafeToUpdate(desired: NetworkValue, latest: NetworkValue, paths: seq<string>) {
    SPEC_TAGS in paths ==> HasARN(desired) && SafeToSync(desired.tags, latest.tags)
  }

  /** The tag half of an update: one SyncTags attempt if the delta names the tags, else nothing. */
  ghost predicate TagsUpdated(desired: NetworkValue, latest: NetworkValue, paths: seq<string>, trace: seq<TagRequest>,
                              tags: map<string, TagDict>, tags': map<string, TagDict>)
    requires SafeToUpdate(desired, latest, paths)
  {
    if SPEC_TAGS in paths then
      var arn := desired.metadata.value.arn.value;
      && Attempt(arn, TagMap(Listed(desired.tags)), TagMap(Listed(latest.tags)), trace, !AllOk(trace))
      && if arn in tags then tags' == tags[arn := Replay(tags[arn], trace)]
         else tags' == tags && forall i :: 0 <= i < |trace| ==> !trace[i].ok
    else
      trace == [] && tags' == tags
  }

  /**
   The rest of an update: one UpdateGlobalNetwork with the ID and description of the desired CR, if the
   delta names more than tags and no tag request failed; else nothing. The error is that of the last
   request sent, so the update fails exactly when a request did.
   */
  ghost predicate NetworkUpdated(desired: NetworkValue, paths: seq<string>, trace: seq<TagRequest>, sent: seq<NetworkCall>,
                                 err: Option<Error>, networks: map<string, Network>, networks': map<string, Network>) {
    var id := desired.globalNetworkID;
    if AllOk(trace) && !OnlyTagsDiffer(paths) then
      && |sent| == 1 && sent[0].UpdateCall? && sent[0].id == id && sent[0].description == desired.description
      && err == sent[0].err
      && if err.None? then
           id.Some? && id.value in networks
           && networks' == networks[id.value := Described(networks[id.value], desired.description)]
         else networks' == networks
    else
      sent == [] && err == LastError(trace) && (err.None? <==> AllOk(trace)) && networks' == networks
  }

  /** An update fails exactly when one of its requests does. */
  lemma UpdateFails(desired: NetworkValue, paths: seq<string>, trace: seq<TagRequest>, sent: seq<NetworkCall>,
                    err: Option<Error>, networks: map<string, Network>, networks': map<string, Network>)
    requires NetworkUpdated(desired, paths, trace, sent, err, networks, networks')
    ensures err.None? <==> AllOk(trace) && forall i :: 0 <= i < |sent| ==> sent[i].err.None?
    ensures if AllOk(trace) && !OnlyTagsDiffer(paths) then
        |sent| == 1 && sent[0].UpdateCall? && sent[0].id == desired.globalNetworkID && sent[0].description == desired.description
      else sent == []
  {
  }

  method CallSyncTags(rm: ResourceManager, desired: GlobalNetwork, latest: GlobalNetwork, delta: Delta)
    returns (err: Option<Error>, ghost trace: seq<TagRequest>)
    requires rm.sdkapi.Valid() && SafeToUpdate(desired.View(), latest.View(), delta.paths)
    modifies rm.sdkapi`tags, rm.sdkapi`requests
    ensures rm.sdkapi.Valid()
    ensures desired.View() == old(desired.View()) && rm.View() == old(rm.View()) && delta.paths == old(delta.paths)
    ensures TagsUpdated(old(desired.View()), old(latest.View()), old(delta.paths), trace, old(rm.sdkapi.tags), rm.sdkapi.tags)
    ensures rm.sdkapi.requests == old(rm.sdkapi.requests) + trace
    ensures (err.Some? <==> !AllOk(trace)) && err == LastError(trace)
    ensures err.Some? ==> FromSDK(err.value)
  {
    err, trace := None, [];
    if delta.DifferentAt(SPEC_TAGS) {
      var panicked;
      panicked, err, trace := SyncTags.SyncTags(rm.sdkapi, desired.metadata.arn.text, desired.tags, latest.tags);
    }
    ClientApart(desired, rm.sdkapi);
  }

  method CallUpdate(rm: ResourceManager, ghost ko: GlobalNetwork, id: Option<string>, description: Option<string>)
    returns (e: Element, err: Option<Error>)
    requires rm.sdkapi.Valid()
    modifies rm.sdkapi`networks, rm.sdkapi`calls
    ensures rm.sdkapi.Valid() && rm.sdkapi.calls == old(rm.sdkapi.calls) + [UpdateCall(id, description, e, err)]
    ensures ko.View() == old(ko.View()) && rm.View() == old(rm.View())
    ensures err.Some? ==> FromSDK(err.value)
    ensures err.Some? ==> rm.sdkapi.networks == old(rm.sdkapi.networks)
    ensures err.None? ==>
      && id.Some? && id.value in old(rm.sdkapi.networks)
      && rm.sdkapi.networks == old(rm.sdkapi.networks)[id.value := Described(old(rm.sdkapi.networks)[id.value], description)]
      && FoundInBackend(rm.sdkapi, id, e)
  {
    e, err := rm.sdkapi.UpdateGlobalNetwork(id, description);
    ClientApart(ko, rm.sdkapi);
  }

  method SdkUpdate(rm: ResourceManager, desired: Resource, latest: Resource, delta: Delta)
    returns (updated: Resource?, err: Option<Error>, ghost trace: seq<TagRequest>, ghost sent: seq<NetworkCall>, e: Element)
    requires desired.ko != null && latest.ko != null && rm.sdkapi.Valid()
    requires SafeToUpdate(desired.ko.View(), latest.ko.View(), delta.paths)
    modifies rm.sdkapi`networks, rm.sdkapi`tags, rm.sdkapi`requests, rm.sdkapi`calls
    ensures rm.sdkapi.Valid()
    ensures rm.sdkapi.requests == old(rm.sdkapi.requests) + trace && rm.sdkapi.calls == old(rm.sdkapi.calls) + sent
    ensures desired.ko.View() == old(desired.ko.View()) && rm.View() == old(rm.View())
    ensures err.Some? <==> updated == null
    ensures err.Some? ==> FromSDK(err.value)
    ensures TagsUpdated(old(desired.ko.View()), old(latest.ko.View()), old(delta.paths), trace,
                        old(rm.sdkapi.tags), rm.sdkapi.tags)
    ensures NetworkUpdated(old(desired.ko.View()), old(delta.paths), trace, sent, err,
                           old(rm.sdkapi.networks), rm.sdkapi.networks)
    ensures err.None? && OnlyTagsDiffer(old(delta.paths)) ==> updated == desired
    ensures err.None? && !OnlyTagsDiffer(old(delta.paths)) ==>
      && fresh(updated) && updated.ko != null && fresh(updated.ko)
      && FoundInBackend(rm.sdkapi, old(desired.ko.View()).globalNetworkID, e) && e == sent[0].resp
      && updated.ko.View() == WithDefaults(Observed(old(desired.ko.View()), e), old(rm.View()))
  {
    e, sent := Element(None, None, None, None, "", None), [];
    err, trace := CallSyncTags(rm, desired.ko, latest.ko, delta);
    if err != None {
      return null, err, trace, sent, e;
    }
    if !delta.DifferentExcept(SPEC_TAGS) {
      return desired, None, trace, sent, e;
    }
    var id, description := Str(desired.ko.globalNetworkID), Str(desired.ko.description);
    e, err := CallUpdate(rm, desired.ko, id, description);
    sent := [UpdateCall(id, description, e, err)];
    if err.Some? {
      return null, err, trace, sent, e;
    }
    updated := ResourceFromOutput(rm, desired.ko, e);
  }

  /* ---- sdkDelete ---- */

  method SdkDelete(rm: ResourceManager, r: Resource) returns (latest: Resource?, err: Option<Error>)
    requires r.ko != null && rm.sdkapi.Valid()
    modifies rm.sdkapi`networks, rm.sdkapi`calls
    ensures rm.sdkapi.Valid() && latest == null
    ensures rm.sdkapi.calls == old(rm.sdkapi.calls) + [DeleteCall(old(r.ko.View()).globalNetworkID, err)]
    ensures err.Some? ==> FromSDK(err.value)
    ensures err.Some? ==> rm.sdkapi.networks == old(rm.sdkapi.networks)
    ensures err.None? ==>
      && old(r.ko.View()).globalNetworkID.Some?
      && rm.sdkapi.networks == old(rm.sdkapi.networks) - {old(r.ko.View()).globalNetworkID.value}
  {
    err := rm.sdkapi.DeleteGlobalNetwork(Str(r.ko.globalNetworkID));
    latest := null;
  }
}
