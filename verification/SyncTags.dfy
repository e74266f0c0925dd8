/** SyncTags, addTags and removeTags of pkg/tags/sync.go, on tag slices and a client. */
module SyncTags {
  import opened Wrappers
  import opened Errors
  import opened TagLists
  import opened Api
  import opened Tags
  import opened SyncProtocol
  import opened Client

  /** The map of key to value pointer that SyncTags fills from a slice. */
  function Pointers(ts: TagList): map<string, Option<string>>
    requires AllKeyed(ts)
  {
    if ts == [] then map[] else Pointers(ts[..|ts| - 1])[ts[|ts| - 1].key.value := ts[|ts| - 1].value]
  }

  lemma {:induction false} PointersAreTagMap(ts: TagList)
    requires AllKeyed(ts)
    ensures Pointers(ts).Keys == TagMap(ts).Keys
    ensures forall k :: k in TagMap(ts) ==> TagMap(ts)[k] == Pointers(ts)[k].GetOr("")
  {
    if ts == [] {
    } else {
      PointersAreTagMap(ts[..|ts| - 1]);
    }
  }

  /** The slots and keys of a slice are all there. */
  ghost predicate Keyed(tags: Option<seq<Option<TagValue>>>) {
    NoNil(tags) && AllKeyed(Listed(tags))
  }

  /** Every desired value is there, and so is every existing one whose key is desired. */
  ghost predicate Present(desired: map<string, Option<string>>, existing: map<string, Option<string>>) {
    && (forall k :: k in desired ==> desired[k].Some?)
    && forall k :: k in desired && k in existing ==> existing[k].Some?
  }

  /** When SyncTags dereferences no nil pointer. Of tags with the same key the last one counts. */
  ghost predicate SafeToSync(a: Option<seq<Option<TagValue>>>, b: Option<seq<Option<TagValue>>>) {
    Keyed(a) && Keyed(b) && Present(Pointers(Listed(a)), Pointers(Listed(b)))
  }

  lemma {:induction false} AllValuedPointers(ts: TagList)
    requires AllKeyed(ts) && AllValued(ts)
    ensures forall k :: k in Pointers(ts) ==> Pointers(ts)[k].Some?
  {
    if ts == [] {
    } else {
      AllValuedPointers(ts[..|ts| - 1]);
    }
  }

  /** In particular nothing goes wrong when every slot, key and value is there. */
  lemma PresentIsSafe(a: Option<seq<Option<TagValue>>>, b: Option<seq<Option<TagValue>>>)
    requires NoNil(a) && AllKeyed(Listed(a)) && AllValued(Listed(a))
    requires NoNil(b) && AllKeyed(Listed(b)) && AllValued(Listed(b))
    ensures SafeToSync(a, b)
  {
    AllValuedPointers(Listed(a));
    AllValuedPointers(Listed(b));
  }

  /** A loop that fills one of the maps; it panics on a slot or a key that is nil. */
  method CollectTags(tags: array?<Tag?>) returns (panicked: bool, m: map<string, Option<string>>)
    ensures panicked <==> !Keyed(old(TagSliceView(tags)))
    ensures !panicked ==> m == Pointers(Listed(old(TagSliceView(tags))))
  {
    panicked, m := false, map[];
    if tags == null {
      return;
    }
    ghost var slots := TagSliceView(tags).value;
    for i := 0 to tags.Length
      invariant Keyed(Some(slots[..i])) && m == Pointers(Listed(Some(slots[..i])))
    {
      assert SlotView(tags[i]) == slots[i];
      if tags[i] == null || tags[i].key == null {
        BadSlot(slots, i);
        return true, m;
      }
      OneMoreSlot(slots, i);
      m := m[tags[i].key.text := Str(tags[i].value)];
    }
    assert slots[..tags.Length] == slots;
  }

  lemma BadSlot(slots: seq<Option<TagValue>>, i: nat)
    requires i < |slots| && (slots[i].None? || slots[i].value.key.None?)
    ensures !Keyed(Some(slots))
  {
    if NoNil(Some(slots)) {
      assert Listed(Some(slots))[i].key.None?;
    }
  }

  lemma OneMoreSlot(slots: seq<Option<TagValue>>, i: nat)
    requires i < |slots| && slots[i].Some? && slots[i].value.key.Some? && Keyed(Some(slots[..i]))
    ensures Keyed(Some(slots[..i + 1]))
    ensures Pointers(Listed(Some(slots[..i + 1])))
         == Pointers(Listed(Some(slots[..i])))[slots[i].value.key.value := slots[i].value.value]
  {
    var ts := Listed(Some(slots[..i + 1]));
    assert ts[..i] == Listed(Some(slots[..i]));
  }

  /** The request list of addTags, in iteration order. */
  method ListTags(tags: map<string, Option<string>>, ghost add: TagDict)
    returns (sdkTags: TagList, ghost order: seq<string>)
    requires tags.Keys == add.Keys && forall k :: k in add ==> tags[k] == Some(add[k])
    ensures Enumerates(order, add.Keys) && sdkTags == Entries(add, order)
  {
    sdkTags, order := [], [];
    var pending := tags.Keys;
    while pending != {}
      invariant pending <= tags.Keys
      invariant Enumerates(order, add.Keys - pending)
      invariant sdkTags == Entries(add, order)
      decreases pending
    {
      var k :| k in pending;
      assert k !in KeySet(order);
      EntriesSnoc(add, order, k);
      sdkTags := sdkTags + [TagValue(Some(k), tags[k])];
      order := order + [k];
      pending := pending - {k};
    }
  }

  /** How the requests of one attempt change the client: those for an unknown ARN all fail. */
  ghost predicate Received(tags: map<string, TagDict>, requests: seq<TagRequest>, tags': map<string, TagDict>,
                           requests': seq<TagRequest>, arn: string, trace: seq<TagRequest>) {
    && requests' == requests + trace
    && if arn in tags then tags' == tags[arn := Replay(tags[arn], trace)]
       else tags' == tags && forall i :: 0 <= i < |trace| ==> !trace[i].ok
  }

  lemma ReceivedOne(tags: map<string, TagDict>, requests: seq<TagRequest>, tags': map<string, TagDict>,
                    requests': seq<TagRequest>, arn: string, r: TagRequest)
    requires requests' == requests + [r] && (r.ok ==> arn in tags)
    requires tags' == if r.ok then tags[arn := Applied(tags[arn], r)] else tags
    ensures Received(tags, requests, tags', requests', arn, [r])
    ensures (AllOk([r]) <==> r.err.None?) && LastError([r]) == r.err
  {
    assert [r][0] == r;
    if arn in tags {
      OneRequest(map[], tags[arn], r);
    }
  }

  lemma ReceivedAppend(tags: map<string, TagDict>, requests: seq<TagRequest>, tags': map<string, TagDict>,
                       requests': seq<TagRequest>, tags'': map<string, TagDict>, requests'': seq<TagRequest>,
                       arn: string, s: seq<TagRequest>, t: seq<TagRequest>)
    requires Received(tags, requests, tags', requests', arn, s)
    requires Received(tags', requests', tags'', requests'', arn, t)
    ensures Received(tags, requests, tags'', requests'', arn, s + t)
  {
    if arn in tags {
      ReplayAppend(tags[arn], s, t);
    }
  }

  method AddTags(client: NetworkManagerClient, arn: string, tags: map<string, Option<string>>, ghost add: TagDict)
    returns (err: Option<Error>, ghost trace: seq<TagRequest>)
    requires client.Valid()
    requires tags.Keys == add.Keys && add != map[] && forall k :: k in add ==> tags[k] == Some(add[k])
    modifies client`tags, client`requests
    ensures client.Valid()
    ensures AddPhase(arn, add, trace)
    ensures Received(old(client.tags), old(client.requests), client.tags, client.requests, arn, trace)
    ensures (AllOk(trace) <==> err.None?) && err == LastError(trace)
    ensures err.Some? ==> FromSDK(err.value)
  {
    ghost var order;
    var sdkTags;
    sdkTags, order := ListTags(tags, add);
    err := client.TagResource(arn, sdkTags);
    trace := [SyncProtocol.TagResource(arn, sdkTags, err)];
    ReceivedOne(old(client.tags), old(client.requests), client.tags, client.requests, arn, trace[0]);
  }

  method RemoveTags(client: NetworkManagerClient, arn: string, tagKeys: seq<string>)
    returns (err: Option<Error>, ghost trace: seq<TagRequest>)
    requires client.Valid() && Distinct(tagKeys) && tagKeys != []
    modifies client`tags, client`requests
    ensures client.Valid()
    ensures RemovePhase(arn, KeySet(tagKeys), trace)
    ensures Received(old(client.tags), old(client.requests), client.tags, client.requests, arn, trace)
    ensures (AllOk(trace) <==> err.None?) && err == LastError(trace)
    ensures err.Some? ==> FromSDK(err.value)
  {
    EmptyTail(tagKeys);
    err := client.UntagResource(arn, tagKeys);
    trace := [SyncProtocol.UntagResource(arn, tagKeys, err)];
    ReceivedOne(old(client.tags), old(client.requests), client.tags, client.requests, arn, trace[0]);
  }

  /** The two maps have a value for every key that they share. */
  ghost predicate SharedPresent(p: map<string, Option<string>>, q: map<string, Option<string>>) {
    forall k :: k in p && k in q ==> p[k].Some? && q[k].Some?
  }

  /** The two loops that compute the diff; the first panics on a shared key with a nil value. */
  method Diff(desiredTags: map<string, Option<string>>, existingTags: map<string, Option<string>>)
    returns (panicked: bool, toAdd: map<string, Option<string>>, toDelete: seq<string>)
    ensures panicked <==> !SharedPresent(desiredTags, existingTags)
    ensures !panicked ==>
      && toAdd == (map k | k in desiredTags && (k !in existingTags || existingTags[k] != desiredTags[k]) :: desiredTags[k])
      && Enumerates(toDelete, existingTags.Keys - desiredTags.Keys)
  {
    panicked, toAdd, toDelete := false, map[], [];
    var pending := desiredTags.Keys;
    while pending != {}
      invariant pending <= desiredTags.Keys
      invariant forall k :: k in desiredTags && k in existingTags && k !in pending ==>
        desiredTags[k].Some? && existingTags[k].Some?
      invariant toAdd == map k | k in desiredTags && k !in pending
                                 && (k !in existingTags || existingTags[k] != desiredTags[k]) :: desiredTags[k]
      decreases pending
    {
      var k :| k in pending;
      if k in existingTags && (existingTags[k].None? || desiredTags[k].None?) {
        return true, toAdd, toDelete;
      }
      if k !in existingTags || existingTags[k].value != desiredTags[k].value {
        toAdd := toAdd[k := desiredTags[k]];
      }
      pending := pending - {k};
    }
    pending := existingTags.Keys;
    while pending != {}
      invariant pending <= existingTags.Keys
      invariant Enumerates(toDelete, existingTags.Keys - desiredTags.Keys - pending)
      decreases pending
    {
      var k :| k in pending;
      if k !in desiredTags {
        assert k !in KeySet(toDelete);
        assert KeySet(toDelete + [k]) == KeySet(toDelete) + {k};
        toDelete := toDelete + [k];
      }
      pending := pending - {k};
    }
  }

  /** The loop that logs what will be added; it panics on a nil value. */
  method LogAdditions(toAdd: map<string, Option<string>>) returns (panicked: bool)
    ensures panicked <==> exists k :: k in toAdd && toAdd[k].None?
  {
    var pending := toAdd.Keys;
    while pending != {}
      invariant pending <= toAdd.Keys
      invariant forall k :: k in toAdd && k !in pending ==> toAdd[k].Some?
      decreases pending
    {
      var k :| k in pending;
      if toAdd[k].None? {
        return true;
      }
      pending := pending - {k};
    }
    return false;
  }

  lemma AssembleAttempt(arn: string, desired: TagDict, existing: TagDict, s: seq<TagRequest>, t: seq<TagRequest>)
    requires AddPhase(arn, ToAdd(desired, existing), s)
    requires if AllOk(s) then RemovePhase(arn, ToDelete(desired, existing), t) else t == []
    ensures AllOk(s + t) <==> AllOk(s) && AllOk(t)
    ensures Attempt(arn, desired, existing, s + t, !AllOk(s + t))
  {
    assert (s + t)[..|s|] == s && (s + t)[|s|..] == t;
    assert forall i :: 0 <= i < |t| ==> (s + t)[|s| + i] == t[i];
    assert forall i :: 0 <= i < |s| ==> (s + t)[i] == s[i];
  }

  method AddIfAny(client: NetworkManagerClient, arn: string, toAdd: map<string, Option<string>>, ghost add: TagDict)
    returns (err: Option<Error>, ghost trace: seq<TagRequest>)
    requires client.Valid()
    requires toAdd.Keys == add.Keys && forall k :: k in add ==> toAdd[k] == Some(add[k])
    modifies client`tags, client`requests
    ensures client.Valid()
    ensures AddPhase(arn, add, trace)
    ensures Received(old(client.tags), old(client.requests), client.tags, client.requests, arn, trace)
    ensures (AllOk(trace) <==> err.None?) && err == LastError(trace)
    ensures err.Some? ==> FromSDK(err.value)
  {
    if |toAdd| > 0 {
      assert add.Keys != {};
      err, trace := AddTags(client, arn, toAdd, add);
    } else {
      assert add.Keys == {};
      err, trace := None, [];
    }
  }

  method RemoveIfAny(client: NetworkManagerClient, arn: string, toDelete: seq<string>)
    returns (err: Option<Error>, ghost trace: seq<TagRequest>)
    requires client.Valid() && Distinct(toDelete)
    modifies client`tags, client`requests
    ensures client.Valid()
    ensures RemovePhase(arn, KeySet(toDelete), trace)
    ensures Received(old(client.tags), old(client.requests), client.tags, client.requests, arn, trace)
    ensures (AllOk(trace) <==> err.None?) && err == LastError(trace)
    ensures err.Some? ==> FromSDK(err.value)
  {
    EmptyTail(toDelete);
    if |toDelete| > 0 {
      err, trace := RemoveTags(client, arn, toDelete);
    } else {
      err, trace := None, [];
    }
  }

  /** The pairs to add and the keys to delete are the diff of the two tag maps. */
  ghost predicate IsDiff(toAdd: map<string, Option<string>>, toDelete: seq<string>, desired: TagDict, existing: TagDict) {
    && toAdd.Keys == ToAdd(desired, existing).Keys
    && (forall k :: k in ToAdd(desired, existing) ==> toAdd[k] == Some(desired[k]))
    && Enumerates(toDelete, ToDelete(desired, existing))
  }

  /** The calls of SyncTags, once the diff is known. */
  method ApplyDiff(client: NetworkManagerClient, arn: string, toAdd: map<string, Option<string>>, toDelete: seq<string>,
                   ghost desired: TagDict, ghost existing: TagDict)
    returns (err: Option<Error>, ghost trace: seq<TagRequest>)
    requires client.Valid()
    requires IsDiff(toAdd, toDelete, desired, existing)
    modifies client`tags, client`requests
    ensures client.Valid()
    ensures Received(old(client.tags), old(client.requests), client.tags, client.requests, arn, trace)
    ensures Attempt(arn, desired, existing, trace, err.Some?) && err == LastError(trace)
    ensures err.Some? ==> FromSDK(err.value)
  {
    ghost var added, removed: seq<TagRequest> := [], [];
    err, added := AddIfAny(client, arn, toAdd, ToAdd(desired, existing));
    ghost var tags', requests' := client.tags, client.requests;
    if err != None {
      AssembleAttempt(arn, desired, existing, added, []);
      assert added + [] == added;
      trace := added;
      return;
    }
    err, removed := RemoveIfAny(client, arn, toDelete);
    AssembleAttempt(arn, desired, existing, added, removed);
    ReceivedAppend(old(client.tags), old(client.requests), tags', requests', client.tags, client.requests, arn,
                   added, removed);
    trace := added + removed;
  }

  /** The diff of the pointer maps is the diff of the tag maps, although those treat nil pointers differently. */
  lemma DiffOfPointers(a: TagList, b: TagList, p: map<string, Option<string>>, q: map<string, Option<string>>,
                       toAdd: map<string, Option<string>>)
    requires AllKeyed(a) && AllKeyed(b)
    requires p == Pointers(a) && q == Pointers(b)
    requires Present(p, q)
    requires toAdd == map k | k in p && (k !in q || q[k] != p[k]) :: p[k]
    ensures toAdd.Keys == ToAdd(TagMap(a), TagMap(b)).Keys
    ensures forall k :: k in ToAdd(TagMap(a), TagMap(b)) ==> toAdd[k] == Some(TagMap(a)[k])
    ensures q.Keys - p.Keys == ToDelete(TagMap(a), TagMap(b))
  {
    PointersAreTagMap(a);
    PointersAreTagMap(b);
  }

  /** The loops between the two maps and the first call. */
  method PlanMaps(desiredTags: map<string, Option<string>>, existingTags: map<string, Option<string>>)
    returns (panicked: bool, toAdd: map<string, Option<string>>, toDelete: seq<string>)
    ensures panicked <==> !Present(desiredTags, existingTags)
    ensures !panicked ==>
      && toAdd == (map k | k in desiredTags && (k !in existingTags || existingTags[k] != desiredTags[k]) :: desiredTags[k])
      && Enumerates(toDelete, existingTags.Keys - desiredTags.Keys)
  {
    panicked, toAdd, toDelete := Diff(desiredTags, existingTags);
    if !panicked {
      panicked := LogAdditions(toAdd);
      assert forall k :: k in desiredTags && desiredTags[k].None? ==> k in toAdd;
    }
  }

  /** Everything that SyncTags does before its first call, and every dereference in it. */
  method PlanDiff(aTags: array?<Tag?>, bTags: array?<Tag?>)
    returns (panicked: bool, toAdd: map<string, Option<string>>, toDelete: seq<string>)
    ensures panicked <==> !SafeToSync(old(TagSliceView(aTags)), old(TagSliceView(bTags)))
    ensures !panicked ==>
      IsDiff(toAdd, toDelete, TagMap(Listed(old(TagSliceView(aTags)))), TagMap(Listed(old(TagSliceView(bTags)))))
  {
    toAdd, toDelete := map[], [];
    ghost var a, b := TagSliceView(aTags), TagSliceView(bTags);
    var desiredTags, existingTags;
    panicked, desiredTags := CollectTags(aTags);
    assert TagSliceView(bTags) == b;
    if !panicked {
      panicked, existingTags := CollectTags(bTags);
      if !panicked {
        panicked, toAdd, toDelete := PlanMaps(desiredTags, existingTags);
        if !panicked {
          DiffOfPointers(Listed(a), Listed(b), desiredTags, existingTags, toAdd);
        }
      }
    }
  }

  /**
   SyncTags: what it sends is one attempt of the protocol, and its error says whether all of it succeeded.
   It panics exactly on tags that are not safe, and then has sent nothing.
   */
  method SyncTags(client: NetworkManagerClient, arn: string, aTags: array?<Tag?>, bTags: array?<Tag?>)
    returns (panicked: bool, err: Option<Error>, ghost trace: seq<TagRequest>)
    requires client.Valid()
    modifies client`tags, client`requests
    ensures client.Valid()
    ensures panicked <==> !SafeToSync(old(TagSliceView(aTags)), old(TagSliceView(bTags)))
    ensures Received(old(client.tags), old(client.requests), client.tags, client.requests, arn, trace)
    ensures panicked ==> trace == []
    ensures err == LastError(trace)
    ensures !panicked ==>
      Attempt(arn, TagMap(Listed(old(TagSliceView(aTags)))), TagMap(Listed(old(TagSliceView(bTags)))), trace, err.Some?)
    ensures err.Some? ==> FromSDK(err.value)
  {
    err, trace := None, [];
    ghost var a, b := TagSliceView(aTags), TagSliceView(bTags);
    var toAdd, toDelete;
    panicked, toAdd, toDelete := PlanDiff(aTags, bTags);
    if !panicked {
      ghost var desired, existing := TagMap(Listed(a)), TagMap(Listed(b));
      err, trace := ApplyDiff(client, arn, toAdd, toDelete, desired, existing);
    }
  }
}
