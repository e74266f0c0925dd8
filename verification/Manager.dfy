/** ReadOne, Create, Update and Delete of manager.go. */
module Manager {
  import opened Wrappers
  import opened Errors
  import opened TagLists
  import opened TagRules
  import opened Api
  import opened TagManager
  import opened SyncProtocol
  import opened Client
  import opened Delta
  import opened Sdk
  import opened ConditionRules
  import opened Conditions
  import opened Lifecycle

  /** The CR that a call returns with a given outcome. */
  ghost function WithOutcome(n: NetworkValue, rm: ManagerValue, outcome: Option<Error>): NetworkValue
    requires NoNil(n.conditions)
  {
    WithConds(WithDefaults(n, rm), Updated(Conds(n), outcome))
  }

  /** A success that changes no condition leaves the list as it is. */
  lemma UnreportedSuccess(n: NetworkValue, rm: ManagerValue)
    requires NoNil(n.conditions) && !Reported(Updated(Conds(n), None))
    ensures WithOutcome(n, rm, None) == WithDefaults(n, rm)
  {
    StepHas(Conds(n), None);
    if n.conditions.Some? {
      assert Slots(Conds(n)).value == n.conditions.value;
    } else {
      assert Slots(Conds(n)).value == [];
    }
  }

  lemma DefaultsIdempotent(n: NetworkValue, rm: ManagerValue)
    ensures WithDefaults(WithDefaults(n, rm), rm) == WithDefaults(n, rm)
  {
  }

  /** onSuccess of a CR whose status defaults are set. */
  method Succeed(rm: ResourceManager, r: Resource) returns (res: Resource)
    requires r.ko != null && NoNil(r.ko.View().conditions)
    requires r.ko.View() == WithDefaults(r.ko.View(), rm.View())
    ensures res.ko != null && res.ko.View() == WithOutcome(old(r.ko.View()), old(rm.View()), None)
    ensures res == r || fresh(res)
  {
    ghost var view, rmView := r.ko.View(), rm.View();
    if !Reported(Updated(Conds(view), None)) {
      UnreportedSuccess(view, rmView);
    }
    res := OnSuccess(rm, r);
  }

  /* ---- ReadOne ---- */

  /** What ReadOne returns and what it does to its input, for the answer of sdkFind. */
  ghost predicate ReadResult(before: NetworkValue, after: NetworkValue, rm: ManagerValue, e: Element, found: Option<Error>,
                             res: NetworkValue, err: Option<Error>)
    requires NoNil(before.conditions) && (found.None? ==> NoNil(before.tags))
  {
    if found.Some? then
      && after == before
      && res == WithOutcome(before, rm, found)
      && err == Some(ReturnedError(Updated(Conds(before), found), found.value))
    else
      && err == None
      && res == WithOutcome(WithDefaults(Observed(before, e), rm), rm, None)
      && NoNil(TagField(e.tags))
      && exists tail :: Enumerates(tail, WithAWS(TagMap(Listed(before.tags)), TagMap(Listed(TagField(e.tags)))).Keys
                                         - KeySet(KeyOrder(Listed(before.tags))))
           && after == before.(tags := Slots(Mirrored(Listed(before.tags), Listed(TagField(e.tags)), tail)))
  }

  /** Writing to one CR changes no other. */
  twostate lemma NetworkApart(n: GlobalNetwork, new other: GlobalNetwork)
    requires n != other && forall o: object {:trigger Named(o)} :: old(allocated(o)) && o != other ==> unchanged(o)
    ensures n.View() == old(n.View())
  {
    forall o | o in old(Parts(n)) ensures unchanged(o) {
      assert Named(o) && o != other;
    }
    WritesElsewhere(n);
  }

  method MirrorObserved(rm: ResourceManager, r: Resource, observed: Resource) returns (ghost tail: seq<string>)
    requires r.ko != null && observed.ko != null && r.ko != observed.ko
    requires NoNil(r.ko.View().tags) && NoNil(observed.ko.View().tags)
    modifies r.ko
    ensures rm.View() == old(rm.View()) && observed.ko.View() == old(observed.ko.View())
    ensures var ts, us := Listed(old(r.ko.View()).tags), Listed(old(observed.ko.View()).tags);
      && Enumerates(tail, WithAWS(TagMap(ts), TagMap(us)).Keys - KeySet(KeyOrder(ts)))
      && r.ko.View() == old(r.ko.View()).(tags := Slots(Mirrored(ts, us, tail)))
  {
    tail := MirrorAWSTags(r, observed);
    NetworkApart(observed.ko, r.ko);
  }

  /** Whether convertToOrderedACKTags panics on a slice: it dereferences every slot. */
  method AnyNilSlot(tags: array?<Tag?>) returns (found: bool)
    ensures found <==> !NoNil(old(TagSliceView(tags)))
  {
    if tags == null {
      return false;
    }
    ghost var slots := TagSliceView(tags).value;
    for i := 0 to tags.Length
      invariant forall j :: 0 <= j < i ==> slots[j].Some?
    {
      assert SlotView(tags[i]) == slots[i];
      if tags[i] == null {
        return true;
      }
    }
    return false;
  }

  method AnyNilTag(rm: ResourceManager, r: Resource) returns (found: bool)
    requires r.ko != null
    ensures found <==> !NoNil(r.ko.View().tags)
    ensures r.ko.View() == old(r.ko.View()) && rm.View() == old(rm.View())
  {
    found := AnyNilSlot(r.ko.tags);
    ViewKept(r.ko);
  }

  /** sdkFind followed by mirrorAWSTags, which panics if it meets a nil slot. */
  method FindAndMirror(rm: ResourceManager, r: Resource)
    returns (panicked: bool, observed: Resource?, found: Option<Error>, ghost e: Element, ghost asked: seq<NetworkCall>)
    requires r.ko != null && rm.sdkapi.Valid()
    modifies r.ko, rm.sdkapi`calls
    ensures rm.sdkapi.Valid() && rm.sdkapi.calls == old(rm.sdkapi.calls) + asked
    ensures rm.View() == old(rm.View())
    ensures ReadAnswer(old(r.ko.View()).globalNetworkID, asked, found) && (found.None? ==> e == asked[0].found[0])
    ensures !ReadFailed(asked) ==>
      && (found.None? || found == Some(NotFound))
      && (found == Some(NotFound)
          <==> old(r.ko.View()).globalNetworkID.None? || old(r.ko.View()).globalNetworkID.value !in rm.sdkapi.networks)
    ensures panicked <==> found.None? && !NoNil(old(r.ko.View()).tags)
    ensures panicked ==> r.ko.View() == old(r.ko.View())
    ensures found.Some? <==> observed == null
    ensures found.Some? ==> r.ko.View() == old(r.ko.View()) && (found == Some(NotFound) || FromSDK(found.value))
    ensures old(r.ko.View()).globalNetworkID.None? ==> found == Some(NotFound)
    ensures found == Some(NotFound) ==>
      old(r.ko.View()).globalNetworkID.None? || old(r.ko.View()).globalNetworkID.value !in rm.sdkapi.networks
    ensures found.None? ==> FoundInBackend(rm.sdkapi, old(r.ko.View()).globalNetworkID, e)
    ensures observed != null && !panicked ==>
      && observed.ko != null && (NoNil(old(r.ko.View()).conditions) ==> NoNil(observed.ko.View().conditions))
      && observed.ko.View() == WithDefaults(Observed(old(r.ko.View()), e), old(rm.View()))
      && NoNil(TagField(e.tags))
      && exists tail :: Enumerates(tail, WithAWS(TagMap(Listed(old(r.ko.View()).tags)), TagMap(Listed(TagField(e.tags)))).Keys
                                         - KeySet(KeyOrder(Listed(old(r.ko.View()).tags))))
           && r.ko.View() == old(r.ko.View()).(tags :=
                Slots(Mirrored(Listed(old(r.ko.View()).tags), Listed(TagField(e.tags)), tail)))
  {
    ghost var before := r.ko.View();
    var nilTag := AnyNilTag(rm, r);
    observed, found, e, asked := SdkFind(rm, r);
    panicked := observed != null && nilTag;
    if observed != null && !nilTag {
      ghost var tail := MirrorObserved(rm, r, observed);
      assert Enumerates(tail, WithAWS(TagMap(Listed(before.tags)), TagMap(Listed(TagField(e.tags)))).Keys
                              - KeySet(KeyOrder(Listed(before.tags))));
    }
  }

  /** How a call ends that failed: with onError of the CR it was given. */
  ghost predicate Failed(given: NetworkValue, rm: ManagerValue, failure: Error, res: NetworkValue, err: Option<Error>)
    requires NoNil(given.conditions)
  {
    && res == WithOutcome(given, rm, Some(failure))
    && err == Some(ReturnedError(Updated(Conds(given), Some(failure)), failure))
  }

  /** How a call ends: with onError of the CR it was given, or with onSuccess of what it observed. */
  ghost predicate Concluded(given: NetworkValue, observed: NetworkValue, rm: ManagerValue, failure: Option<Error>,
                            res: NetworkValue, err: Option<Error>)
    requires NoNil(given.conditions) && NoNil(observed.conditions)
  {
    if failure.Some? then Failed(given, rm, failure.value, res, err)
    else res == WithOutcome(observed, rm, None) && err == None
  }

  method Fail(rm: ResourceManager, r: Resource, failure: Error) returns (res: Resource, err: Option<Error>)
    requires r.ko != null && NoNil(r.ko.View().conditions)
    ensures res.ko != null && Failed(old(r.ko.View()), old(rm.View()), failure, res.ko.View(), err)
  {
    var e;
    res, e := OnError(rm, r, failure);
    err := Some(e);
  }

  method Finish(rm: ResourceManager, r: Resource, observed: Resource?, failure: Option<Error>, ghost seen: NetworkValue)
    returns (res: Resource, err: Option<Error>)
    requires r.ko != null && NoNil(r.ko.View().conditions) && NoNil(seen.conditions)
    requires failure.None? ==>
      observed != null && observed.ko != null && observed.ko.View() == seen == WithDefaults(seen, rm.View())
    ensures res.ko != null && Concluded(old(r.ko.View()), seen, old(rm.View()), failure, res.ko.View(), err)
  {
    if failure.Some? {
      res, err := Fail(rm, r, failure.value);
    } else {
      res := Succeed(rm, observed);
      err := None;
    }
  }

  /** Finishing allocates only: the CR that the call was given stays as it is. */
  method Conclude(rm: ResourceManager, r: Resource, observed: Resource?, failure: Option<Error>, ghost seen: NetworkValue)
    returns (res: Resource, err: Option<Error>)
    requires r.ko != null && NoNil(r.ko.View().conditions) && NoNil(seen.conditions)
    requires failure.None? ==>
      observed != null && observed.ko != null && observed.ko.View() == seen == WithDefaults(seen, rm.View())
    ensures r.ko.View() == old(r.ko.View())
    ensures res.ko != null && Concluded(old(r.ko.View()), seen, old(rm.View()), failure, res.ko.View(), err)
  {
    res, err := Finish(rm, r, observed, failure, seen);
    ViewKept(r.ko);
  }

  method ReadOne(rm: ResourceManager, r: Resource)
    returns (panicked: bool, res: Resource?, err: Option<Error>, found: Option<Error>, ghost e: Element,
             ghost asked: seq<NetworkCall>)
    requires r.ko != null && rm.sdkapi.Valid() && NoNil(r.ko.View().conditions)
    modifies r.ko, rm.sdkapi`calls
    ensures rm.sdkapi.Valid() && rm.sdkapi.calls == old(rm.sdkapi.calls) + asked
    ensures ReadAnswer(old(r.ko.View()).globalNetworkID, asked, found) && (found.None? ==> e == asked[0].found[0])
    ensures panicked <==> found.None? && !NoNil(old(r.ko.View()).tags)
    ensures panicked ==> r.ko.View() == old(r.ko.View())
    ensures !panicked ==>
      && res != null && res.ko != null
      && ReadResult(old(r.ko.View()), r.ko.View(), old(rm.View()), e, found, res.ko.View(), err)
      && ReadStep(rm.sdkapi.networks.Keys, old(r.ko.View()).globalNetworkID, res.ko.View().globalNetworkID, err,
                  !ReadFailed(asked) && !StaleTerminal(Conds(old(r.ko.View()))))
    ensures found.None? ==> FoundInBackend(rm.sdkapi, old(r.ko.View()).globalNetworkID, e)
    ensures old(r.ko.View()).globalNetworkID.None? ==> found == Some(NotFound)
    ensures found == Some(NotFound) ==>
      old(r.ko.View()).globalNetworkID.None? || old(r.ko.View()).globalNetworkID.value !in rm.sdkapi.networks
    ensures found.Some? ==> found == Some(NotFound) || FromSDK(found.value)
  {
    ghost var before, rmView := r.ko.View(), rm.View();
    res, err := null, None;
    var observed: Resource?;
    panicked, observed, found, e, asked := FindAndMirror(rm, r);
    if panicked {
      return;
    }
    DefaultsIdempotent(Observed(before, e), rmView);
    NotFoundShows(Conds(before));
    res, err := Conclude(rm, r, observed, found, WithDefaults(Observed(before, e), rmView));
  }

  /** onError hands NotFound on unless a second Terminal condition was left True. */
  lemma NotFoundShows(cs: ConditionRules.Conditions)
    ensures !StaleTerminal(cs) ==> ReturnedError(Updated(cs, Some(NotFound)), NotFound) == NotFound
  {
    OnErrorClassifies(cs, NotFound);
  }

  /* ---- Create ---- */

  method Create(rm: ResourceManager, r: Resource) returns (res: Resource, err: Option<Error>, failure: Option<Error>, e: Element)
    requires r.ko != null && rm.sdkapi.Valid()
    requires NoNil(r.ko.View().tags) && NoNil(r.ko.View().conditions)
    modifies rm.sdkapi
    ensures rm.sdkapi.Valid() && res.ko != null
    ensures rm.sdkapi.calls == old(rm.sdkapi.calls)
      + [CreateCall(old(r.ko.View()).description, RequestTags(old(r.ko.View()).tags), e, failure)]
    ensures Concluded(old(r.ko.View()), WithDefaults(Observed(old(r.ko.View()), e), old(rm.View())), old(rm.View()),
                      failure, res.ko.View(), err)
    ensures CreateStep(old(rm.sdkapi.networks).Keys, rm.sdkapi.networks.Keys, old(rm.sdkapi.issued), rm.sdkapi.issued,
                       old(r.ko.View()).globalNetworkID, res.ko.View().globalNetworkID, err)
    ensures failure.None? ==>
      Created(e, old(r.ko.View()).description, RequestTags(old(r.ko.View()).tags),
              old(rm.sdkapi.networks), rm.sdkapi.networks, old(rm.sdkapi.tags), rm.sdkapi.tags,
              old(rm.sdkapi.issued), rm.sdkapi.issued)
  {
    ghost var before, rmView := r.ko.View(), rm.View();
    var created;
    created, failure, e := SdkCreate(rm, r);
    DefaultsIdempotent(Observed(before, e), rmView);
    res, err := Finish(rm, r, created, failure, WithDefaults(Observed(before, e), rmView));
  }

  /* ---- Update ---- */

  /** onSuccess of any CR: one without managed conditions is returned as it is, status defaults included. */
  ghost predicate Succeeded(n: NetworkValue, rm: ManagerValue, res: NetworkValue)
    requires NoNil(n.conditions)
  {
    res == if Reported(Updated(Conds(n), None)) then WithOutcome(n, rm, None) else n
  }

  method FinishUpdate(rm: ResourceManager, updated: Resource?, latest: Resource, failure: Option<Error>)
    returns (res: Resource, err: Option<Error>)
    requires latest.ko != null && NoNil(latest.ko.View().conditions)
    requires failure.None? ==> updated != null && updated.ko != null && NoNil(updated.ko.View().conditions)
    ensures res.ko != null
    ensures failure.Some? ==> Failed(old(latest.ko.View()), old(rm.View()), failure.value, res.ko.View(), err)
    ensures failure.None? ==> err == None && Succeeded(old(updated.ko.View()), old(rm.View()), res.ko.View())
  {
    if failure.Some? {
      res, err := Fail(rm, latest, failure.value);
    } else {
      res := OnSuccess(rm, updated);
      err := None;
    }
  }

  /** The CR that a successful sdkUpdate hands on: the desired one, or its copy with the response merged in. */
  ghost function UpdatedCR(desired: NetworkValue, paths: seq<string>, e: Element, rm: ManagerValue): NetworkValue {
    if OnlyTagsDiffer(paths) then desired else WithDefaults(Observed(desired, e), rm)
  }

  method CallSdkUpdate(rm: ResourceManager, desired: Resource, latest: Resource, delta: Delta)
    returns (updated: Resource?, failure: Option<Error>, ghost trace: seq<TagRequest>, ghost sent: seq<NetworkCall>, e: Element)
    requires desired.ko != null && latest.ko != null && rm.sdkapi.Valid()
    requires SafeToUpdate(desired.ko.View(), latest.ko.View(), delta.paths)
    modifies rm.sdkapi`networks, rm.sdkapi`tags, rm.sdkapi`requests, rm.sdkapi`calls
    ensures rm.sdkapi.requests == old(rm.sdkapi.requests) + trace && rm.sdkapi.calls == old(rm.sdkapi.calls) + sent
    ensures rm.sdkapi.Valid()
    ensures latest.ko.View() == old(latest.ko.View()) && rm.View() == old(rm.View())
    ensures TagsUpdated(old(desired.ko.View()), old(latest.ko.View()), old(delta.paths), trace,
                        old(rm.sdkapi.tags), rm.sdkapi.tags)
    ensures NetworkUpdated(old(desired.ko.View()), old(delta.paths), trace, sent, failure,
                           old(rm.sdkapi.networks), rm.sdkapi.networks)
    ensures failure.Some? ==> FromSDK(failure.value)
    ensures failure.None? ==>
      && updated != null && updated.ko != null
      && updated.ko.View() == UpdatedCR(old(desired.ko.View()), old(delta.paths), e, old(rm.View()))
      && (OnlyTagsDiffer(old(delta.paths)) || FoundInBackend(rm.sdkapi, old(desired.ko.View()).globalNetworkID, e))
  {
    updated, failure, trace, sent, e := SdkUpdate(rm, desired, latest, delta);
    ClientApart(latest.ko, rm.sdkapi);
  }

  method Update(rm: ResourceManager, desired: Resource, latest: Resource, delta: Delta)
    returns (res: Resource, err: Option<Error>, failure: Option<Error>, ghost trace: seq<TagRequest>,
             ghost sent: seq<NetworkCall>, e: Element)
    requires desired.ko != null && latest.ko != null && rm.sdkapi.Valid()
    requires SafeToUpdate(desired.ko.View(), latest.ko.View(), delta.paths)
    requires NoNil(desired.ko.View().conditions) && NoNil(latest.ko.View().conditions)
    modifies rm.sdkapi`networks, rm.sdkapi`tags, rm.sdkapi`requests, rm.sdkapi`calls
    ensures rm.sdkapi.requests == old(rm.sdkapi.requests) + trace && rm.sdkapi.calls == old(rm.sdkapi.calls) + sent
    ensures rm.sdkapi.Valid() && res.ko != null
    ensures TagsUpdated(old(desired.ko.View()), old(latest.ko.View()), old(delta.paths), trace,
                        old(rm.sdkapi.tags), rm.sdkapi.tags)
    ensures NetworkUpdated(old(desired.ko.View()), old(delta.paths), trace, sent, failure,
                           old(rm.sdkapi.networks), rm.sdkapi.networks)
    ensures failure.Some? ==> Failed(old(latest.ko.View()), old(rm.View()), failure.value, res.ko.View(), err)
    ensures failure.None? ==>
      && err == None
      && Succeeded(UpdatedCR(old(desired.ko.View()), old(delta.paths), e, old(rm.View())), old(rm.View()), res.ko.View())
    ensures failure.None? && !OnlyTagsDiffer(old(delta.paths)) ==>
      FoundInBackend(rm.sdkapi, old(desired.ko.View()).globalNetworkID, e)
    ensures UpdateStep(old(rm.sdkapi.networks).Keys, rm.sdkapi.networks.Keys, old(desired.ko.View()).globalNetworkID,
                       old(latest.ko.View()).globalNetworkID, res.ko.View().globalNetworkID, err)
  {
    var updated;
    updated, failure, trace, sent, e := CallSdkUpdate(rm, desired, latest, delta);
    res, err := FinishUpdate(rm, updated, latest, failure);
  }

  /* ---- Delete ---- */

  method CallSdkDelete(rm: ResourceManager, r: Resource) returns (observed: Resource?, failure: Option<Error>)
    requires r.ko != null && rm.sdkapi.Valid()
    modifies rm.sdkapi`networks, rm.sdkapi`calls
    ensures rm.sdkapi.calls == old(rm.sdkapi.calls) + [DeleteCall(old(r.ko.View()).globalNetworkID, failure)]
    ensures rm.sdkapi.Valid() && observed == null
    ensures r.ko.View() == old(r.ko.View()) && rm.View() == old(rm.View())
    ensures failure.Some? ==> FromSDK(failure.value) && rm.sdkapi.networks == old(rm.sdkapi.networks)
    ensures failure.None? ==>
      && old(r.ko.View()).globalNetworkID.Some?
      && rm.sdkapi.networks == old(rm.sdkapi.networks) - {old(r.ko.View()).globalNetworkID.value}
  {
    observed, failure := SdkDelete(rm, r);
    ClientApart(r.ko, rm.sdkapi);
  }

  method Delete(rm: ResourceManager, r: Resource) returns (res: Resource?, err: Option<Error>, failure: Option<Error>)
    requires r.ko != null && rm.sdkapi.Valid() && NoNil(r.ko.View().conditions)
    modifies rm.sdkapi`networks, rm.sdkapi`calls
    ensures rm.sdkapi.calls == old(rm.sdkapi.calls) + [DeleteCall(old(r.ko.View()).globalNetworkID, failure)]
    ensures rm.sdkapi.Valid() && (res != null ==> res.ko != null)
    ensures failure.None? ==> res == null && err == None
    ensures failure.Some? ==>
      res != null && Failed(old(r.ko.View()), old(rm.View()), failure.value, res.ko.View(), err)
    ensures DeleteStep(old(rm.sdkapi.networks).Keys, rm.sdkapi.networks.Keys, old(r.ko.View()).globalNetworkID,
                       if res == null then None else Some(res.ko.View().globalNetworkID), err)
  {
    var observed;
    observed, failure := CallSdkDelete(rm, r);
    if failure.Some? {
      res, err := Fail(rm, r, failure.value);
    } else {
      res := OnSuccess(rm, observed);
      err := None;
    }
  }
}
