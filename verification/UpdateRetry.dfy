/**
 Sequences of update rounds: read the network, compute the delta to the desired CR, update. Any of the
 calls in a round may fail: the read, TagResource, UntagResource or UpdateGlobalNetwork. Nobody else
 writes to the network in between.
 */
module UpdateRetry {
  import opened Wrappers
  import opened Errors
  import opened TagLists
  import opened TagRules
  import opened Api
  import opened SyncProtocol
  import opened SyncRetry
  import opened Client
  import opened SyncTags
  import opened Delta
  import opened Sdk
  import opened UpdateFixpoint
  import opened Manager

  datatype World = World(networks: map<string, Network>, tags: map<string, TagDict>)

  ghost function WorldOf(client: NetworkManagerClient): World
    reads client
  {
    World(client.networks, client.tags)
  }

  /**
   A round: the CR that was read into and the response, unless the read failed; the calls of the read, the
   tag requests and the other calls of the update; the error.
   */
  datatype Round = Round(read: Option<(NetworkValue, Element)>, asked: seq<NetworkCall>, trace: seq<TagRequest>,
                         sent: seq<NetworkCall>, err: Option<Error>)

  /** Every call of the round succeeded. */
  ghost predicate NoCallFails(round: Round) {
    && (forall i :: 0 <= i < |round.asked| ==> round.asked[i].err.None?)
    && AllOk(round.trace)
    && forall i :: 0 <= i < |round.sent| ==> round.sent[i].err.None?
  }

  /** The desired CR has an ID and an ARN, and tags that SyncTags can take as desired ones. */
  ghost predicate Fit(desired: NetworkValue) {
    && desired.globalNetworkID.Some? && HasARN(desired)
    && Keyed(desired.tags) && forall k :: k in Pointers(Listed(desired.tags)) ==> Pointers(Listed(desired.tags))[k].Some?
  }

  ghost function Wanted(desired: NetworkValue): TagDict
    requires Fit(desired)
  {
    TagMap(Listed(desired.tags))
  }

  ghost function ID(desired: NetworkValue): string
    requires Fit(desired)
  {
    desired.globalNetworkID.value
  }

  ghost function ARN(desired: NetworkValue): string
    requires Fit(desired)
  {
    desired.metadata.value.arn.value
  }

  /** The network is there, under the ARN that the desired CR has. */
  ghost predicate There(desired: NetworkValue, w: World)
    requires Fit(desired)
  {
    ID(desired) in w.networks && w.networks[ID(desired)].arn == ARN(desired) && ARN(desired) in w.tags
  }

  ghost function TagsIn(desired: NetworkValue, w: World): TagDict
    requires Fit(desired) && There(desired, w)
  {
    w.tags[ARN(desired)]
  }

  ghost function DescriptionIn(desired: NetworkValue, w: World): Option<string>
    requires Fit(desired) && There(desired, w)
  {
    w.networks[ID(desired)].description
  }

  /** What a successful read of the round returned. */
  ghost function Latest(round: Round, rm: ManagerValue): NetworkValue
    requires round.read.Some?
  {
    WithDefaults(Observed(round.read.value.0, round.read.value.1), rm)
  }

  /** Reported tags are safe to compare with fit ones, so no round panics. */
  lemma ReportedIsSafe(desired: NetworkValue, e: Element, id: string, n: Network, tags: TagDict)
    requires Fit(desired) && Reports(e, id, n, tags)
    ensures NoNil(TagField(e.tags)) && SafeToSync(desired.tags, TagField(e.tags))
    ensures TagMap(Listed(TagField(e.tags))) == tags
  {
    ReportedTags(e, id, n, tags);
    if e.tags.Some? {
      var order :| Enumerates(order, tags.Keys) && e.tags.value == Entries(tags, order);
      ListedSlots(e.tags.value);
      EntriesRoundTrip(tags, order);
      AllValuedPointers(e.tags.value);
    }
  }

  /** What a read returns is always safe to update from. */
  lemma RoundIsSafe(desired: NetworkValue, rm: ManagerValue, w: World, n: NetworkValue, e: Element)
    requires Fit(desired) && There(desired, w) && Reports(e, ID(desired), w.networks[ID(desired)], TagsIn(desired, w))
    ensures var latest := WithDefaults(Observed(n, e), rm);
      NoNil(latest.tags) && SafeToUpdate(desired, latest, DeltaPaths(desired, latest))
  {
    ReportedIsSafe(desired, e, ID(desired), w.networks[ID(desired)], TagsIn(desired, w));
  }

  /** The tags that EnsureTags and mirrorAWSTags leave in a CR are fit. */
  lemma MirroredIsFit(n: NetworkValue, desired: TagList, latest: TagList, tail: seq<string>)
    requires Enumerates(tail, WithAWS(TagMap(desired), TagMap(latest)).Keys - KeySet(KeyOrder(desired)))
    requires n.globalNetworkID.Some? && HasARN(n) && n.tags == Slots(Mirrored(desired, latest, tail))
    ensures Fit(n)
  {
    MirroredMap(desired, latest, tail);
    ListedSlots(Mirrored(desired, latest, tail));
    AllValuedPointers(Mirrored(desired, latest, tail));
  }

  /** The CR that Create returns is fit and names the new network, which has the description and tags asked for. */
  lemma CreateLeavesFit(given: NetworkValue, rm: ManagerValue, e: Element, networks: map<string, Network>, w: World,
                        tags: map<string, TagDict>, issued: set<string>, issued': set<string>, res: NetworkValue)
    requires NoNil(given.tags) && NoNil(given.conditions) && NoNil(WithDefaults(Observed(given, e), rm).conditions)
    requires Created(e, given.description, RequestTags(given.tags), networks, w.networks, tags, w.tags, issued, issued')
    requires Concluded(given, WithDefaults(Observed(given, e), rm), rm, None, res, None)
    ensures Fit(res) && There(res, w) && Settled(res, w)
    ensures DescriptionIn(res, w) == given.description && TagsIn(res, w) == TagMap(Listed(given.tags))
  {
    ReportedIsFit(e, e.id.value, w.networks[e.id.value], TagMap(RequestTags(given.tags).GetOr([])));
    MergedCarries(given, rm, e, e.id.value, w.networks[e.id.value], TagMap(RequestTags(given.tags).GetOr([])));
  }

  lemma ReportedIsFit(e: Element, id: string, n: Network, tags: TagDict)
    requires Reports(e, id, n, tags)
    ensures Keyed(TagField(e.tags))
    ensures forall k :: k in Pointers(Listed(TagField(e.tags))) ==> Pointers(Listed(TagField(e.tags)))[k].Some?
  {
    if e.tags.Some? {
      var order :| Enumerates(order, tags.Keys) && e.tags.value == Entries(tags, order);
      ListedSlots(e.tags.value);
      EntriesRoundTrip(tags, order);
      AllValuedPointers(e.tags.value);
    }
  }

  /**
   So is the CR that ReadOne returns, and so is the CR that has the mirrored spec and the status that was
   read, with which an update is called: what UpdateRound needs comes from the steps before it.
   */
  lemma ReadLeavesFit(before: NetworkValue, after: NetworkValue, rm: ManagerValue, e: Element, res: NetworkValue, w: World)
    requires NoNil(before.tags) && NoNil(before.conditions) && ReadResult(before, after, rm, e, None, res, None)
    requires var id := before.globalNetworkID;
      id.Some? && id.value in w.networks && w.networks[id.value].arn in w.tags
      && Reports(e, id.value, w.networks[id.value], w.tags[w.networks[id.value].arn])
    ensures Fit(res) && There(res, w) && Settled(res, w)
    ensures var desired := after.(metadata := res.metadata, globalNetworkID := res.globalNetworkID);
      Fit(desired) && There(desired, w)
    ensures before.metadata.Some? && before.metadata.value.arn == res.metadata.value.arn ==>
      Fit(after) && There(after, w)
  {
    var id := before.globalNetworkID.value;
    ReportedIsFit(e, id, w.networks[id], w.tags[w.networks[id].arn]);
    MergedCarries(before, rm, e, id, w.networks[id], w.tags[w.networks[id].arn]);
    var ts, us := Listed(before.tags), Listed(TagField(e.tags));
    var tail :| Enumerates(tail, WithAWS(TagMap(ts), TagMap(us)).Keys - KeySet(KeyOrder(ts)))
                && after == before.(tags := Slots(Mirrored(ts, us, tail)));
    var desired := after.(metadata := res.metadata, globalNetworkID := res.globalNetworkID);
    MirroredIsFit(desired, ts, us, tail);
    if before.metadata.Some? && before.metadata.value.arn == res.metadata.value.arn {
      MirroredIsFit(after, ts, us, tail);
    }
  }

  ghost predicate Step(desired: NetworkValue, rm: ManagerValue, w: World, round: Round, w': World)
    requires Fit(desired) && There(desired, w)
  {
    && |round.asked| == 1 && round.asked[0].DescribeCall? && round.asked[0].ids == [ID(desired)]
    && if round.read.None? then
      round.trace == [] && round.sent == [] && round.err.Some? && round.err == round.asked[0].err && w' == w
    else
      var e := round.read.value.1;
      && round.asked[0].err.None? && round.asked[0].found != [] && round.asked[0].found[0] == e
      && Reports(e, ID(desired), w.networks[ID(desired)], TagsIn(desired, w))
      && NoNil(Latest(round, rm).tags) && SafeToUpdate(desired, Latest(round, rm), DeltaPaths(desired, Latest(round, rm)))
      && TagsUpdated(desired, Latest(round, rm), DeltaPaths(desired, Latest(round, rm)), round.trace, w.tags, w'.tags)
      && NetworkUpdated(desired, DeltaPaths(desired, Latest(round, rm)), round.trace, round.sent, round.err, w.networks, w'.networks)
  }

  /** A round as the code runs it: sdkFind, newResourceDelta, sdkUpdate. */
  method UpdateRound(rm: ResourceManager, desired: Resource) returns (ghost round: Round)
    requires desired.ko != null && rm.sdkapi.Valid()
    requires Fit(desired.ko.View()) && There(desired.ko.View(), WorldOf(rm.sdkapi))
    modifies rm.sdkapi`networks, rm.sdkapi`tags, rm.sdkapi`requests, rm.sdkapi`calls
    ensures rm.sdkapi.Valid()
    ensures rm.sdkapi.calls == old(rm.sdkapi.calls) + round.asked + round.sent
    ensures rm.sdkapi.requests == old(rm.sdkapi.requests) + round.trace
    ensures desired.ko.View() == old(desired.ko.View()) && rm.View() == old(rm.View())
    ensures Step(desired.ko.View(), rm.View(), old(WorldOf(rm.sdkapi)), round, WorldOf(rm.sdkapi))
  {
    ghost var view, rmView, w := desired.ko.View(), rm.View(), WorldOf(rm.sdkapi);
    var latest, err, e, asked := SdkFind(rm, desired);
    if err.Some? {
      round := Round(None, asked, [], [], err);
      return;
    }
    RoundIsSafe(view, rmView, w, view, e);
    round := Update(rm, desired, latest, view, rmView, e, asked);
  }

  method Update(rm: ResourceManager, desired: Resource, latest: Resource, ghost n: NetworkValue, ghost rmView: ManagerValue,
                ghost e: Element, ghost asked: seq<NetworkCall>)
    returns (ghost round: Round)
    requires desired.ko != null && latest.ko != null && rm.sdkapi.Valid() && rm.View() == rmView
    requires Fit(desired.ko.View()) && There(desired.ko.View(), WorldOf(rm.sdkapi))
    requires latest.ko.View() == WithDefaults(Observed(n, e), rmView) && NoNil(latest.ko.View().tags)
    requires SafeToUpdate(desired.ko.View(), latest.ko.View(), DeltaPaths(desired.ko.View(), latest.ko.View()))
    requires FoundInBackend(rm.sdkapi, desired.ko.View().globalNetworkID, e)
    requires ReadAnswer(desired.ko.View().globalNetworkID, asked, None) && asked[0].found[0] == e
    modifies rm.sdkapi`networks, rm.sdkapi`tags, rm.sdkapi`requests, rm.sdkapi`calls
    ensures rm.sdkapi.Valid() && round.asked == asked && rm.sdkapi.calls == old(rm.sdkapi.calls) + round.sent
    ensures rm.sdkapi.requests == old(rm.sdkapi.requests) + round.trace
    ensures desired.ko.View() == old(desired.ko.View()) && rm.View() == old(rm.View())
    ensures Step(desired.ko.View(), rm.View(), old(WorldOf(rm.sdkapi)), round, WorldOf(rm.sdkapi))
  {
    ghost var view, latestView := desired.ko.View(), latest.ko.View();
    var delta := NewResourceDelta(desired, latest);
    ViewKept(desired.ko);
    ViewKept(latest.ko);
    var updated, err, trace, sent, _ := SdkUpdate(rm, desired, latest, delta);
    round := Round(Some((n, e)), asked, trace, sent, err);
  }

  /* ---- One round ---- */

  /** In a round that reads, the delta compares the desired CR with the network as it is. */
  lemma ReadSeesWorld(desired: NetworkValue, rm: ManagerValue, w: World, round: Round, w': World)
    requires Fit(desired) && There(desired, w) && Step(desired, rm, w, round, w') && round.read.Some?
    ensures DeltaPaths(desired, Latest(round, rm))
         == Paths(desired.description != DescriptionIn(desired, w), Wanted(desired) != TagsIn(desired, w))
    ensures TagMap(Listed(Latest(round, rm).tags)) == TagsIn(desired, w)
  {
    ReportedIsSafe(desired, round.read.value.1, ID(desired), w.networks[ID(desired)], TagsIn(desired, w));
  }

  lemma PathsNamed(description: bool, tags: bool)
    ensures SPEC_TAGS in Paths(description, tags) <==> tags
    ensures OnlyTagsDiffer(Paths(description, tags)) <==> !description
    ensures Paths(description, tags) == [] <==> !description && !tags
  {
    assert SPEC_TAGS != SPEC_DESCRIPTION;
    assert description ==> SPEC_DESCRIPTION in Paths(description, tags);
  }

  /** The tag requests of a round are one SyncTags attempt on the backend's tags, or none after a failed read. */
  lemma RoundIsAttempt(desired: NetworkValue, rm: ManagerValue, w: World, round: Round, w': World)
    requires Fit(desired) && There(desired, w) && Step(desired, rm, w, round, w')
    ensures There(desired, w') && TagsIn(desired, w') == Replay(TagsIn(desired, w), round.trace)
    ensures round.read.Some? ==>
      Attempt(ARN(desired), Wanted(desired), TagsIn(desired, w), round.trace, !AllOk(round.trace))
  {
    if round.read.Some? {
      ReadSeesWorld(desired, rm, w, round, w');
      PathsNamed(desired.description != DescriptionIn(desired, w), Wanted(desired) != TagsIn(desired, w));
      if Wanted(desired) == TagsIn(desired, w) {
        assert ToAdd(Wanted(desired), Wanted(desired)) == map[] && ToDelete(Wanted(desired), Wanted(desired)) == {};
        assert round.trace[..0] == [] && round.trace[0..] == [];
      }
    }
  }

  /** The description changes only to the desired one, in a round that succeeds. */
  lemma RoundDescription(desired: NetworkValue, rm: ManagerValue, w: World, round: Round, w': World)
    requires Fit(desired) && There(desired, w) && Step(desired, rm, w, round, w') && There(desired, w')
    ensures DescriptionIn(desired, w') ==
      if round.err.None? && desired.description.Some? then desired.description else DescriptionIn(desired, w)
  {
    if round.read.Some? {
      ReadSeesWorld(desired, rm, w, round, w');
      PathsNamed(desired.description != DescriptionIn(desired, w), Wanted(desired) != TagsIn(desired, w));
    }
  }

  /** Description and tags of the network are the desired ones. */
  ghost predicate Settled(desired: NetworkValue, w: World)
    requires Fit(desired) && There(desired, w)
  {
    DescriptionIn(desired, w) == desired.description && TagsIn(desired, w) == Wanted(desired)
  }

  /**
   One round. A read finds an empty delta exactly when the network is settled, and then nothing is sent
   and nothing changes. A round that succeeds settles the network, unless a description is to be removed.
   */
  lemma RoundSettles(desired: NetworkValue, rm: ManagerValue, w: World, round: Round, w': World)
    requires Fit(desired) && There(desired, w) && Step(desired, rm, w, round, w')
    ensures There(desired, w')
    ensures round.read.Some? ==> (DeltaPaths(desired, Latest(round, rm)) == [] <==> Settled(desired, w))
    ensures Settled(desired, w) ==> round.trace == [] && w' == w && (round.read.Some? ==> round.err.None?)
    ensures round.err.None? ==>
      (Settled(desired, w') <==> desired.description.Some? || DescriptionIn(desired, w).None?)
  {
    RoundIsAttempt(desired, rm, w, round, w');
    RoundDescription(desired, rm, w, round, w');
    if round.read.Some? {
      ReadSeesWorld(desired, rm, w, round, w');
      PathsNamed(desired.description != DescriptionIn(desired, w), Wanted(desired) != TagsIn(desired, w));
      SyncRefinement(ARN(desired), Wanted(desired), TagsIn(desired, w), round.trace, !AllOk(round.trace));
    }
  }

  /**
   If the read and the tag requests succeed, the update of the description is sent, once, exactly when the
   network has another one; otherwise it is not.
   */
  lemma RoundSends(desired: NetworkValue, rm: ManagerValue, w: World, round: Round, w': World)
    requires Fit(desired) && There(desired, w) && Step(desired, rm, w, round, w')
    ensures if round.read.Some? && AllOk(round.trace) && DescriptionIn(desired, w) != desired.description then
        |round.sent| == 1 && round.sent[0].UpdateCall?
        && round.sent[0].id == Some(ID(desired)) && round.sent[0].description == desired.description
      else round.sent == []
  {
    if round.read.Some? {
      ReadSeesWorld(desired, rm, w, round, w');
      PathsNamed(desired.description != DescriptionIn(desired, w), Wanted(desired) != TagsIn(desired, w));
    }
  }

  /** A round fails exactly when one of its calls does. */
  lemma RoundFailsExactly(desired: NetworkValue, rm: ManagerValue, w: World, round: Round, w': World)
    requires Fit(desired) && There(desired, w) && Step(desired, rm, w, round, w')
    ensures round.err.None? <==> NoCallFails(round)
  {
    if round.read.Some? {
      UpdateFails(desired, DeltaPaths(desired, Latest(round, rm)), round.trace, round.sent, round.err, w.networks, w'.networks);
    }
  }

  /** So a round in which no call fails settles the network, exactly unless a description was to be removed. */
  lemma NoFailureSettles(desired: NetworkValue, rm: ManagerValue, w: World, round: Round, w': World)
    requires Fit(desired) && There(desired, w) && Step(desired, rm, w, round, w') && NoCallFails(round)
    ensures There(desired, w')
    ensures Settled(desired, w') <==> desired.description.Some? || DescriptionIn(desired, w).None?
  {
    RoundFailsExactly(desired, rm, w, round, w');
    RoundSettles(desired, rm, w, round, w');
  }

  /* ---- Whole runs ---- */

  ghost predicate IsRun(desired: NetworkValue, rm: ManagerValue, worlds: seq<World>, rounds: seq<Round>)
    requires Fit(desired)
  {
    && |worlds| == |rounds| + 1
    && (forall i :: 0 <= i < |worlds| ==> There(desired, worlds[i]))
    && forall i :: 0 <= i < |rounds| ==> Step(desired, rm, worlds[i], rounds[i], worlds[i + 1])
  }

  /** The tag requests of the first `i` rounds. */
  function Sent(rounds: seq<Round>, i: nat): seq<TagRequest>
    requires i <= |rounds|
  {
    if i == 0 then [] else Sent(rounds, i - 1) + rounds[i - 1].trace
  }

  lemma RoundIsProgressive(desired: NetworkValue, rm: ManagerValue, worlds: seq<World>, rounds: seq<Round>, i: nat)
    requires Fit(desired) && IsRun(desired, rm, worlds, rounds) && i < |rounds|
    ensures TagsIn(desired, worlds[i + 1]) == Replay(TagsIn(desired, worlds[i]), rounds[i].trace)
    ensures Progressive(Wanted(desired), TagsIn(desired, worlds[i]), rounds[i].trace)
  {
    var w, round := worlds[i], rounds[i];
    RoundIsAttempt(desired, rm, w, round, worlds[i + 1]);
    if round.read.Some? {
      AttemptProgressive(ARN(desired), Wanted(desired), TagsIn(desired, w), round.trace, !AllOk(round.trace));
    }
  }

  /** Tag maps that follow one another by progressive requests. */
  lemma {:induction false} RequestsCompose(wanted: TagDict, bs: seq<TagDict>, rounds: seq<Round>, i: nat)
    requires |bs| == |rounds| + 1 && i <= |rounds|
    requires forall j :: 0 <= j < |rounds| ==>
      Progressive(wanted, bs[j], rounds[j].trace) && bs[j + 1] == Replay(bs[j], rounds[j].trace)
    ensures bs[i] == Replay(bs[0], Sent(rounds, i)) && Progressive(wanted, bs[0], Sent(rounds, i))
  {
    if i == 0 {
    } else {
      RequestsCompose(wanted, bs, rounds, i - 1);
      ProgressiveAppend(wanted, bs[0], Sent(rounds, i - 1), rounds[i - 1].trace);
      ReplayAppend(bs[0], Sent(rounds, i - 1), rounds[i - 1].trace);
      assert bs[i - 1 + 1] == bs[i];
    }
  }

  lemma RunIsProgressive(desired: NetworkValue, rm: ManagerValue, worlds: seq<World>, rounds: seq<Round>, i: nat)
    requires Fit(desired) && IsRun(desired, rm, worlds, rounds) && i <= |rounds|
    ensures TagsIn(desired, worlds[i]) == Replay(TagsIn(desired, worlds[0]), Sent(rounds, i))
    ensures Progressive(Wanted(desired), TagsIn(desired, worlds[0]), Sent(rounds, i))
  {
    var bs := seq(|worlds|, j requires 0 <= j < |worlds| => TagsIn(desired, worlds[j]));
    forall j | 0 <= j < |rounds|
      ensures Progressive(Wanted(desired), bs[j], rounds[j].trace) && bs[j + 1] == Replay(bs[j], rounds[j].trace)
    {
      RoundIsProgressive(desired, rm, worlds, rounds, j);
    }
    RequestsCompose(Wanted(desired), bs, rounds, i);
  }

  /**
   Convergence of the whole update. Over any run at most one TagResource and one UntagResource succeed,
   and the tags are the desired ones exactly when each half of the first diff that is not empty was sent
   successfully once.
   */
  lemma TagsConverge(desired: NetworkValue, rm: ManagerValue, worlds: seq<World>, rounds: seq<Round>)
    requires Fit(desired) && IsRun(desired, rm, worlds, rounds)
    ensures var all, b := Sent(rounds, |rounds|), TagsIn(desired, worlds[0]);
      && Adds(all) <= 1 && Removes(all) <= 1
      && (TagsIn(desired, worlds[|rounds|]) == Wanted(desired)
          <==> (ToAdd(Wanted(desired), b) == map[] || Adds(all) == 1)
               && (ToDelete(Wanted(desired), b) == {} || Removes(all) == 1))
  {
    RunIsProgressive(desired, rm, worlds, rounds, |rounds|);
    ProgressiveState(Wanted(desired), TagsIn(desired, worlds[0]), Sent(rounds, |rounds|));
    DiffersIsDiff(TagsIn(desired, worlds[|rounds|]), Wanted(desired));
  }

  /** Neither the keys on which the tags disagree nor a disagreement on the description ever come back. */
  lemma DisagreementNeverGrows(desired: NetworkValue, rm: ManagerValue, w: World, round: Round, w': World)
    requires Fit(desired) && There(desired, w) && Step(desired, rm, w, round, w')
    ensures There(desired, w')
    ensures Differs(TagsIn(desired, w'), Wanted(desired)) <= Differs(TagsIn(desired, w), Wanted(desired))
    ensures (exists i :: 0 <= i < |round.trace| && round.trace[i].ok) ==>
      Differs(TagsIn(desired, w'), Wanted(desired)) != Differs(TagsIn(desired, w), Wanted(desired))
    ensures DescriptionIn(desired, w) == desired.description ==> DescriptionIn(desired, w') == desired.description
  {
    RoundIsAttempt(desired, rm, w, round, w');
    RoundDescription(desired, rm, w, round, w');
    if round.read.Some? {
      AttemptProgressive(ARN(desired), Wanted(desired), TagsIn(desired, w), round.trace, !AllOk(round.trace));
      RequestsReduce(Wanted(desired), TagsIn(desired, w), round.trace);
    }
  }

  lemma {:induction false} RequestsReduce(wanted: TagDict, b: TagDict, trace: seq<TagRequest>)
    requires Progressive(wanted, b, trace)
    ensures Differs(Replay(b, trace), wanted) <= Differs(b, wanted)
    ensures (exists i :: 0 <= i < |trace| && trace[i].ok) ==> Differs(Replay(b, trace), wanted) != Differs(b, wanted)
  {
    if trace == [] {
    } else {
      var front, last := trace[..|trace| - 1], trace[|trace| - 1];
      RequestsReduce(wanted, b, front);
      OneStepFalls(wanted, Replay(b, front), last);
      if i :| 0 <= i < |trace| && trace[i].ok {
        assert i < |front| ==> front[i].ok;
      }
    }
  }

  lemma {:induction false} SettledStays(desired: NetworkValue, rm: ManagerValue, worlds: seq<World>, rounds: seq<Round>,
                                        i: nat, j: nat)
    requires Fit(desired) && IsRun(desired, rm, worlds, rounds) && i <= j <= |rounds| && Settled(desired, worlds[i])
    ensures worlds[j] == worlds[i]
  {
    if i == j {
    } else {
      SettledStays(desired, rm, worlds, rounds, i, j - 1);
      RoundSettles(desired, rm, worlds[j - 1], rounds[j - 1], worlds[j]);
    }
  }

  /** A desired CR without a description never changes that of the network. */
  lemma {:induction false} NoneChangesNone(desired: NetworkValue, rm: ManagerValue, worlds: seq<World>, rounds: seq<Round>,
                                          i: nat, j: nat)
    requires Fit(desired) && IsRun(desired, rm, worlds, rounds) && i <= j <= |rounds| && desired.description.None?
    ensures DescriptionIn(desired, worlds[j]) == DescriptionIn(desired, worlds[i])
  {
    if i == j {
    } else {
      NoneChangesNone(desired, rm, worlds, rounds, i, j - 1);
      RoundDescription(desired, rm, worlds[j - 1], rounds[j - 1], worlds[j]);
    }
  }

  /**
   After the first round that succeeds the network is as desired at every later point, exactly unless a
   description was to be removed. If it is, every read finds an empty delta, nothing is sent and nothing
   changes.
   */
  lemma SuccessIsForever(desired: NetworkValue, rm: ManagerValue, worlds: seq<World>, rounds: seq<Round>, i: nat, j: nat)
    requires Fit(desired) && IsRun(desired, rm, worlds, rounds) && i < j <= |rounds| && rounds[i].err.None?
    ensures Settled(desired, worlds[j]) <==> desired.description.Some? || DescriptionIn(desired, worlds[i]).None?
    ensures Settled(desired, worlds[j]) ==> worlds[j] == worlds[i + 1]
    ensures Settled(desired, worlds[j]) && j < |rounds| ==>
      && rounds[j].trace == []
      && (rounds[j].read.Some? ==> rounds[j].err.None? && DeltaPaths(desired, Latest(rounds[j], rm)) == [])
  {
    RoundSettles(desired, rm, worlds[i], rounds[i], worlds[i + 1]);
    if Settled(desired, worlds[i + 1]) {
      SettledStays(desired, rm, worlds, rounds, i + 1, j);
    } else {
      NoneChangesNone(desired, rm, worlds, rounds, i, j);
    }
    if j < |rounds| {
      RoundSettles(desired, rm, worlds[j], rounds[j], worlds[j + 1]);
    }
  }
}
