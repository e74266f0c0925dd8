/**
 The tag reconciliation protocol of pkg/tags/sync.go on values: the diff of two tag maps, the backend
 requests one attempt may issue for it, and what any sequence of attempts does to the backend's tags.
 */
module SyncProtocol {
  import opened Wrappers
  import opened Errors
  import opened TagLists

  /** A TagResource or UntagResource request, with the answer it got. */
  datatype TagRequest =
    | TagResource(arn: string, tags: TagList, err: Option<Error>)
    | UntagResource(arn: string, keys: seq<string>, err: Option<Error>)
  {
    const ok: bool := err.None?
  }

  /** The backend's tags after a request: each request takes effect atomically or not at all. */
  function Applied(b: TagDict, r: TagRequest): TagDict {
    if !r.ok then b
    else match r
      case TagResource(_, tags, _) => b + TagMap(tags)
      case UntagResource(_, keys, _) => b - KeySet(keys)
  }

  function Replay(b: TagDict, trace: seq<TagRequest>): TagDict {
    if trace == [] then b else Applied(Replay(b, trace[..|trace| - 1]), trace[|trace| - 1])
  }

  lemma {:induction false} ReplayAppend(b: TagDict, s: seq<TagRequest>, t: seq<TagRequest>)
    ensures Replay(b, s + t) == Replay(Replay(b, s), t)
  {
    if t == [] {
      assert s + t == s;
    } else {
      ReplayAppend(b, s, t[..|t| - 1]);
      assert (s + t)[..|s + t| - 1] == s + t[..|t| - 1];
    }
  }

  /* ---- One attempt ---- */

  function ToAdd(desired: TagDict, existing: TagDict): TagDict {
    map k | k in desired && (k !in existing || existing[k] != desired[k]) :: desired[k]
  }

  function ToDelete(desired: TagDict, existing: TagDict): set<string> {
    existing.Keys - desired.Keys
  }

  ghost predicate AllOk(trace: seq<TagRequest>) {
    forall i :: 0 <= i < |trace| ==> trace[i].ok
  }

  /** The error of the last request, if it failed. */
  function LastError(trace: seq<TagRequest>): Option<Error> {
    if trace == [] then None else trace[|trace| - 1].err
  }

  /** addTags is called when there is something to add; it lists the map in iteration order. */
  ghost predicate AddPhase(arn: string, add: TagDict, trace: seq<TagRequest>) {
    if add == map[] then trace == []
    else
      && |trace| == 1 && trace[0].TagResource? && trace[0].arn == arn
      && exists order :: Enumerates(order, add.Keys) && trace[0].tags == Entries(add, order)
  }

  ghost predicate RemovePhase(arn: string, remove: set<string>, trace: seq<TagRequest>) {
    if remove == {} then trace == []
    else |trace| == 1 && trace[0].UntagResource? && trace[0].arn == arn && Enumerates(trace[0].keys, remove)
  }

  function AddCount(desired: TagDict, existing: TagDict): nat {
    if ToAdd(desired, existing) == map[] then 0 else 1
  }

  /** The requests of one SyncTags call, in order; it removes nothing after a failed TagResource. */
  ghost predicate Attempt(arn: string, desired: TagDict, existing: TagDict, trace: seq<TagRequest>, failed: bool) {
    var n := AddCount(desired, existing);
    && n <= |trace|
    && AddPhase(arn, ToAdd(desired, existing), trace[..n])
    && (if AllOk(trace[..n]) then RemovePhase(arn, ToDelete(desired, existing), trace[n..]) else trace[n..] == [])
    && failed == !AllOk(trace)
  }

  /** The keys on which backend and desired disagree. */
  function Differs(b: TagDict, desired: TagDict): set<string> {
    set k | k in b.Keys + desired.Keys && !(k in b && k in desired && b[k] == desired[k])
  }

  lemma DiffersIsDiff(b: TagDict, desired: TagDict)
    ensures Differs(b, desired) == ToAdd(desired, b).Keys + ToDelete(desired, b)
    ensures ToAdd(desired, b).Keys !! ToDelete(desired, b)
    ensures Differs(b, desired) == {} <==> b == desired
  {
    if Differs(b, desired) == {} {
      assert forall k :: k in b.Keys + desired.Keys ==> k !in Differs(b, desired);
      assert b.Keys == desired.Keys;
    }
  }

  /** What a request of an attempt asks for: the whole of one half of the diff, which is not empty. */
  ghost predicate Sends(r: TagRequest, desired: TagDict, existing: TagDict) {
    match r
    case TagResource(_, tags, _) =>
      DistinctKeys(tags) && TagMap(tags) == ToAdd(desired, existing) != map[]
    case UntagResource(_, keys, _) =>
      Enumerates(keys, ToDelete(desired, existing)) && keys != []
  }

  /** A request that succeeds empties its half of the diff and leaves the other half alone. */
  lemma RequestRepairs(b: TagDict, desired: TagDict, r: TagRequest)
    requires Sends(r, desired, b)
    ensures ToAdd(desired, Applied(b, r)) == if r.ok && r.TagResource? then map[] else ToAdd(desired, b)
    ensures ToDelete(desired, Applied(b, r)) == if r.ok && r.UntagResource? then {} else ToDelete(desired, b)
    ensures desired.Keys * b.Keys <= Applied(b, r).Keys
  {
  }

  /** Every request sends one half of the diff between the desired tags and the backend it meets. */
  ghost predicate Progressive(desired: TagDict, b: TagDict, trace: seq<TagRequest>) {
    trace == []
    || (Progressive(desired, b, trace[..|trace| - 1])
        && Sends(trace[|trace| - 1], desired, Replay(b, trace[..|trace| - 1])))
  }

  lemma {:induction false} ProgressiveAppend(desired: TagDict, b: TagDict, s: seq<TagRequest>, t: seq<TagRequest>)
    requires Progressive(desired, b, s) && Progressive(desired, Replay(b, s), t)
    ensures Progressive(desired, b, s + t)
  {
    if t == [] {
      assert s + t == s;
    } else {
      ProgressiveAppend(desired, b, s, t[..|t| - 1]);
      ReplayAppend(b, s, t[..|t| - 1]);
      assert (s + t)[..|s + t| - 1] == s + t[..|t| - 1];
    }
  }

  lemma {:induction false} ProgressivePrefix(desired: TagDict, b: TagDict, trace: seq<TagRequest>, n: nat)
    requires Progressive(desired, b, trace) && n <= |trace|
    ensures Progressive(desired, b, trace[..n])
  {
    if n == |trace| {
      assert trace[..n] == trace;
    } else {
      ProgressivePrefix(desired, b, trace[..|trace| - 1], n);
      assert trace[..|trace| - 1][..n] == trace[..n];
    }
  }

  lemma ProgressiveStep(desired: TagDict, b: TagDict, trace: seq<TagRequest>, i: nat)
    requires Progressive(desired, b, trace) && i < |trace|
    ensures Sends(trace[i], desired, Replay(b, trace[..i]))
    ensures Replay(b, trace[..i + 1]) == Applied(Replay(b, trace[..i]), trace[i])
  {
    ProgressivePrefix(desired, b, trace, i + 1);
    assert trace[..i + 1][..i] == trace[..i];
  }

  /** The number of successful TagResource, or UntagResource, requests. */
  function Adds(trace: seq<TagRequest>): nat {
    if trace == [] then 0
    else Adds(trace[..|trace| - 1]) + var r := trace[|trace| - 1]; if r.ok && r.TagResource? then 1 else 0
  }

  function Removes(trace: seq<TagRequest>): nat {
    if trace == [] then 0
    else Removes(trace[..|trace| - 1]) + var r := trace[|trace| - 1]; if r.ok && r.UntagResource? then 1 else 0
  }

  lemma {:induction false} ProgressiveState(desired: TagDict, b: TagDict, trace: seq<TagRequest>)
    requires Progressive(desired, b, trace)
    ensures Adds(trace) <= 1 && Removes(trace) <= 1
    ensures ToAdd(desired, Replay(b, trace)) == if Adds(trace) == 0 then ToAdd(desired, b) else map[]
    ensures ToDelete(desired, Replay(b, trace)) == if Removes(trace) == 0 then ToDelete(desired, b) else {}
    ensures desired.Keys * b.Keys <= Replay(b, trace).Keys
  {
    if trace == [] {
    } else {
      var front, last := trace[..|trace| - 1], trace[|trace| - 1];
      ProgressiveState(desired, b, front);
      RequestRepairs(Replay(b, front), desired, last);
      if last.UntagResource? {
        assert last.keys[0] in KeySet(last.keys);
      }
    }
  }

  lemma {:induction false} AllOkCounts(trace: seq<TagRequest>)
    ensures Adds(trace) + Removes(trace) <= |trace|
    ensures Adds(trace) + Removes(trace) == |trace| <==> AllOk(trace)
  {
    if trace == [] {
    } else {
      AllOkCounts(trace[..|trace| - 1]);
      assert trace == trace[..|trace| - 1] + [trace[|trace| - 1]];
    }
  }

  lemma OneRequest(desired: TagDict, b: TagDict, r: TagRequest)
    ensures Replay(b, [r]) == Applied(b, r)
    ensures Sends(r, desired, b) ==> Progressive(desired, b, [r])
  {
  }

  lemma AddPhaseProgressive(arn: string, desired: TagDict, b: TagDict, trace: seq<TagRequest>)
    requires AddPhase(arn, ToAdd(desired, b), trace)
    ensures Progressive(desired, b, trace)
    ensures AllOk(trace) ==> ToDelete(desired, Replay(b, trace)) == ToDelete(desired, b)
  {
    if trace != [] {
      var add := ToAdd(desired, b);
      var order :| Enumerates(order, add.Keys) && trace[0].tags == Entries(add, order);
      EntriesRoundTrip(add, order);
      assert trace == [trace[0]];
      OneRequest(desired, b, trace[0]);
      RequestRepairs(b, desired, trace[0]);
    }
  }

  lemma RemovePhaseProgressive(arn: string, desired: TagDict, b: TagDict, trace: seq<TagRequest>)
    requires RemovePhase(arn, ToDelete(desired, b), trace)
    ensures Progressive(desired, b, trace)
  {
    if trace != [] {
      assert trace == [trace[0]];
      EmptyTail(trace[0].keys);
      OneRequest(desired, b, trace[0]);
    }
  }

  /** An attempt is its add phase followed, unless that failed, by its remove phase. */
  lemma AttemptPhases(arn: string, desired: TagDict, b: TagDict, trace: seq<TagRequest>, failed: bool)
    requires Attempt(arn, desired, b, trace, failed)
    ensures var n := AddCount(desired, b);
      && Progressive(desired, b, trace[..n])
      && Progressive(desired, Replay(b, trace[..n]), trace[n..])
  {
    var n := AddCount(desired, b);
    AddPhaseProgressive(arn, desired, b, trace[..n]);
    if AllOk(trace[..n]) {
      RemovePhaseProgressive(arn, desired, Replay(b, trace[..n]), trace[n..]);
    }
  }

  lemma AttemptProgressive(arn: string, desired: TagDict, b: TagDict, trace: seq<TagRequest>, failed: bool)
    requires Attempt(arn, desired, b, trace, failed)
    ensures Progressive(desired, b, trace)
  {
    var n := AddCount(desired, b);
    AttemptPhases(arn, desired, b, trace, failed);
    ProgressiveAppend(desired, b, trace[..n], trace[n..]);
    assert trace == trace[..n] + trace[n..];
  }

  /** One attempt sends at most two requests, both about the ARN it was given. */
  lemma AttemptIsShort(arn: string, desired: TagDict, b: TagDict, trace: seq<TagRequest>, failed: bool)
    requires Attempt(arn, desired, b, trace, failed)
    ensures |trace| <= 2 && forall i :: 0 <= i < |trace| ==> trace[i].arn == arn
  {
  }

  lemma FailureKeepsOrAdds(arn: string, desired: TagDict, b: TagDict, trace: seq<TagRequest>)
    requires Attempt(arn, desired, b, trace, true)
    ensures Replay(b, trace) == b || Replay(b, trace) == b + desired
  {
    AttemptIsShort(arn, desired, b, trace, true);
    var n := AddCount(desired, b);
    if AllOk(trace[..n]) && n == 1 {
      assert trace[..1] == [trace[0]] && trace[1..] == [trace[1]];
      assert !trace[1].ok;
      assert trace[..0] == [] && Replay(b, trace[..0]) == b;
      assert Replay(b, trace) == Applied(Replay(b, trace[..1]), trace[1]) == Applied(b, trace[0]);
      AttemptProgressive(arn, desired, b, trace, true);
      ProgressivePrefix(desired, b, trace, 1);
      assert b + ToAdd(desired, b) == b + desired;
    }
  }

  /**
   SyncTags refines "make the backend's tags equal to the desired ones": an attempt that starts from a
   backend equal to the existing tags reports success exactly when the backend ends up as desired, and
   a failed one leaves it as it was or with the desired tags added and nothing removed.
   */
  lemma SyncRefinement(arn: string, desired: TagDict, b: TagDict, trace: seq<TagRequest>, failed: bool)
    requires Attempt(arn, desired, b, trace, failed)
    ensures Replay(b, trace) == desired <==> !failed
    ensures failed ==> Replay(b, trace) == b || Replay(b, trace) == b + desired
  {
    AttemptProgressive(arn, desired, b, trace, failed);
    ProgressiveState(desired, b, trace);
    AllOkCounts(trace);
    DiffersIsDiff(b, desired);
    DiffersIsDiff(Replay(b, trace), desired);
    AllOkCounts(trace[..AddCount(desired, b)]);
    if failed {
      FailureKeepsOrAdds(arn, desired, b, trace);
    }
  }
}
