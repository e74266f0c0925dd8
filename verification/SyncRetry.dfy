/**
 Sequences of SyncTags attempts. Between attempts nobody else writes the tags, and each attempt starts
 from a fresh read: a list, in any order and with any duplicates, whose map is what the backend holds.
 */
module SyncRetry {
  import opened TagLists
  import opened TagRules
  import opened SyncProtocol

  datatype Try = Try(read: TagList, trace: seq<TagRequest>, failed: bool)

  function Requests(tries: seq<Try>): seq<TagRequest> {
    if tries == [] then [] else Requests(tries[..|tries| - 1]) + tries[|tries| - 1].trace
  }

  ghost predicate Run(arn: string, desired: TagDict, b: TagDict, tries: seq<Try>) {
    tries == []
    || (var front, last := tries[..|tries| - 1], tries[|tries| - 1];
        && Run(arn, desired, b, front)
        && TagMap(last.read) == Replay(b, Requests(front))
        && Attempt(arn, desired, TagMap(last.read), last.trace, last.failed))
  }

  lemma {:induction false} RunProgressive(arn: string, desired: TagDict, b: TagDict, tries: seq<Try>)
    requires Run(arn, desired, b, tries)
    ensures Progressive(desired, b, Requests(tries))
  {
    if tries == [] {
    } else {
      var front, last := tries[..|tries| - 1], tries[|tries| - 1];
      RunProgressive(arn, desired, b, front);
      AttemptProgressive(arn, desired, Replay(b, Requests(front)), last.trace, last.failed);
      ProgressiveAppend(desired, b, Requests(front), last.trace);
    }
  }

  lemma {:induction false} SuccessIsFinal(arn: string, desired: TagDict, b: TagDict, tries: seq<Try>, i: nat)
    requires Run(arn, desired, b, tries) && i < |tries| && !tries[i].failed
    ensures Replay(b, Requests(tries)) == desired
  {
    var front, last := tries[..|tries| - 1], tries[|tries| - 1];
    var mid := Replay(b, Requests(front));
    ReplayAppend(b, Requests(front), last.trace);
    if i == |tries| - 1 {
      SyncRefinement(arn, desired, mid, last.trace, last.failed);
    } else {
      SuccessIsFinal(arn, desired, b, front, i);
      NothingToDo(arn, desired, last.trace, last.failed);
    }
  }

  /** SyncTags sends nothing, and so cannot fail, when the backend already is as desired. */
  lemma NothingToDo(arn: string, desired: TagDict, trace: seq<TagRequest>, failed: bool)
    requires Attempt(arn, desired, desired, trace, failed)
    ensures trace == [] && !failed
  {
  }

  /**
   Retry convergence. However many attempts run and however their requests fail, at most one
   TagResource and one UntagResource succeed, and the backend is as desired exactly when each half of
   the first diff that is not empty was sent successfully once. One attempt that reports success is enough.
   */
  lemma RetryConvergence(arn: string, desired: TagDict, b: TagDict, tries: seq<Try>)
    requires Run(arn, desired, b, tries)
    ensures var all := Requests(tries);
      && Adds(all) <= 1 && Removes(all) <= 1
      && (Replay(b, all) == desired
          <==> (ToAdd(desired, b) == map[] || Adds(all) == 1) && (ToDelete(desired, b) == {} || Removes(all) == 1))
      && ((exists i :: 0 <= i < |tries| && !tries[i].failed) ==> Replay(b, all) == desired)
  {
    RunProgressive(arn, desired, b, tries);
    var all := Requests(tries);
    ProgressiveState(desired, b, all);
    DiffersIsDiff(Replay(b, all), desired);
    if i :| 0 <= i < |tries| && !tries[i].failed {
      SuccessIsFinal(arn, desired, b, tries, i);
    }
  }

  /** The keys on which backend and desired disagree become strictly fewer with each successful request, and never more. */
  lemma DisagreementFalls(arn: string, desired: TagDict, b: TagDict, tries: seq<Try>, i: nat)
    requires Run(arn, desired, b, tries) && i < |Requests(tries)|
    ensures var before := Differs(Replay(b, Requests(tries)[..i]), desired);
            var after := Differs(Replay(b, Requests(tries)[..i + 1]), desired);
      && (if Requests(tries)[i].ok then after < before else after == before)
      && |after| <= |before| && (Requests(tries)[i].ok ==> |after| < |before|)
  {
    RunProgressive(arn, desired, b, tries);
    var all := Requests(tries);
    ProgressiveStep(desired, b, all, i);
    OneStepFalls(desired, Replay(b, all[..i]), all[i]);
    Smaller(Differs(Replay(b, all[..i + 1]), desired), Differs(Replay(b, all[..i]), desired));
  }

  lemma OneStepFalls(desired: TagDict, b: TagDict, r: TagRequest)
    requires Sends(r, desired, b)
    ensures if r.ok then Differs(Applied(b, r), desired) < Differs(b, desired) else Applied(b, r) == b
  {
    RequestRepairs(b, desired, r);
    DiffersIsDiff(b, desired);
    DiffersIsDiff(Applied(b, r), desired);
    if r.TagResource? {
      assert ToAdd(desired, b).Keys != {};
    } else {
      EmptyTail(r.keys);
    }
  }

  lemma Smaller(s: set<string>, t: set<string>)
    requires s <= t
    ensures |s| <= |t| && (s != t ==> |s| < |t|)
  {
    assert t == s + (t - s);
    assert s != t ==> t - s != {};
  }

  /**
   No gap: a desired key that the backend has at the start is there after every request, and a key that
   already has its desired value keeps it and is named by no request.
   */
  lemma DesiredKeysStay(arn: string, desired: TagDict, b: TagDict, tries: seq<Try>, i: nat, k: string)
    requires Run(arn, desired, b, tries) && i <= |Requests(tries)|
    requires k in desired && k in b
    ensures k in Replay(b, Requests(tries)[..i])
    ensures b[k] == desired[k] ==> Replay(b, Requests(tries)[..i])[k] == desired[k]
    ensures b[k] == desired[k] && i < |Requests(tries)| ==>
      match Requests(tries)[i]
      case TagResource(_, tags, _) => k !in TagMap(tags)
      case UntagResource(_, keys, _) => k !in keys
  {
    RunProgressive(arn, desired, b, tries);
    var all := Requests(tries);
    ProgressivePrefix(desired, b, all, i);
    var state := Replay(b, all[..i]);
    ProgressiveState(desired, b, all[..i]);
    DiffersIsDiff(b, desired);
    DiffersIsDiff(state, desired);
    assert b[k] == desired[k] ==> k !in Differs(b, desired);
    assert ToAdd(desired, state).Keys <= ToAdd(desired, b).Keys;
    assert b[k] == desired[k] ==> k !in ToAdd(desired, state);
    if i < |all| {
      ProgressiveStep(desired, b, all, i);
      if all[i].UntagResource? {
        assert KeySet(all[i].keys) == ToDelete(desired, state);
        assert forall x :: x in all[i].keys ==> x in KeySet(all[i].keys);
      }
    }
  }

  /** Every key sent for removal is not desired; every tag sent carries its desired value. */
  lemma RequestsAreJustified(arn: string, desired: TagDict, b: TagDict, trace: seq<TagRequest>, failed: bool, i: nat)
    requires Attempt(arn, desired, b, trace, failed) && i < |trace|
    ensures match trace[i]
      case TagResource(_, tags, _) =>
        forall k :: k in TagMap(tags) ==> k in desired && TagMap(tags)[k] == desired[k] && (k !in b || b[k] != desired[k])
      case UntagResource(_, keys, _) => forall k :: k in keys ==> k in b && k !in desired
  {
    AttemptProgressive(arn, desired, b, trace, failed);
    ProgressiveStep(desired, b, trace, i);
    ProgressivePrefix(desired, b, trace, i);
    var state := Replay(b, trace[..i]);
    ProgressiveState(desired, b, trace[..i]);
    if trace[i].UntagResource? {
      assert forall k :: k in trace[i].keys ==> k in KeySet(trace[i].keys);
      assert KeySet(trace[i].keys) == ToDelete(desired, state);
    } else {
      assert forall k :: k in TagMap(trace[i].tags) ==> k in ToAdd(desired, b);
    }
  }

  /**
   AWS tag protection. After mirrorAWSTags(a, b), SyncTags(a.Tags, b.Tags) untags no "aws:" key and
   sends no TagResource for an "aws:" key that b has.
   */
  lemma AWSTagsAreProtected(arn: string, a: TagList, b: TagList, tail: seq<string>,
                            trace: seq<TagRequest>, failed: bool, i: nat, k: string)
    requires Enumerates(tail, WithAWS(TagMap(a), TagMap(b)).Keys - KeySet(KeyOrder(a)))
    requires Attempt(arn, TagMap(Mirrored(a, b, tail)), TagMap(b), trace, failed)
    requires i < |trace| && "aws:" <= k
    ensures match trace[i]
      case TagResource(_, tags, _) => k in TagMap(tags) ==> k !in TagMap(b)
      case UntagResource(_, keys, _) => k !in keys
  {
    MirroredMap(a, b, tail);
    RequestsAreJustified(arn, TagMap(Mirrored(a, b, tail)), TagMap(b), trace, failed, i);
  }
}
