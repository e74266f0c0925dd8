/**
 The life of the backend networks of one resource. The steps below are what ReadOne, Create, Update and
 Delete guarantee about network IDs, whatever the backend answers; a run interleaves them with changes
 that others make to the backend. Two assumptions are the reconciler's: Create is attempted only when
 the call before it was a ReadOne that answered NotFound, and the returned status is kept. The first is a
 part of `Next`; a step `Lose` breaks the second, and what it then takes for a duplicate is proved.
 */
module Lifecycle {
  import opened Wrappers
  import opened Errors

  /** The ID in the status of a CR. */
  type StatusID = Option<string>

  /** `clear` means that no call failed, unless to say that the network is missing, and nothing hides NotFound. */
  ghost predicate ReadStep(live: set<string>, id: StatusID, id': StatusID, err: Option<Error>, clear: bool) {
    && id' == id
    && (err == None ==> id.Some? && id.value in live)
    && (err == Some(NotFound) ==> id.None? || id.value !in live)
    && (clear ==> err == if id.Some? && id.value in live then None else Some(NotFound))
  }

  ghost predicate CreateStep(live: set<string>, live': set<string>, issued: set<string>, issued': set<string>,
                             id: StatusID, id': StatusID, err: Option<Error>) {
    if err == None then
      && id'.Some? && id'.value !in issued
      && live' == live + {id'.value} && issued' == issued + {id'.value}
    else
      live' == live && issued' == issued && id' == id
  }

  /** `id` is the desired CR's and `latest` the latest CR's; a failed update returns the latter. */
  ghost predicate UpdateStep(live: set<string>, live': set<string>, id: StatusID, latest: StatusID, id': StatusID,
                             err: Option<Error>) {
    live' == live && id' == if err == None then id else latest
  }

  /** A successful delete returns no CR, so the caller keeps the one it has. */
  ghost predicate DeleteStep(live: set<string>, live': set<string>, id: StatusID, id': Option<StatusID>, err: Option<Error>) {
    if err == None then id.Some? && live' == live - {id.value} && id' == None
    else live' == live && id' == Some(id)
  }

  /* ---- Runs ---- */

  datatype State = State(
    live: set<string>,       // IDs of the networks that exist
    issued: set<string>,     // IDs ever given to a network
    created: set<string>,    // IDs given to networks created for this resource
    id: StatusID,            // Status.GlobalNetworkID
    notFound: bool)          // the call before was a ReadOne that answered NotFound

  datatype Step =
    | Read(err: Option<Error>, clear: bool)
    | Create(err: Option<Error>)
    | Update(err: Option<Error>)
    | Delete(err: Option<Error>)
    | Others
    | Lose  // the status is replaced by any other

  ghost predicate Init(s: State) {
    s.live <= s.issued && s.created == {} && !s.notFound
  }

  ghost predicate Next(s: State, step: Step, s': State) {
    match step
    case Read(err, clear) =>
      && ReadStep(s.live, s.id, s'.id, err, clear)
      && s' == s.(id := s'.id, notFound := err == Some(NotFound))
    case Create(err) =>
      && s.notFound
      && CreateStep(s.live, s'.live, s.issued, s'.issued, s.id, s'.id, err)
      && s'.created == (if err == None then s.created + {s'.id.GetOr("")} else s.created)
      && !s'.notFound
    case Update(err) =>
      && UpdateStep(s.live, s'.live, s.id, s.id, s'.id, err)
      && s' == s.(id := s'.id, notFound := false)
    case Delete(err) =>
      && (exists returned :: DeleteStep(s.live, s'.live, s.id, returned, err) && s'.id == returned.GetOr(s.id))
      && s' == s.(live := s'.live, id := s'.id, notFound := false)
    case Others =>
      && s.issued <= s'.issued && s'.live - s.live <= s'.issued - s.issued
      && s' == s.(live := s'.live, issued := s'.issued)
    case Lose =>
      s' == s.(id := s'.id, notFound := false)
  }

  ghost predicate IsRun(states: seq<State>, steps: seq<Step>) {
    && |states| == |steps| + 1
    && Init(states[0])
    && forall i :: 0 <= i < |steps| ==> Next(states[i], steps[i], states[i + 1])
  }

  /** The status may be lost only while no network of this resource is live. */
  ghost predicate StatusKept(s: State, step: Step, s': State) {
    step.Lose? && s.created * s.live != {} ==> s'.id == s.id
  }

  ghost predicate KeepsStatus(states: seq<State>, steps: seq<Step>)
    requires |states| == |steps| + 1
  {
    forall i :: 0 <= i < |steps| ==> StatusKept(states[i], steps[i], states[i + 1])
  }

  /** Every live network of this resource is the one named by its status; after NotFound there is none. */
  ghost predicate Invariant(s: State) {
    && s.live <= s.issued && s.created <= s.issued
    && (forall n :: n in s.created && n in s.live ==> s.id == Some(n))
    && (s.notFound ==> s.created * s.live == {})
  }

  lemma NextKeepsInvariant(s: State, step: Step, s': State)
    requires Invariant(s) && Next(s, step, s') && StatusKept(s, step, s')
    ensures Invariant(s')
  {
    match step
    case Others =>
      forall n | n in s'.live ensures n in s.live || n in s'.issued - s.issued {
        assert n in s.live || n in s'.live - s.live;
      }
      assert s'.created * s'.live <= s.created * s.live;
    case Read(err, _) =>
      if s'.notFound {
        forall n ensures !(n in s.created && n in s.live) {
          assert n in s.created && n in s.live ==> s.id == Some(n);
        }
        assert s.created * s.live == {};
      }
    case Create(err) =>
      assert forall n :: n in s.created && n in s.live ==> n in s.created * s.live;
    case Lose =>
      assert forall n :: n in s.created && n in s.live ==> n in s.created * s.live;
    case _ =>
  }

  lemma {:induction false} RunKeepsInvariant(states: seq<State>, steps: seq<Step>, i: nat)
    requires IsRun(states, steps) && KeepsStatus(states, steps) && i < |states|
    ensures Invariant(states[i])
  {
    if i == 0 {
    } else {
      RunKeepsInvariant(states, steps, i - 1);
      NextKeepsInvariant(states[i - 1], steps[i - 1], states[i]);
    }
  }

  /**
   Lifecycle safety: at no point of any run are two networks of this resource live, and the one that is
   live, if any, is named by the status.
   */
  lemma NoSecondNetwork(states: seq<State>, steps: seq<Step>, i: nat)
    requires IsRun(states, steps) && KeepsStatus(states, steps) && i < |states|
    ensures |states[i].created * states[i].live| <= 1
    ensures forall n :: n in states[i].created * states[i].live ==> states[i].id == Some(n)
  {
    RunKeepsInvariant(states, steps, i);
    var mine := states[i].created * states[i].live;
    if mine != {} {
      var n :| n in mine;
      assert mine == {n};
    }
  }

  /** While a network of this resource is live, no Create is attempted and only Delete or others end it. */
  lemma LiveNetworkIsKept(states: seq<State>, steps: seq<Step>, i: nat, n: string)
    requires IsRun(states, steps) && KeepsStatus(states, steps) && i < |steps|
    requires n in states[i].created && n in states[i].live
    ensures !steps[i].Create?
    ensures !steps[i].Delete? && !steps[i].Others? ==> n in states[i + 1].live && states[i + 1].id == Some(n)
  {
    RunKeepsInvariant(states, steps, i);
    RunKeepsInvariant(states, steps, i + 1);
    assert Next(states[i], steps[i], states[i + 1]);
    assert n in states[i].created * states[i].live;
  }

  /**
   A network that is missing is created again: a clear read of it answers NotFound, after which a Create
   that succeeds leaves the status naming a live network. A clear read of a live network succeeds.
   */
  lemma MissingIsCreated(s: State, err: Option<Error>, s': State)
    requires Invariant(s) && Next(s, Read(err, true), s')
    ensures s'.notFound <==> s.id.None? || s.id.value !in s.live
    ensures err == None <==> s.id.Some? && s.id.value in s.live
    ensures s'.notFound ==> forall m: string :: m !in s'.issued ==> Next(s', Create(None), Born(s', m))
  {
  }

  /* ---- When the status is lost ---- */

  /**
   With a status `id'` in place of the one that names the live network `n`, ReadOne can answer NotFound
   exactly when `id'` names no live network, and a Create after that leaves two live networks.
   */
  lemma LostStatusStep(s: State, n: string, id': StatusID)
    requires Invariant(s) && n in s.created && n in s.live
    ensures var lost := s.(id := id', notFound := false);
      && Next(s, Lose, lost)
      && ((exists r :: Next(lost, Read(Some(NotFound), true), r)) <==> id'.None? || id'.value !in s.live)
      && ((id'.None? || id'.value !in s.live) ==>
            forall m: string :: m !in s.issued ==>
              var after := Born(lost, m);
              && Next(lost.(notFound := true), Create(None), after)
              && after.created * after.live == {n, m} && n != m)
  {
    var lost := s.(id := id', notFound := false);
    if id'.None? || id'.value !in s.live {
      assert Next(lost, Read(Some(NotFound), true), lost.(notFound := true));
      assert s.created * s.live == {n} by {
        assert forall k :: k in s.created * s.live ==> s.id == Some(k);
      }
    }
  }

  /** After a Create that succeeded with the ID `m`. */
  function Born(s: State, m: string): State {
    s.(live := s.live + {m}, issued := s.issued + {m}, created := s.created + {m}, id := Some(m), notFound := false)
  }

  lemma {:induction false} UnusedID(used: set<string>) returns (m: string)
    ensures m !in used && forall k :: k in used ==> |k| < |m|
  {
    if used == {} {
      m := "a";
    } else {
      var k :| k in used;
      var longer := UnusedID(used - {k});
      m := longer + k + "a";
      assert forall x :: x in used ==> x == k || x in used - {k};
    }
  }

  /** A run that goes on from `states` with `Lose` to the status `id'` and ends with two live networks. */
  ghost predicate DuplicatesFrom(states: seq<State>, steps: seq<Step>, id': StatusID, all: seq<State>, taken: seq<Step>)
    requires |states| == |steps| + 1
  {
    && IsRun(all, taken) && states <= all && steps + [Lose] <= taken
    && all[|states|].id == id'
    && (forall i :: |steps| < i < |taken| ==> StatusKept(all[i], taken[i], all[i + 1]))
    && |all[|taken|].created * all[|taken|].live| > 1
  }

  /**
   The second assumption is needed, exactly: when a network of this resource is live and its status is
   replaced, some run goes on to two live networks iff the new status is another one. From then on the
   run may keep the status and obey the first assumption; others need at most delete one network.
   */
  lemma LostStatusDuplicates(states: seq<State>, steps: seq<Step>, n: string, id': StatusID)
    requires IsRun(states, steps) && KeepsStatus(states, steps)
    requires n in states[|steps|].created && n in states[|steps|].live
    ensures (exists all, taken :: DuplicatesFrom(states, steps, id', all, taken)) <==> id' != states[|steps|].id
  {
    var s := states[|steps|];
    RunKeepsInvariant(states, steps, |steps|);
    if id' != s.id {
      var all, taken := Duplicate(states, steps, n, id');
      assert DuplicatesFrom(states, steps, id', all, taken);
    } else {
      forall all, taken | DuplicatesFrom(states, steps, id', all, taken) ensures false {
        KeptUpTo(states, steps, all, taken);
        NoSecondNetwork(all, taken, |taken|);
      }
    }
  }

  lemma KeptUpTo(states: seq<State>, steps: seq<Step>, all: seq<State>, taken: seq<Step>)
    requires IsRun(states, steps) && KeepsStatus(states, steps)
    requires DuplicatesFrom(states, steps, states[|steps|].id, all, taken)
    ensures KeepsStatus(all, taken)
  {
    forall i | 0 <= i < |taken| ensures StatusKept(all[i], taken[i], all[i + 1]) {
      if i < |steps| {
        assert all[i] == states[i] && all[i + 1] == states[i + 1] && taken[i] == (steps + [Lose])[i] == steps[i];
      }
    }
  }

  /** The state in which others have deleted what the new status names. */
  function Gone(s: State, id': StatusID): State {
    s.(id := id', notFound := false, live := s.live - if id'.Some? then {id'.value} else {})
  }

  /** Lose, others delete what the new status names, ReadOne answers NotFound, Create succeeds. */
  lemma Duplicate(states: seq<State>, steps: seq<Step>, n: string, id': StatusID)
    returns (all: seq<State>, taken: seq<Step>)
    requires IsRun(states, steps) && Invariant(states[|steps|]) && id' != states[|steps|].id
    requires n in states[|steps|].created && n in states[|steps|].live
    ensures DuplicatesFrom(states, steps, id', all, taken)
  {
    var s := states[|steps|];
    var m := UnusedID(s.issued);
    all, taken := LoseAndCreate(states, steps, id', m);
    Two(Born(Gone(s, id'), m).created * Born(Gone(s, id'), m).live, n, m);
  }

  lemma LoseAndCreate(states: seq<State>, steps: seq<Step>, id': StatusID, m: string)
    returns (all: seq<State>, taken: seq<Step>)
    requires IsRun(states, steps) && m !in states[|steps|].issued
    ensures IsRun(all, taken) && states + [states[|steps|].(id := id', notFound := false)] <= all
    ensures taken == steps + [Lose, Others, Read(Some(NotFound), true), Create(None)]
    ensures all[|taken|] == Born(Gone(states[|steps|], id'), m)
  {
    var s := states[|steps|];
    all, taken := Grow(states, steps, Lose, s.(id := id', notFound := false));
    all, taken := Grow(all, taken, Others, Gone(s, id'));
    all, taken := Grow(all, taken, Read(Some(NotFound), true), Gone(s, id').(notFound := true));
    all, taken := Grow(all, taken, Create(None), Born(Gone(s, id'), m));
  }

  /** A run and one more step. */
  lemma Grow(states: seq<State>, steps: seq<Step>, step: Step, s: State) returns (states': seq<State>, steps': seq<Step>)
    requires IsRun(states, steps) && Next(states[|steps|], step, s)
    ensures IsRun(states', steps') && states' == states + [s] && steps' == steps + [step]
  {
    states', steps' := states + [s], steps + [step];
  }

  lemma Two(s: set<string>, a: string, b: string)
    requires a in s && b in s && a != b
    ensures |s| > 1
  {
    assert s == {a, b} + (s - {a, b});
  }

  /** There are runs as LostStatusDuplicates needs them: the first Create of any network is one. */
  lemma RunToLive(n: string) returns (states: seq<State>, steps: seq<Step>)
    ensures IsRun(states, steps) && KeepsStatus(states, steps)
    ensures n in states[|steps|].created && n in states[|steps|].live
  {
    var s := State({}, {}, {}, None, false);
    states := [s, s.(notFound := true), Born(s, n)];
    steps := [Read(Some(NotFound), true), Create(None)];
  }
}
