/**
 The condition state machine of updateConditions, onError and onSuccess, on condition lists.

 One step takes an outcome: None for onSuccess, an error for onError. When several conditions have one
 type, the step reads and writes the last of them.
 */
module ConditionRules {
  import opened Wrappers
  import opened Errors
  import opened Api

  type Conditions = seq<ConditionValue>

  /** The position of the last condition of a type, or -1. */
  function LastIndex(cs: Conditions, t: ConditionType): (i: int)
    ensures -1 <= i < |cs|
    ensures i >= 0 ==> cs[i].ctype == t
    ensures forall j :: i < j < |cs| ==> cs[j].ctype != t
  {
    if cs == [] then -1
    else if cs[|cs| - 1].ctype == t then |cs| - 1
    else LastIndex(cs[..|cs| - 1], t)
  }

  predicate Has(cs: Conditions, t: ConditionType) {
    LastIndex(cs, t) >= 0
  }

  /** The condition of a type that counts is True. */
  predicate IsTrue(cs: Conditions, t: ConditionType) {
    Has(cs, t) && cs[LastIndex(cs, t)].status == True
  }

  function SetLast(cs: Conditions, t: ConditionType, status: ConditionStatus, message: Option<string>): Conditions {
    var i := LastIndex(cs, t);
    if i < 0 then cs else cs[i := cs[i].(status := status, message := message)]
  }

  function AddIfMissing(cs: Conditions, t: ConditionType): Conditions {
    if Has(cs, t) then cs else cs + [ConditionValue(t, Unset, None, None, None)]
  }

  function TerminalMessage(err: Error): string
    requires IsTerminal(err)
  {
    if err == SecretTypeNotSupported || err == SecretNotFound || HasTerminalError(err) then Text(err)
    else Text(AsAPIError(err).value)
  }

  function RecoverableMessage(err: Error): string {
    if AsAPIError(err).Some? then Text(AsAPIError(err).value) else Text(err)
  }

  /** The conditions after updateConditions. */
  function Updated(cs: Conditions, outcome: Option<Error>): Conditions {
    if outcome.Some? && IsTerminal(outcome.value) then
      SetLast(AddIfMissing(cs, Terminal), Terminal, True, Some(TerminalMessage(outcome.value)))
    else
      var cleared := SetLast(cs, Terminal, False, None);
      if outcome.Some? then
        SetLast(AddIfMissing(cleared, Recoverable), Recoverable, True, Some(RecoverableMessage(outcome.value)))
      else
        SetLast(cleared, Recoverable, False, None)
  }

  /** Whether updateConditions reports that there is something to return. */
  predicate Reported(cs: Conditions) {
    Has(cs, Terminal) || Has(cs, Recoverable) || Has(cs, ResourceSynced)
  }

  predicate TrueTerminal(cs: Conditions) {
    exists i :: 0 <= i < |cs| && cs[i].ctype == Terminal && cs[i].status == True
  }

  /** The error that onError returns with the updated resource. */
  function ReturnedError(cs: Conditions, err: Error): Error {
    if TrueTerminal(cs) then ResourceTerminal else err
  }

  function Run(cs: Conditions, outcomes: seq<Option<Error>>): Conditions {
    if outcomes == [] then cs
    else Updated(Run(cs, outcomes[..|outcomes| - 1]), outcomes[|outcomes| - 1])
  }

  /* ---- One step ---- */

  lemma LastIndexUnique(cs: Conditions, t: ConditionType, i: int)
    requires -1 <= i < |cs| && (i >= 0 ==> cs[i].ctype == t) && forall j :: i < j < |cs| ==> cs[j].ctype != t
    ensures LastIndex(cs, t) == i
  {
  }

  lemma SetKeeps(cs: Conditions, t: ConditionType, u: ConditionType, status: ConditionStatus, message: Option<string>)
    ensures var cs' := SetLast(cs, t, status, message);
      && LastIndex(cs', u) == LastIndex(cs, u)
      && (Has(cs, t) ==> cs'[LastIndex(cs, t)].status == status)
      && (u != t && Has(cs, u) ==> cs'[LastIndex(cs, u)] == cs[LastIndex(cs, u)])
  {
    LastIndexUnique(SetLast(cs, t, status, message), u, LastIndex(cs, u));
  }

  lemma AddKeeps(cs: Conditions, t: ConditionType, u: ConditionType)
    ensures var a := AddIfMissing(cs, t);
      && Has(a, t)
      && (u != t ==> LastIndex(a, u) == LastIndex(cs, u) && (Has(cs, u) ==> a[LastIndex(cs, u)] == cs[LastIndex(cs, u)]))
  {
    if !Has(cs, t) {
      var a := AddIfMissing(cs, t);
      LastIndexUnique(a, t, |cs|);
      LastIndexUnique(a, u, if u == t then |cs| else LastIndex(cs, u));
    }
  }

  lemma AddThenSet(cs: Conditions, t: ConditionType, u: ConditionType, status: ConditionStatus, message: Option<string>)
    ensures var cs' := SetLast(AddIfMissing(cs, t), t, status, message);
      && Has(cs', t) && cs'[LastIndex(cs', t)].status == status
      && (u != t ==> LastIndex(cs', u) == LastIndex(cs, u)
                     && (Has(cs, u) ==> cs'[LastIndex(cs, u)] == cs[LastIndex(cs, u)]))
  {
    var a := AddIfMissing(cs, t);
    AddKeeps(cs, t, u);
    SetKeeps(a, t, t, status, message);
    SetKeeps(a, t, u, status, message);
  }

  /** What a step does to Terminal and Recoverable, for any list. */
  lemma StepStatus(cs: Conditions, outcome: Option<Error>)
    ensures IsTrue(Updated(cs, outcome), Terminal) <==> outcome.Some? && IsTerminal(outcome.value)
    ensures IsTrue(Updated(cs, outcome), Recoverable)
            <==> outcome.Some? && (!IsTerminal(outcome.value) || IsTrue(cs, Recoverable))
  {
    if outcome.Some? && IsTerminal(outcome.value) {
      AddThenSet(cs, Terminal, Recoverable, True, Some(TerminalMessage(outcome.value)));
    } else {
      var cleared := SetLast(cs, Terminal, False, None);
      SetKeeps(cs, Terminal, Terminal, False, None);
      SetKeeps(cs, Terminal, Recoverable, False, None);
      if outcome.Some? {
        AddThenSet(cleared, Recoverable, Terminal, True, Some(RecoverableMessage(outcome.value)));
      } else {
        SetKeeps(cleared, Recoverable, Recoverable, False, None);
        SetKeeps(cleared, Recoverable, Terminal, False, None);
      }
    }
  }

  /** The condition of a type that counts, if there is one. */
  function Counting(cs: Conditions, t: ConditionType): Option<ConditionValue> {
    if Has(cs, t) then Some(cs[LastIndex(cs, t)]) else None
  }

  /** A condition with a new status and message; what it lacks otherwise is that of a new one. */
  function Rewritten(before: Option<ConditionValue>, t: ConditionType, status: ConditionStatus, message: Option<string>):
    ConditionValue
  {
    before.GetOr(ConditionValue(t, Unset, None, None, None)).(status := status, message := message)
  }

  lemma SetWrites(cs: Conditions, t: ConditionType, u: ConditionType, status: ConditionStatus, message: Option<string>)
    ensures var cs' := SetLast(cs, t, status, message);
      Counting(cs', u) == if u == t && Has(cs, t) then Some(Rewritten(Counting(cs, t), t, status, message)) else Counting(cs, u)
  {
    SetKeeps(cs, t, u, status, message);
  }

  lemma AddWrites(cs: Conditions, t: ConditionType, u: ConditionType, status: ConditionStatus, message: Option<string>)
    ensures var cs' := SetLast(AddIfMissing(cs, t), t, status, message);
      Counting(cs', u) == if u == t then Some(Rewritten(Counting(cs, t), t, status, message)) else Counting(cs, u)
  {
    AddKeeps(cs, t, u);
    AddKeeps(cs, t, t);
    SetWrites(AddIfMissing(cs, t), t, u, status, message);
    if !Has(cs, t) {
      LastIndexUnique(AddIfMissing(cs, t), t, |cs|);
    }
  }

  /** What a step writes: status True with a message, or False without one; reason and time are left alone. */
  lemma StepWrites(cs: Conditions, outcome: Option<Error>)
    ensures outcome.Some? && IsTerminal(outcome.value) ==>
      && Counting(Updated(cs, outcome), Terminal)
         == Some(Rewritten(Counting(cs, Terminal), Terminal, True, Some(TerminalMessage(outcome.value))))
      && Counting(Updated(cs, outcome), Recoverable) == Counting(cs, Recoverable)
    ensures !(outcome.Some? && IsTerminal(outcome.value)) ==>
      && Counting(Updated(cs, outcome), Terminal)
         == (if Has(cs, Terminal) then Some(Rewritten(Counting(cs, Terminal), Terminal, False, None)) else None)
      && Counting(Updated(cs, outcome), Recoverable)
         == if outcome.Some? then
              Some(Rewritten(Counting(cs, Recoverable), Recoverable, True, Some(RecoverableMessage(outcome.value))))
            else if Has(cs, Recoverable) then Some(Rewritten(Counting(cs, Recoverable), Recoverable, False, None))
            else None
  {
    if outcome.Some? && IsTerminal(outcome.value) {
      AddWrites(cs, Terminal, Terminal, True, Some(TerminalMessage(outcome.value)));
      AddWrites(cs, Terminal, Recoverable, True, Some(TerminalMessage(outcome.value)));
    } else {
      var cleared := SetLast(cs, Terminal, False, None);
      SetWrites(cs, Terminal, Terminal, False, None);
      SetWrites(cs, Terminal, Recoverable, False, None);
      if outcome.Some? {
        AddWrites(cleared, Recoverable, Terminal, True, Some(RecoverableMessage(outcome.value)));
        AddWrites(cleared, Recoverable, Recoverable, True, Some(RecoverableMessage(outcome.value)));
      } else {
        SetWrites(cleared, Recoverable, Terminal, False, None);
        SetWrites(cleared, Recoverable, Recoverable, False, None);
      }
    }
  }

  /**
   The messages. A recoverable one is the text of the first API error on the chain, or else that of the
   error itself; a terminal one is the text of the error itself if it is a bare secret error or has a
   TerminalError on its chain, and that of the first API error otherwise.
   */
  lemma MessageIsText(err: Error)
    ensures forall i: nat :: FirstAPIError(err, i) ==> RecoverableMessage(err) == Text(Chain(err)[i])
    ensures (forall i: nat :: i < |Chain(err)| ==> !Chain(err)[i].APIError?) ==> RecoverableMessage(err) == Text(err)
    ensures IsTerminal(err) && (TerminalOnChain(err) || err == SecretTypeNotSupported || err == SecretNotFound) ==>
      TerminalMessage(err) == Text(err)
    ensures IsTerminal(err) && !(TerminalOnChain(err) || err == SecretTypeNotSupported || err == SecretNotFound) ==>
      exists i: nat :: FirstAPIError(err, i) && TerminalMessage(err) == Text(Chain(err)[i])
  {
    FindsFirst(err);
    FindsTerminal(err);
  }

  /** When updateConditions reports something: after every error, and after a success if one of the three is there. */
  lemma ReportedExactly(cs: Conditions, outcome: Option<Error>)
    ensures Reported(Updated(cs, outcome))
            <==> outcome.Some? || exists i :: 0 <= i < |cs| && cs[i].ctype in {Terminal, Recoverable, ResourceSynced}
  {
    StepHas(cs, outcome);
  }

  /** Which of the three conditions are there after a step. */
  lemma StepHas(cs: Conditions, outcome: Option<Error>)
    ensures Has(Updated(cs, outcome), Terminal) <==> Has(cs, Terminal) || (outcome.Some? && IsTerminal(outcome.value))
    ensures Has(Updated(cs, outcome), Recoverable) <==> Has(cs, Recoverable) || (outcome.Some? && !IsTerminal(outcome.value))
    ensures Has(Updated(cs, outcome), ResourceSynced) <==> Has(cs, ResourceSynced)
  {
    if outcome.Some? && IsTerminal(outcome.value) {
      AddThenSet(cs, Terminal, Recoverable, True, Some(TerminalMessage(outcome.value)));
      AddThenSet(cs, Terminal, ResourceSynced, True, Some(TerminalMessage(outcome.value)));
    } else {
      var cleared := SetLast(cs, Terminal, False, None);
      SetKeeps(cs, Terminal, Terminal, False, None);
      SetKeeps(cs, Terminal, Recoverable, False, None);
      SetKeeps(cs, Terminal, ResourceSynced, False, None);
      if outcome.Some? {
        AddThenSet(cleared, Recoverable, Terminal, True, Some(RecoverableMessage(outcome.value)));
        AddThenSet(cleared, Recoverable, ResourceSynced, True, Some(RecoverableMessage(outcome.value)));
      } else {
        SetKeeps(cleared, Recoverable, Recoverable, False, None);
        SetKeeps(cleared, Recoverable, Terminal, False, None);
        SetKeeps(cleared, Recoverable, ResourceSynced, False, None);
      }
    }
  }

  /** The number of the two managed conditions that the list lacks. */
  function Missing(cs: Conditions): nat {
    (if Has(cs, Terminal) then 0 else 1) + if Has(cs, Recoverable) then 0 else 1
  }

  ghost predicate AtMostOne(cs: Conditions, t: ConditionType) {
    forall i, j :: 0 <= i < j < |cs| ==> !(cs[i].ctype == t && cs[j].ctype == t)
  }

  /** `after` is `before` with managed conditions rewritten in place and missing ones appended. */
  ghost predicate Extends(before: Conditions, after: Conditions) {
    && |after| + Missing(after) == |before| + Missing(before)
    && Missing(after) <= Missing(before)
    && (forall i :: 0 <= i < |before| ==> after[i].ctype == before[i].ctype)
    && (forall i :: 0 <= i < |before| && before[i].ctype != Terminal && before[i].ctype != Recoverable ==>
          after[i] == before[i])
    && (forall i :: |before| <= i < |after| ==>
          && (after[i].ctype == Terminal || after[i].ctype == Recoverable)
          && !Has(before, after[i].ctype))
    && forall t :: AtMostOne(before, t) ==> AtMostOne(after, t)
  }

  lemma ExtendsTransitive(a: Conditions, b: Conditions, c: Conditions)
    requires Extends(a, b) && Extends(b, c)
    ensures Extends(a, c)
  {
  }

  lemma SetExtends(cs: Conditions, t: ConditionType, status: ConditionStatus, message: Option<string>)
    requires t == Terminal || t == Recoverable
    ensures Extends(cs, SetLast(cs, t, status, message))
  {
    SetKeeps(cs, t, Terminal, status, message);
    SetKeeps(cs, t, Recoverable, status, message);
  }

  lemma AddExtends(cs: Conditions, t: ConditionType)
    requires t == Terminal || t == Recoverable
    ensures Extends(cs, AddIfMissing(cs, t))
  {
    var a := AddIfMissing(cs, t);
    assert !Has(cs, t) ==> forall i :: 0 <= i < |cs| ==> a[i] == cs[i] && a[i].ctype != t;
    forall u | u == Terminal || u == Recoverable ensures Has(a, u) <==> Has(cs, u) || u == t {
      LastIndexUnique(a, u, if u == t && !Has(cs, t) then |cs| else LastIndex(cs, u));
    }
  }

  lemma StepExtends(cs: Conditions, outcome: Option<Error>)
    ensures Extends(cs, Updated(cs, outcome))
  {
    if outcome.Some? && IsTerminal(outcome.value) {
      var a := AddIfMissing(cs, Terminal);
      AddExtends(cs, Terminal);
      SetExtends(a, Terminal, True, Some(TerminalMessage(outcome.value)));
      ExtendsTransitive(cs, a, Updated(cs, outcome));
    } else {
      var cleared := SetLast(cs, Terminal, False, None);
      SetExtends(cs, Terminal, False, None);
      if outcome.Some? {
        var a := AddIfMissing(cleared, Recoverable);
        AddExtends(cleared, Recoverable);
        SetExtends(a, Recoverable, True, Some(RecoverableMessage(outcome.value)));
        ExtendsTransitive(cleared, a, Updated(cs, outcome));
      } else {
        SetExtends(cleared, Recoverable, False, None);
      }
      ExtendsTransitive(cs, cleared, Updated(cs, outcome));
    }
  }

  /* ---- Whole runs ---- */

  /**
   Condition history. After any run, Terminal is True exactly when the latest outcome was a terminal
   error; Recoverable is True exactly when a non-terminal error has occurred since the last success
   (terminal errors in between do not matter). The initial list decides only what no outcome decided.
   */
  lemma History(cs: Conditions, outcomes: seq<Option<Error>>)
    ensures IsTrue(Run(cs, outcomes), Terminal)
            <==> if outcomes == [] then IsTrue(cs, Terminal)
                 else outcomes[|outcomes| - 1].Some? && IsTerminal(outcomes[|outcomes| - 1].value)
    ensures IsTrue(Run(cs, outcomes), Recoverable)
            <==> RecoverableSince(outcomes) || (IsTrue(cs, Recoverable) && None !in outcomes)
  {
    if outcomes != [] {
      StepStatus(Run(cs, outcomes[..|outcomes| - 1]), outcomes[|outcomes| - 1]);
    }
    RecoverableHistory(cs, outcomes);
  }

  lemma {:induction false} RecoverableHistory(cs: Conditions, outcomes: seq<Option<Error>>)
    ensures IsTrue(Run(cs, outcomes), Recoverable)
            <==> RecoverableSince(outcomes) || (IsTrue(cs, Recoverable) && None !in outcomes)
  {
    if outcomes == [] {
    } else {
      var front, last := outcomes[..|outcomes| - 1], outcomes[|outcomes| - 1];
      assert outcomes == front + [last];
      RecoverableHistory(cs, front);
      StepStatus(Run(cs, front), last);
      RecoverableStep(front, last);
      SuccessStep(front, last);
    }
  }

  lemma SuccessStep(front: seq<Option<Error>>, last: Option<Error>)
    ensures None in front + [last] <==> None in front || last == None
  {
  }

  /** Some non-terminal error has no success after it. */
  ghost predicate RecoverableSince(outcomes: seq<Option<Error>>) {
    exists i :: 0 <= i < |outcomes| && outcomes[i].Some? && !IsTerminal(outcomes[i].value) && None !in outcomes[i..]
  }

  lemma RecoverableStep(front: seq<Option<Error>>, last: Option<Error>)
    ensures RecoverableSince(front + [last])
            <==> last.Some? && (!IsTerminal(last.value) || RecoverableSince(front))
  {
    var all := front + [last];
    assert forall i :: 0 <= i <= |front| ==> all[i..] == front[i..] + [last];
    if last.Some? && !IsTerminal(last.value) {
      assert all[|front|].Some? && None !in all[|front|..];
    }
    if last.Some? && RecoverableSince(front) {
      var i :| 0 <= i < |front| && front[i].Some? && !IsTerminal(front[i].value) && None !in front[i..];
      assert all[i].Some? && None !in all[i..];
    }
    if RecoverableSince(all) {
      var i :| 0 <= i < |all| && all[i].Some? && !IsTerminal(all[i].value) && None !in all[i..];
      assert all[i..][|all| - 1 - i] == last;
      if i < |front| {
        assert front[i].Some? && None !in front[i..];
      }
    }
  }

  /** From a list without Terminal and Recoverable the run alone decides. */
  lemma HistoryFromScratch(cs: Conditions, outcomes: seq<Option<Error>>)
    requires !Has(cs, Terminal) && !Has(cs, Recoverable)
    ensures IsTrue(Run(cs, outcomes), Terminal)
            <==> outcomes != [] && outcomes[|outcomes| - 1].Some? && IsTerminal(outcomes[|outcomes| - 1].value)
    ensures IsTrue(Run(cs, outcomes), Recoverable) <==> RecoverableSince(outcomes)
    ensures |Run(cs, outcomes)| <= |cs| + 2
    ensures AtMostOne(Run(cs, outcomes), Terminal) && AtMostOne(Run(cs, outcomes), Recoverable)
  {
    History(cs, outcomes);
    RunExtends(cs, outcomes);
  }

  /** No run reorders, drops or duplicates a condition, or changes one of another type. */
  lemma {:induction false} RunExtends(cs: Conditions, outcomes: seq<Option<Error>>)
    ensures Extends(cs, Run(cs, outcomes))
  {
    if outcomes == [] {
    } else {
      var front := outcomes[..|outcomes| - 1];
      RunExtends(cs, front);
      StepExtends(Run(cs, front), outcomes[|outcomes| - 1]);
      ExtendsTransitive(cs, Run(cs, front), Run(cs, outcomes));
    }
  }

  /* ---- The error that onError returns ---- */

  /** A Terminal condition that is True, but is not the one that counts. */
  ghost predicate StaleTerminal(cs: Conditions) {
    exists i :: 0 <= i < |cs| && i != LastIndex(cs, Terminal) && cs[i].ctype == Terminal && cs[i].status == True
  }

  lemma StaleAfterSet(cs: Conditions, t: ConditionType, status: ConditionStatus, message: Option<string>)
    requires t == Terminal || t == Recoverable
    ensures StaleTerminal(SetLast(cs, t, status, message)) <==> StaleTerminal(cs)
  {
    var cs' := SetLast(cs, t, status, message);
    SetKeeps(cs, t, Terminal, status, message);
    forall i | 0 <= i < |cs| && cs[i].ctype == Terminal && i != LastIndex(cs, Terminal) ensures cs'[i] == cs[i] {
    }
    assert forall i :: 0 <= i < |cs| ==> cs'[i].ctype == cs[i].ctype;
  }

  lemma StaleAfterAdd(cs: Conditions, t: ConditionType)
    requires t == Terminal || t == Recoverable
    ensures StaleTerminal(AddIfMissing(cs, t)) <==> StaleTerminal(cs)
  {
  }

  lemma StaleTerminalStays(cs: Conditions, err: Error)
    ensures StaleTerminal(Updated(cs, Some(err))) <==> StaleTerminal(cs)
  {
    if IsTerminal(err) {
      StaleAfterAdd(cs, Terminal);
      StaleAfterSet(AddIfMissing(cs, Terminal), Terminal, True, Some(TerminalMessage(err)));
    } else {
      var cleared := SetLast(cs, Terminal, False, None);
      StaleAfterSet(cs, Terminal, False, None);
      StaleAfterAdd(cleared, Recoverable);
      StaleAfterSet(AddIfMissing(cleared, Recoverable), Recoverable, True, Some(RecoverableMessage(err)));
    }
  }

  /**
   Terminal error classification, for any list: onError answers with the terminal sentinel exactly for
   the errors that updateConditions calls terminal and, beyond that, whenever a second Terminal
   condition was left True -- which no list with at most one Terminal condition has -- or the error
   already is the sentinel, which is no terminal error itself.
   */
  lemma OnErrorClassifies(cs: Conditions, err: Error)
    ensures ReturnedError(Updated(cs, Some(err)), err) == ResourceTerminal
            <==> FirstCode(err, "ValidationException") || TerminalOnChain(err)
                 || err == SecretTypeNotSupported || err == SecretNotFound
                 || StaleTerminal(cs) || err == ResourceTerminal
    ensures ReturnedError(Updated(cs, Some(err)), err) == ResourceTerminal || ReturnedError(Updated(cs, Some(err)), err) == err
    ensures AtMostOne(cs, Terminal) ==> !StaleTerminal(cs)
  {
    StepStatus(cs, Some(err));
    StaleTerminalStays(cs, err);
    TerminalExactly(err);
  }

  /** For an error of the AWS SDK the first API error on its chain decides. */
  lemma OnSDKError(cs: Conditions, err: Error)
    requires FromSDK(err)
    ensures ReturnedError(Updated(cs, Some(err)), err)
         == if FirstCode(err, "ValidationException") || StaleTerminal(cs) then ResourceTerminal else err
    ensures IsTrue(Updated(cs, Some(err)), Terminal) <==> FirstCode(err, "ValidationException")
    ensures IsTrue(Updated(cs, Some(err)), Recoverable) <==> !FirstCode(err, "ValidationException") || IsTrue(cs, Recoverable)
  {
    OnErrorClassifies(cs, err);
    StepStatus(cs, Some(err));
    TerminalExactly(err);
  }

  /** With two Terminal conditions a recoverable error can be reported as terminal. */
  lemma DuplicateTerminalMisleads()
    ensures var t := ConditionValue(Terminal, True, None, None, None);
      !IsTerminal(NotFound) && ReturnedError(Updated([t, t], Some(NotFound)), NotFound) == ResourceTerminal
  {
  }
}
