/** updateConditions of sdk.go and onError and onSuccess of manager.go, on the CR itself. */
module Conditions {
  import opened Wrappers
  import opened Errors
  import opened Api
  import opened Delta
  import opened Sdk
  import opened ConditionRules

  /** Whatever stands in the slice stood there before or is newly allocated. */
  twostate predicate SlotsKept(ko: GlobalNetwork)
    reads ko, ko.conditions
  {
    && old(ko.conditions) != null && ko.conditions != null
    && (ko.conditions == old(ko.conditions) || fresh(ko.conditions))
    && ko.conditions.Length >= old(ko.conditions.Length)
    && (forall i :: 0 <= i < old(ko.conditions.Length) ==> ko.conditions[i] == old(ko.conditions[i]))
    && (forall i :: old(ko.conditions.Length) <= i < ko.conditions.Length ==> ko.conditions[i] != null && fresh(ko.conditions[i]))
  }

  method WriteCondition(conditions: array<Condition?>, i: nat, status: ConditionStatus, message: Option<string>)
    requires i < conditions.Length && conditions[i] != null && DistinctConditions(conditions)
    modifies conditions[i]
    ensures ConditionViews(conditions[..]) == old(ConditionViews(conditions[..]))
              [i := Some(old(conditions[i].View()).(status := status, message := message))]
  {
    var cell := MakeString(message);
    conditions[i].status, conditions[i].message := status, cell;
    assert forall j :: 0 <= j < conditions.Length && j != i ==> ConditionView(conditions[j]) == old(ConditionView(conditions[j]));
  }

  method SetConditionAt(ko: GlobalNetwork, i: nat, status: ConditionStatus, message: Option<string>)
    requires ko.conditions != null && i < ko.conditions.Length && ko.conditions[i] != null
    requires DistinctConditions(ko.conditions)
    modifies ko.conditions[i]
    ensures ko.View() == old(ko.View()).(conditions := Some(old(ConditionViews(ko.conditions[..]))
              [i := Some(old(ko.conditions[i].View()).(status := status, message := message))]))
  {
    WriteCondition(ko.conditions, i, status, message);
  }

  method Longer(conditions: array<Condition?>, t: ConditionType) returns (longer: array<Condition?>)
    ensures fresh(longer) && longer.Length == conditions.Length + 1
    ensures longer[..conditions.Length] == conditions[..]
    ensures longer[conditions.Length] != null && fresh(longer[conditions.Length])
    ensures ConditionViews(longer[..])
         == old(ConditionViews(conditions[..])) + [Some(ConditionValue(t, Unset, None, None, None))]
  {
    var c := new Condition(t);
    longer := new Condition?[conditions.Length + 1](
      i requires 0 <= i <= conditions.Length reads conditions => if i < conditions.Length then conditions[i] else c);
  }

  method SetConditions(ko: GlobalNetwork, conditions: array<Condition?>, ghost views: seq<Option<ConditionValue>>)
    requires views == ConditionViews(conditions[..])
    modifies ko`conditions
    ensures ko.conditions == conditions
    ensures ko.View() == old(ko.View()).(conditions := Some(views))
  {
    ko.conditions := conditions;
  }

  /** `ko.Status.Conditions = append(ko.Status.Conditions, &Condition{Type: t})`. */
  method AppendCondition(ko: GlobalNetwork, t: ConditionType)
    requires ko.conditions != null && DistinctConditions(ko.conditions)
    modifies ko`conditions
    ensures SlotsKept(ko) && DistinctConditions(ko.conditions)
    ensures ko.conditions.Length == old(ko.conditions.Length) + 1
    ensures ko.View() == old(ko.View()).(conditions := Some(old(ConditionViews(ko.conditions[..]))
              + [Some(ConditionValue(t, Unset, None, None, None))]))
  {
    var longer := Longer(ko.conditions, t);
    SetConditions(ko, longer, ConditionViews(longer[..]));
  }

  /** The conditions of a CR that has a slice of them, without nil slots. */
  ghost function Conds(n: NetworkValue): seq<ConditionValue>
    requires NoNil(n.conditions)
  {
    Listed(n.conditions)
  }

  /** The CR with other conditions. */
  ghost function WithConds(n: NetworkValue, cs: seq<ConditionValue>): (n': NetworkValue)
    ensures NoNil(n'.conditions) && Conds(n') == cs
  {
    n.(conditions := Slots(cs))
  }

  /** Writes the condition that the loop found for a type; `i` is where, -1 if there is none. */
  method SetFound(ko: GlobalNetwork, t: ConditionType, i: int, status: ConditionStatus, message: Option<string>)
    requires ko.conditions != null && DistinctConditions(ko.conditions) && NoNil(ko.View().conditions)
    requires i == LastIndex(Conds(ko.View()), t)
    modifies set c: Condition | ko.conditions != null && c in ko.conditions[..]
    ensures ko.conditions == old(ko.conditions) && ko.conditions[..] == old(ko.conditions[..])
    ensures ko.View() == WithConds(old(ko.View()), SetLast(Conds(old(ko.View())), t, status, message))
  {
    ghost var cs := Conds(ko.View());
    if i >= 0 {
      assert ConditionView(ko.conditions[i]) == Some(cs[i]);
      SetConditionAt(ko, i, status, message);
      assert ko.View().conditions.value == Slots(SetLast(cs, t, status, message)).value;
    } else {
      assert ko.View().conditions.value == Slots(cs).value;
    }
  }

  /** Adds a condition of a type when the loop found none. */
  method AddMissing(ko: GlobalNetwork, t: ConditionType, found: int) returns (i: int)
    requires ko.conditions != null && DistinctConditions(ko.conditions) && NoNil(ko.View().conditions)
    requires found == LastIndex(Conds(ko.View()), t)
    modifies ko`conditions
    ensures SlotsKept(ko) && DistinctConditions(ko.conditions)
    ensures ko.View() == WithConds(old(ko.View()), AddIfMissing(Conds(old(ko.View())), t))
    ensures i == LastIndex(AddIfMissing(Conds(old(ko.View())), t), t)
  {
    ghost var cs := Conds(ko.View());
    i := found;
    if found < 0 {
      AppendCondition(ko, t);
      i := ko.conditions.Length - 1;
      assert ko.View().conditions.value == Slots(AddIfMissing(cs, t)).value;
    } else {
      assert ko.View().conditions.value == Slots(cs).value;
    }
  }

  /** The loop that looks for the three conditions; the last of each type wins. */
  method FindConditions(conditions: array<Condition?>) returns (terminal: int, recoverable: int, sync: int)
    requires NoNil(Some(ConditionViews(conditions[..])))
    ensures var cs := Listed(Some(ConditionViews(conditions[..])));
      && terminal == LastIndex(cs, Terminal) && recoverable == LastIndex(cs, Recoverable)
      && sync == LastIndex(cs, ResourceSynced)
  {
    terminal, recoverable, sync := -1, -1, -1;
    ghost var cs := Listed(Some(ConditionViews(conditions[..])));
    for i := 0 to conditions.Length
      invariant terminal == LastIndex(cs[..i], Terminal) && recoverable == LastIndex(cs[..i], Recoverable)
      invariant sync == LastIndex(cs[..i], ResourceSynced)
    {
      assert ConditionView(conditions[i]) == Some(cs[i]);
      assert cs[..i + 1][..i] == cs[..i];
      if conditions[i].ctype == Terminal {
        terminal := i;
      }
      if conditions[i].ctype == Recoverable {
        recoverable := i;
      }
      if conditions[i].ctype == ResourceSynced {
        sync := i;
      }
    }
    assert cs[..conditions.Length] == cs;
  }

  /** Sets the condition of a type to True with a message, after adding it if it is missing. */
  method Mark(ko: GlobalNetwork, t: ConditionType, found: int, message: string) returns (i: int)
    requires ko.conditions != null && DistinctConditions(ko.conditions) && NoNil(ko.View().conditions)
    requires found == LastIndex(Conds(ko.View()), t)
    modifies ko`conditions, set c: Condition | ko.conditions != null && c in ko.conditions[..]
    ensures SlotsKept(ko) && i >= 0
    ensures ko.View() == WithConds(old(ko.View()),
      SetLast(AddIfMissing(Conds(old(ko.View())), t), t, True, Some(message)))
  {
    i := AddMissing(ko, t, found);
    SetFound(ko, t, i, True, Some(message));
  }

  /** The branch of a terminal error. */
  method MarkTerminal(ko: GlobalNetwork, err: Error, terminal: int) returns (i: int)
    requires IsTerminal(err)
    requires ko.conditions != null && DistinctConditions(ko.conditions) && NoNil(ko.View().conditions)
    requires terminal == LastIndex(Conds(ko.View()), Terminal)
    modifies ko`conditions, set c: Condition | ko.conditions != null && c in ko.conditions[..]
    ensures SlotsKept(ko) && i >= 0
    ensures ko.View() == WithConds(old(ko.View()), Updated(Conds(old(ko.View())), Some(err)))
  {
    var errorMessage;
    if err == SecretTypeNotSupported || err == SecretNotFound || HasTerminalError(err) {
      errorMessage := Text(err);
    } else {
      errorMessage := Text(AsAPIError(err).value);
    }
    i := Mark(ko, Terminal, terminal, errorMessage);
  }

  method MarkRecoverable(ko: GlobalNetwork, err: Error, recoverable: int) returns (i: int)
    requires ko.conditions != null && DistinctConditions(ko.conditions) && NoNil(ko.View().conditions)
    requires recoverable == LastIndex(Conds(ko.View()), Recoverable)
    modifies ko`conditions, set c: Condition | ko.conditions != null && c in ko.conditions[..]
    ensures SlotsKept(ko) && i >= 0
    ensures ko.View() == WithConds(old(ko.View()),
      SetLast(AddIfMissing(Conds(old(ko.View())), Recoverable), Recoverable, True, Some(RecoverableMessage(err))))
  {
    var errorMessage := Text(err);
    if AsAPIError(err).Some? {
      errorMessage := Text(AsAPIError(err).value);
    }
    i := Mark(ko, Recoverable, recoverable, errorMessage);
  }

  /** The branch of a success or of an error that is not terminal. */
  method ClearTerminal(ko: GlobalNetwork, err: Option<Error>, terminal: int, recoverable: int) returns (i: int)
    requires err.Some? ==> !IsTerminal(err.value)
    requires ko.conditions != null && DistinctConditions(ko.conditions) && NoNil(ko.View().conditions)
    requires terminal == LastIndex(Conds(ko.View()), Terminal)
    requires recoverable == LastIndex(Conds(ko.View()), Recoverable)
    modifies ko`conditions, set c: Condition | ko.conditions != null && c in ko.conditions[..]
    ensures SlotsKept(ko) && (i >= 0 <==> recoverable >= 0 || err.Some?)
    ensures ko.View() == WithConds(old(ko.View()), Updated(Conds(old(ko.View())), err))
  {
    i := recoverable;
    SetKeeps(Conds(ko.View()), Terminal, Recoverable, False, None);
    SetFound(ko, Terminal, terminal, False, None);
    if err.Some? {
      i := MarkRecoverable(ko, err.value, recoverable);
    } else {
      SetFound(ko, Recoverable, recoverable, False, None);
    }
  }

  /** No Tag and no Condition that can be reached from the CR existed before. */
  twostate predicate OwnTagsAndConditions(new ko: GlobalNetwork)
    reads ko, ko.tags, ko.conditions
  {
    && (ko.tags != null ==> fresh(ko.tags) && forall i :: 0 <= i < ko.tags.Length && ko.tags[i] != null ==> fresh(ko.tags[i]))
    && (ko.conditions != null ==>
          fresh(ko.conditions)
          && forall i :: 0 <= i < ko.conditions.Length && ko.conditions[i] != null ==> fresh(ko.conditions[i]))
  }

  /** The copy on which updateConditions works: a deep copy with its status defaults. */
  method WorkingCopy(rm: ResourceManager, r: Resource) returns (ko: GlobalNetwork)
    requires r.ko != null && NoNil(r.ko.View().conditions)
    ensures fresh(ko) && OwnTagsAndConditions(ko)
    ensures ko.conditions != null && DistinctConditions(ko.conditions)
    ensures ko.View() == WithDefaults(old(r.ko.View()), old(rm.View()))
  {
    ko := r.ko.DeepCopy();
    ghost var rmView := rm.View();
    SetStatusDefaults(rm, ko);
  }

  method LocateConditions(ko: GlobalNetwork) returns (terminal: int, recoverable: int, sync: int)
    requires ko.conditions != null && NoNil(ko.View().conditions)
    ensures ko.View() == old(ko.View())
    ensures terminal == LastIndex(Conds(ko.View()), Terminal) && recoverable == LastIndex(Conds(ko.View()), Recoverable)
    ensures sync == LastIndex(Conds(ko.View()), ResourceSynced)
  {
    ghost var view := ko.View();
    assert Some(ConditionViews(ko.conditions[..])) == view.conditions;
    terminal, recoverable, sync := FindConditions(ko.conditions);
  }

  /** The part of updateConditions that writes. */
  method ApplyOutcome(ko: GlobalNetwork, err: Option<Error>) returns (reported: bool)
    requires ko.conditions != null && DistinctConditions(ko.conditions) && NoNil(ko.View().conditions)
    modifies ko`conditions, set c: Condition | ko.conditions != null && c in ko.conditions[..]
    ensures SlotsKept(ko)
    ensures ko.View() == WithConds(old(ko.View()), Updated(Conds(old(ko.View())), err))
    ensures reported <==> Reported(Updated(Conds(old(ko.View())), err))
  {
    StepHas(Conds(ko.View()), err);
    var terminal, recoverable, sync := LocateConditions(ko);
    if err.Some? && IsTerminal(err.value) {
      terminal := MarkTerminal(ko, err.value, terminal);
    } else {
      recoverable := ClearTerminal(ko, err, terminal, recoverable);
    }
    reported := terminal >= 0 || recoverable >= 0 || sync >= 0;
  }

  method CopyWithOutcome(rm: ResourceManager, r: Resource, err: Option<Error>) returns (ko: GlobalNetwork, reported: bool)
    requires r.ko != null && NoNil(r.ko.View().conditions)
    ensures fresh(ko) && OwnTagsAndConditions(ko)
    ensures reported <==> Reported(Updated(Conds(old(r.ko.View())), err))
    ensures ko.View() == WithConds(WithDefaults(old(r.ko.View()), old(rm.View())), Updated(Conds(old(r.ko.View())), err))
  {
    ko := WorkingCopy(rm, r);
    assert Conds(ko.View()) == Conds(old(r.ko.View()));
    reported := ApplyOutcome(ko, err);
  }

  /**
   updateConditions. All its writes go to the deep copy: the method may modify nothing that existed
   before, and its result has no Tag and no Condition in common with its input.
   */
  method UpdateConditions(rm: ResourceManager, r: Resource, err: Option<Error>) returns (updated: Resource?, ok: bool)
    requires r.ko != null && NoNil(r.ko.View().conditions)
    ensures ok <==> Reported(Updated(Conds(old(r.ko.View())), err))
    ensures ok <==> updated != null
    ensures updated != null ==>
      && fresh(updated) && updated.ko != null && fresh(updated.ko) && OwnTagsAndConditions(updated.ko)
      && updated.ko.View() == WithConds(WithDefaults(old(r.ko.View()), old(rm.View())),
                                        Updated(Conds(old(r.ko.View())), err))
  {
    var ko;
    ko, ok := CopyWithOutcome(rm, r, err);
    updated := null;
    if ok {
      updated := NewResource(ko);
    }
  }

  /** Whether the loop of onError finds a Terminal condition that is True. */
  method AnyTrueTerminal(conditions: array<Condition?>) returns (found: bool)
    requires NoNil(Some(ConditionViews(conditions[..])))
    ensures found <==> TrueTerminal(Listed(Some(ConditionViews(conditions[..]))))
  {
    ghost var cs := Listed(Some(ConditionViews(conditions[..])));
    for i := 0 to conditions.Length
      invariant forall j :: 0 <= j < i ==> !(cs[j].ctype == Terminal && cs[j].status == True)
    {
      assert ConditionView(conditions[i]) == Some(cs[i]);
      if conditions[i].ctype == Terminal && conditions[i].status == True {
        return true;
      }
    }
    return false;
  }

  method InTerminalCondition(ko: GlobalNetwork) returns (found: bool)
    requires ko.conditions != null && NoNil(ko.View().conditions)
    ensures ko.View() == old(ko.View())
    ensures found <==> TrueTerminal(Conds(ko.View()))
  {
    ghost var view := ko.View();
    assert Some(ConditionViews(ko.conditions[..])) == view.conditions;
    found := AnyTrueTerminal(ko.conditions);
  }

  method OnError(rm: ResourceManager, r: Resource?, err: Error) returns (res: Resource?, e: Error)
    requires r != null ==> r.ko != null && NoNil(r.ko.View().conditions)
    ensures r == null ==> res == null && e == err
    ensures r != null ==>
      && res != null && fresh(res) && res.ko != null && fresh(res.ko) && OwnTagsAndConditions(res.ko)
      && res.ko.View() == WithConds(WithDefaults(old(r.ko.View()), old(rm.View())),
                                    Updated(Conds(old(r.ko.View())), Some(err)))
      && e == ReturnedError(Updated(Conds(old(r.ko.View())), Some(err)), err)
  {
    if r == null {
      return null, err;
    }
    StepHas(Conds(r.ko.View()), Some(err));
    var updated;
    res, updated := UpdateConditions(rm, r, Some(err));
    var terminal := InTerminalCondition(res.ko);
    e := if terminal then ResourceTerminal else err;
  }

  method OnSuccess(rm: ResourceManager, r: Resource?) returns (res: Resource?)
    requires r != null ==> r.ko != null && NoNil(r.ko.View().conditions)
    ensures r == null ==> res == null
    ensures r != null ==>
      if Reported(Updated(Conds(old(r.ko.View())), None)) then
        && res != null && fresh(res) && res.ko != null && fresh(res.ko) && OwnTagsAndConditions(res.ko)
        && res.ko.View() == WithConds(WithDefaults(old(r.ko.View()), old(rm.View())),
                                      Updated(Conds(old(r.ko.View())), None))
      else res == r
  {
    if r == null {
      return null;
    }
    var updated;
    res, updated := UpdateConditions(rm, r, None);
    if !updated {
      res := r;
    }
  }
}
