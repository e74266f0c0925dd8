/** Optional values, and the slices of pointers made of them, as values. */
module Wrappers {

  datatype Option<+T> = None | Some(value: T) {

    function GetOr(default: T): T {
      match this
      case Some(v) => v
      case None => default
    }
  }

  /* ---- Slices of pointers: None is the nil slice, a None slot a nil pointer ---- */

  /** No slot is nil: a loop may dereference every slot. */
  ghost predicate NoNil<T>(slots: Option<seq<Option<T>>>) {
    slots.Some? ==> forall i :: 0 <= i < |slots.value| ==> slots.value[i].Some?
  }

  /** The list that a slice denotes; a nil slice denotes the empty list. */
  ghost function Listed<T>(slots: Option<seq<Option<T>>>): (ts: seq<T>)
    requires NoNil(slots)
    ensures |ts| == if slots.Some? then |slots.value| else 0
    ensures forall i :: 0 <= i < |ts| ==> slots.value[i] == Some(ts[i])
  {
    if slots.None? then [] else seq(|slots.value|, i requires 0 <= i < |slots.value| => slots.value[i].value)
  }

  /** The slice that lists the given elements. */
  ghost function Slots<T>(ts: seq<T>): (slots: Option<seq<Option<T>>>)
    ensures slots.Some? && |slots.value| == |ts| && forall i :: 0 <= i < |ts| ==> slots.value[i] == Some(ts[i])
  {
    Some(seq(|ts|, i requires 0 <= i < |ts| => Some(ts[i])))
  }

  lemma ListedSlots<T>(ts: seq<T>)
    ensures NoNil(Slots(ts)) && Listed(Slots(ts)) == ts
  {
  }
}
