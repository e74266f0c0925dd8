/**
 Tag lists as values: the specification behind the loops of tags.go.

 A tag list is what a `[]*Tag` slice without nil slots denotes. `TagMap` and `KeyOrder` are the two
 results of convertToOrderedACKTags; `FromTags` is what fromACKTags builds out of them. A Go map is
 iterated in an arbitrary order, so the unordered end of such a list is a parameter, `tail`, and
 every lemma holds for each of its enumerations.
 */
module TagLists {
  import opened Wrappers

  datatype TagValue = TagValue(key: Option<string>, value: Option<string>)

  type TagList = seq<TagValue>

  type TagDict = map<string, string>

  /* ---- Sequences of keys ---- */

  ghost predicate Distinct(ks: seq<string>) {
    forall i, j :: 0 <= i < j < |ks| ==> ks[i] != ks[j]
  }

  function KeySet(ks: seq<string>): set<string> {
    set k | k in ks
  }

  /** `ks` lists every member of `s` once: one of the orders in which Go may iterate over `s`. */
  ghost predicate Enumerates(ks: seq<string>, s: set<string>) {
    Distinct(ks) && KeySet(ks) == s
  }

  lemma EnumeratesAppend(p: seq<string>, q: seq<string>, s: set<string>, t: set<string>)
    requires Enumerates(p, s) && Enumerates(q, t) && s !! t
    ensures Enumerates(p + q, s + t)
  {
    assert KeySet(p + q) == KeySet(p) + KeySet(q);
    forall i, j | 0 <= i < j < |p + q| ensures (p + q)[i] != (p + q)[j] {
      if i < |p| <= j {
        assert p[i] in KeySet(p) && q[j - |p|] in KeySet(q);
      }
    }
  }

  /** The keys of `ks` that `m` has, each at its first position. */
  function Kept(m: TagDict, ks: seq<string>): (r: seq<string>) {
    if ks == [] then []
    else
      var front, last := ks[..|ks| - 1], ks[|ks| - 1];
      Kept(m, front) + if last in m && last !in front then [last] else []
  }

  lemma {:induction false} KeptEnumerates(m: TagDict, ks: seq<string>)
    ensures Enumerates(Kept(m, ks), KeySet(ks) * m.Keys)
  {
    if ks == [] {
    } else {
      var front, last := ks[..|ks| - 1], ks[|ks| - 1];
      KeptEnumerates(m, front);
      assert ks == front + [last];
      assert KeySet(ks) == KeySet(front) + {last};
      if last in m && last !in front {
        assert last !in KeySet(front) * m.Keys;
        EnumeratesAppend(Kept(m, front), [last], KeySet(front) * m.Keys, {last});
      } else {
        assert KeySet(ks) * m.Keys == KeySet(front) * m.Keys by {
          assert last in front ==> last in KeySet(front);
        }
      }
    }
  }

  lemma {:induction false} KeptOfDistinct(m: TagDict, ks: seq<string>)
    requires Distinct(ks) && KeySet(ks) <= m.Keys
    ensures Kept(m, ks) == ks
  {
    if ks == [] {
    } else {
      var front, last := ks[..|ks| - 1], ks[|ks| - 1];
      assert ks == front + [last];
      assert forall k :: k in KeySet(front) ==> k in KeySet(ks);
      assert last in KeySet(ks);
      KeptOfDistinct(m, front);
    }
  }

  /** Where a key kept from `ks` stands is decided by its first occurrence there. */
  lemma {:induction false} KeptKeepsOrder(m: TagDict, ks: seq<string>, i: nat, j: nat)
    requires i < j < |ks| && ks[i] in m && ks[j] in m && ks[i] !in ks[..i] && ks[j] !in ks[..j]
    ensures exists a, b :: 0 <= a < b < |Kept(m, ks)| && Kept(m, ks)[a] == ks[i] && Kept(m, ks)[b] == ks[j]
  {
    var front, last := ks[..|ks| - 1], ks[|ks| - 1];
    KeptEnumerates(m, front);
    if j == |ks| - 1 {
      assert ks[i] in front;
      assert ks[i] in KeySet(Kept(m, front));
      var a :| 0 <= a < |Kept(m, front)| && Kept(m, front)[a] == ks[i];
      assert Kept(m, ks) == Kept(m, front) + [last];
      assert Kept(m, ks)[a] == ks[i] && Kept(m, ks)[|Kept(m, front)|] == ks[j];
    } else {
      assert front[..i] == ks[..i] && front[..j] == ks[..j];
      KeptKeepsOrder(m, front, i, j);
      var a, b :| 0 <= a < b < |Kept(m, front)| && Kept(m, front)[a] == ks[i] && Kept(m, front)[b] == ks[j];
      assert Kept(m, ks)[a] == ks[i] && Kept(m, ks)[b] == ks[j];
    }
  }

  /* ---- List to map: convertToOrderedACKTags ---- */

  /** The non-nil keys of a tag list, duplicates included. */
  function KeyOrder(ts: TagList): seq<string> {
    if ts == [] then []
    else
      var t := ts[|ts| - 1];
      KeyOrder(ts[..|ts| - 1]) + if t.key.Some? then [t.key.value] else []
  }

  /** The map of a tag list: a nil key is dropped, a nil value becomes "", a later tag overwrites an earlier one. */
  function TagMap(ts: TagList): TagDict {
    if ts == [] then map[]
    else
      var t := ts[|ts| - 1];
      var m := TagMap(ts[..|ts| - 1]);
      if t.key.Some? then m[t.key.value := t.value.GetOr("")] else m
  }

  /** Position `i` holds the last tag of the list whose key is `k`. */
  ghost predicate IsLastTag(ts: TagList, i: int, k: string) {
    0 <= i < |ts| && ts[i].key == Some(k) && forall j :: i < j < |ts| ==> ts[j].key != Some(k)
  }

  lemma {:induction false} TagMapIsLastWins(ts: TagList, k: string)
    ensures k in TagMap(ts) <==> exists i :: IsLastTag(ts, i, k)
    ensures forall i :: IsLastTag(ts, i, k) ==> k in TagMap(ts) && TagMap(ts)[k] == ts[i].value.GetOr("")
  {
    if ts == [] {
    } else {
      var n := |ts| - 1;
      var front := ts[..n];
      TagMapIsLastWins(front, k);
      if ts[n].key == Some(k) {
        assert IsLastTag(ts, n, k);
      } else {
        forall i ensures IsLastTag(ts, i, k) <==> IsLastTag(front, i, k) {
          if IsLastTag(front, i, k) {
            assert forall j :: i < j < |ts| ==> j == n || ts[j] == front[j];
          }
          if IsLastTag(ts, i, k) {
            assert forall j :: i < j < |front| ==> ts[j] == front[j];
          }
        }
      }
    }
  }

  lemma {:induction false} KeyOrderKeys(ts: TagList)
    ensures KeySet(KeyOrder(ts)) == TagMap(ts).Keys
  {
    if ts == [] {
    } else {
      var front, t := ts[..|ts| - 1], ts[|ts| - 1];
      KeyOrderKeys(front);
      if t.key.Some? {
        assert KeyOrder(ts) == KeyOrder(front) + [t.key.value];
        assert KeySet(KeyOrder(ts)) == KeySet(KeyOrder(front)) + {t.key.value};
      } else {
        assert KeyOrder(ts) == KeyOrder(front);
      }
    }
  }

  ghost predicate AllKeyed(ts: TagList) {
    forall i :: 0 <= i < |ts| ==> ts[i].key.Some?
  }

  ghost predicate AllValued(ts: TagList) {
    forall i :: 0 <= i < |ts| ==> ts[i].value.Some?
  }

  /** Every key is present and occurs once. */
  ghost predicate DistinctKeys(ts: TagList) {
    AllKeyed(ts) && forall i, j :: 0 <= i < j < |ts| ==> ts[i].key != ts[j].key
  }

  /** Without duplicate keys the order of a list does not matter to its map. */
  lemma TagMapIgnoresOrder(ts: TagList, us: TagList)
    requires DistinctKeys(ts) && DistinctKeys(us) && multiset(ts) == multiset(us)
    ensures TagMap(ts) == TagMap(us)
  {
    forall k ensures k in TagMap(ts) <==> k in TagMap(us)
             ensures k in TagMap(ts) && k in TagMap(us) ==> TagMap(ts)[k] == TagMap(us)[k] {
      SameTagAfterReordering(ts, us, k);
      SameTagAfterReordering(us, ts, k);
    }
    assert TagMap(ts).Keys == TagMap(us).Keys;
  }

  lemma SameTagAfterReordering(ts: TagList, us: TagList, k: string)
    requires DistinctKeys(ts) && DistinctKeys(us) && multiset(ts) == multiset(us)
    ensures k in TagMap(ts) ==> k in TagMap(us) && TagMap(us)[k] == TagMap(ts)[k]
  {
    TagMapIsLastWins(ts, k);
    TagMapIsLastWins(us, k);
    if k in TagMap(ts) {
      var i :| IsLastTag(ts, i, k);
      assert ts[i] in multiset(us);
      var j :| 0 <= j < |us| && us[j] == ts[i];
      assert IsLastTag(us, j, k);
    }
  }

  lemma {:induction false} OccursOnce(ts: TagList, t: TagValue)
    requires DistinctKeys(ts)
    ensures multiset(ts)[t] == if t in ts then 1 else 0
  {
    if ts == [] {
    } else {
      var front, last := ts[..|ts| - 1], ts[|ts| - 1];
      assert ts == front + [last];
      OccursOnce(front, t);
      assert last !in front;
    }
  }

  /** Lists with distinct keys and present values that have one map differ in order only. */
  lemma SameMapReorders(ts: TagList, us: TagList)
    requires DistinctKeys(ts) && AllValued(ts) && DistinctKeys(us) && AllValued(us)
    ensures TagMap(ts) == TagMap(us) <==> multiset(ts) == multiset(us)
  {
    if TagMap(ts) == TagMap(us) {
      forall t ensures multiset(ts)[t] == multiset(us)[t] {
        OccursOnce(ts, t);
        OccursOnce(us, t);
        ListedIffMapped(ts, t);
        ListedIffMapped(us, t);
      }
    } else if multiset(ts) == multiset(us) {
      TagMapIgnoresOrder(ts, us);
    }
  }

  lemma ListedIffMapped(ts: TagList, t: TagValue)
    requires DistinctKeys(ts) && AllValued(ts)
    ensures t in ts <==> t.key.Some? && t.value.Some? && t.key.value in TagMap(ts) && TagMap(ts)[t.key.value] == t.value.value
  {
    if t.key.Some? {
      TagMapIsLastWins(ts, t.key.value);
      if t in ts {
        var i :| 0 <= i < |ts| && ts[i] == t;
        assert IsLastTag(ts, i, t.key.value);
      } else if t.key.value in TagMap(ts) {
        var i :| IsLastTag(ts, i, t.key.value);
        assert ts[i] in ts;
      }
    }
  }

  /* ---- Map to list: fromACKTags ---- */

  /** The list that spells out `m` in the given order of keys. */
  function Entries(m: TagDict, order: seq<string>): (ts: TagList)
    requires KeySet(order) <= m.Keys
    ensures |ts| == |order|
    ensures forall i :: 0 <= i < |order| ==> order[i] in m && ts[i] == TagValue(Some(order[i]), Some(m[order[i]]))
  {
    assert forall i :: 0 <= i < |order| ==> order[i] in KeySet(order);
    seq(|order|, i requires 0 <= i < |order| => TagValue(Some(order[i]), Some(m[order[i]])))
  }

  lemma EntriesAppend(m: TagDict, p: seq<string>, q: seq<string>)
    requires KeySet(p) <= m.Keys && KeySet(q) <= m.Keys && KeySet(p + q) <= m.Keys
    ensures Entries(m, p + q) == Entries(m, p) + Entries(m, q)
  {
  }

  /** Ordered keys first, then the left-over keys in the order `tail`. */
  ghost function FromTags(m: TagDict, ks: seq<string>, tail: seq<string>): TagList
    requires Enumerates(tail, m.Keys - KeySet(ks))
  {
    KeptEnumerates(m, ks);
    Entries(m, Kept(m, ks)) + Entries(m, tail)
  }

  lemma FromTagsIsEntries(m: TagDict, ks: seq<string>, tail: seq<string>)
    requires Enumerates(tail, m.Keys - KeySet(ks))
    ensures Enumerates(Kept(m, ks) + tail, m.Keys)
    ensures FromTags(m, ks, tail) == Entries(m, Kept(m, ks) + tail)
  {
    KeptEnumerates(m, ks);
    var p := Kept(m, ks);
    EnumeratesAppend(p, tail, KeySet(ks) * m.Keys, m.Keys - KeySet(ks));
    assert m.Keys == KeySet(ks) * m.Keys + (m.Keys - KeySet(ks));
    EntriesAppend(m, p, tail);
  }

  lemma {:induction false} EntriesKeyOrder(m: TagDict, order: seq<string>)
    requires KeySet(order) <= m.Keys
    ensures KeyOrder(Entries(m, order)) == order
  {
    if order == [] {
    } else {
      var front := order[..|order| - 1];
      assert KeySet(front) <= KeySet(order);
      EntriesKeyOrder(m, front);
      assert Entries(m, order)[..|order| - 1] == Entries(m, front);
    }
  }

  lemma {:induction false} EntriesMap(m: TagDict, order: seq<string>)
    requires KeySet(order) <= m.Keys
    ensures TagMap(Entries(m, order)) == map k | k in KeySet(order) :: m[k]
  {
    if order == [] {
    } else {
      var front, last := order[..|order| - 1], order[|order| - 1];
      assert order == front + [last];
      assert KeySet(order) == KeySet(front) + {last};
      EntriesMap(m, front);
      assert Entries(m, order)[..|order| - 1] == Entries(m, front);
    }
  }

  lemma EntriesRoundTrip(m: TagDict, order: seq<string>)
    requires Enumerates(order, m.Keys)
    ensures TagMap(Entries(m, order)) == m
    ensures KeyOrder(Entries(m, order)) == order
    ensures DistinctKeys(Entries(m, order)) && AllValued(Entries(m, order))
  {
    EntriesMap(m, order);
    EntriesKeyOrder(m, order);
  }

  /** Map to list to map is the identity, for every key order, and no key is listed twice. */
  lemma MapListMapRoundTrip(m: TagDict, ks: seq<string>, tail: seq<string>)
    requires Enumerates(tail, m.Keys - KeySet(ks))
    ensures TagMap(FromTags(m, ks, tail)) == m
    ensures DistinctKeys(FromTags(m, ks, tail)) && |FromTags(m, ks, tail)| == |m|
    ensures KeyOrder(FromTags(m, ks, tail)) == Kept(m, ks) + tail
  {
    FromTagsIsEntries(m, ks, tail);
    EntriesRoundTrip(m, Kept(m, ks) + tail);
    DistinctCount(Kept(m, ks) + tail);
  }

  lemma {:induction false} DistinctCount(ks: seq<string>)
    requires Distinct(ks)
    ensures |KeySet(ks)| == |ks|
  {
    if ks == [] {
    } else {
      var front, last := ks[..|ks| - 1], ks[|ks| - 1];
      DistinctCount(front);
      assert ks == front + [last];
      assert KeySet(ks) == KeySet(front) + {last};
      assert last !in KeySet(front);
    }
  }

  /* ---- Normalization: fromACKTags after convertToOrderedACKTags ---- */

  /** Each key at its first position with its last value. */
  ghost function Normalize(ts: TagList): TagList {
    KeptEnumerates(TagMap(ts), KeyOrder(ts));
    Entries(TagMap(ts), Kept(TagMap(ts), KeyOrder(ts)))
  }

  /** After convertToOrderedACKTags nothing is left over, so fromACKTags is deterministic. */
  lemma NormalizeIsFromTags(ts: TagList, tail: seq<string>)
    requires Enumerates(tail, TagMap(ts).Keys - KeySet(KeyOrder(ts)))
    ensures tail == [] && FromTags(TagMap(ts), KeyOrder(ts), tail) == Normalize(ts)
  {
    KeyOrderKeys(ts);
    EmptyTail(tail);
  }

  lemma EmptyTail(tail: seq<string>)
    ensures KeySet(tail) == {} <==> tail == []
  {
    if tail != [] {
      assert tail[0] in KeySet(tail);
    }
  }

  lemma NormalizeMap(ts: TagList)
    ensures TagMap(Normalize(ts)) == TagMap(ts)
    ensures DistinctKeys(Normalize(ts)) && AllValued(Normalize(ts))
    ensures KeyOrder(Normalize(ts)) == Kept(TagMap(ts), KeyOrder(ts))
  {
    KeyOrderKeys(ts);
    KeptEnumerates(TagMap(ts), KeyOrder(ts));
    EntriesRoundTrip(TagMap(ts), Kept(TagMap(ts), KeyOrder(ts)));
  }

  lemma {:induction false} KeyOrderOfKeyed(ts: TagList)
    requires AllKeyed(ts)
    ensures |KeyOrder(ts)| == |ts|
    ensures forall i :: 0 <= i < |ts| ==> ts[i].key == Some(KeyOrder(ts)[i])
  {
    if ts == [] {
    } else {
      KeyOrderOfKeyed(ts[..|ts| - 1]);
    }
  }

  /** A list is normal exactly when its keys are present and distinct and its values are present. */
  lemma NormalForms(ts: TagList)
    ensures Normalize(ts) == ts <==> DistinctKeys(ts) && AllValued(ts)
  {
    NormalizeMap(ts);
    if DistinctKeys(ts) && AllValued(ts) {
      KeyOrderOfKeyed(ts);
      KeyOrderKeys(ts);
      var ks := KeyOrder(ts);
      assert Distinct(ks) by {
        forall i, j | 0 <= i < j < |ks| ensures ks[i] != ks[j] {
          assert ts[i].key != ts[j].key;
        }
      }
      KeptOfDistinct(TagMap(ts), ks);
      assert |Normalize(ts)| == |ts|;
      forall i | 0 <= i < |ts| ensures Normalize(ts)[i] == ts[i] {
        assert IsLastTag(ts, i, ks[i]);
        TagMapIsLastWins(ts, ks[i]);
      }
    }
  }

  lemma NormalizeIdempotent(ts: TagList)
    ensures Normalize(Normalize(ts)) == Normalize(ts)
  {
    NormalizeMap(ts);
    NormalForms(Normalize(ts));
  }
}
