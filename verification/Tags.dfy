/**
 tags.go: the loops that convert between tag slices and acktags.Tags maps, and the two that change
 such a map in place. A Go map is a reference, so acktags.Tags is a class here; `for k := range m`
 visits the keys that are still there, in any order.
 */
module Tags {
  import opened Wrappers
  import opened TagLists
  import opened TagRules
  import opened Api

  class AckTags {
    var entries: TagDict

    constructor ()
      ensures entries == map[]
    {
      entries := map[];
    }
  }

  method ConvertToOrderedACKTags(tags: array?<Tag?>) returns (result: AckTags, keyOrder: seq<string>)
    requires NoNil(TagSliceView(tags))
    ensures fresh(result)
    ensures result.entries == TagMap(Listed(old(TagSliceView(tags))))
    ensures keyOrder == KeyOrder(Listed(old(TagSliceView(tags))))
  {
    result := new AckTags();
    keyOrder := [];
    if tags == null || tags.Length == 0 {
      return;
    }
    ghost var ts := Listed(TagSliceView(tags));
    for i := 0 to tags.Length
      invariant fresh(result)
      invariant TagSliceView(tags) == old(TagSliceView(tags))
      invariant result.entries == TagMap(ts[..i]) && keyOrder == KeyOrder(ts[..i])
    {
      var t := tags[i];
      assert SlotView(t) == Some(ts[i]);
      assert ts[..i + 1][..i] == ts[..i];
      if t.key != null {
        keyOrder := keyOrder + [t.key.text];
        if t.value != null {
          result.entries := result.entries[t.key.text := t.value.text];
        } else {
          result.entries := result.entries[t.key.text := ""];
        }
      }
    }
    assert ts[..tags.Length] == ts;
  }

  /** The slice so far, as fromACKTags appends to it: new tags, none of them twice, that spell out `ts`. */
  twostate predicate Spells(new built: seq<Tag>, ts: TagList)
    reads built
    reads set t | t in built :: t.key
    reads set t | t in built :: t.value
  {
    && |built| == |ts|
    && (forall i :: 0 <= i < |built| ==> NewTag(built[i]) && built[i].View() == ts[i])
    && forall i, j :: 0 <= i < j < |built| ==> built[i] != built[j]
  }

  method AppendTag(built: seq<Tag>, ghost ts: TagList, k: string, v: string) returns (longer: seq<Tag>)
    requires |built| == |ts| && forall i :: 0 <= i < |built| ==> built[i].View() == ts[i]
    requires forall i, j :: 0 <= i < j < |built| ==> built[i] != built[j]
    ensures |longer| == |built| + 1 && longer[..|built|] == built
    ensures NewTag(longer[|built|])
    ensures forall i :: 0 <= i < |longer| ==> longer[i].View() == (ts + [TagValue(Some(k), Some(v))])[i]
    ensures forall i, j :: 0 <= i < j < |longer| ==> longer[i] != longer[j]
  {
    var tag := new Tag();
    tag.key := MakeString(Some(k));
    tag.value := MakeString(Some(v));
    longer := built + [tag];
  }

  lemma EntriesSnoc(m: TagDict, order: seq<string>, k: string)
    requires KeySet(order) <= m.Keys && k in m
    ensures KeySet(order + [k]) == KeySet(order) + {k}
    ensures Entries(m, order + [k]) == Entries(m, order) + [TagValue(Some(k), Some(m[k]))]
  {
  }

  lemma KeptStep(m: TagDict, ks: seq<string>, i: nat)
    requires i < |ks|
    ensures KeySet(ks[..i + 1]) == KeySet(ks[..i]) + {ks[i]}
    ensures ks[i] in ks[..i] <==> ks[i] in KeySet(ks[..i])
    ensures Kept(m, ks[..i + 1]) == Kept(m, ks[..i]) + if ks[i] in m && ks[i] !in ks[..i] then [ks[i]] else []
    ensures KeySet(Kept(m, ks[..i])) <= m.Keys
  {
    KeptEnumerates(m, ks[..i]);
    assert ks[..i + 1] == ks[..i] + [ks[i]];
  }

  /** The first loop of fromACKTags: ordered keys move from the map to the list. */
  method TakeOrdered(tags: AckTags, keyOrder: seq<string>) returns (built: seq<Tag>)
    modifies tags
    ensures KeySet(Kept(old(tags.entries), keyOrder)) <= old(tags.entries).Keys
    ensures Spells(built, Entries(old(tags.entries), Kept(old(tags.entries), keyOrder)))
    ensures tags.entries == old(tags.entries) - KeySet(keyOrder)
  {
    ghost var m := tags.entries;
    KeptEnumerates(m, keyOrder);
    built := [];
    for i := 0 to |keyOrder|
      invariant KeySet(Kept(m, keyOrder[..i])) <= m.Keys
      invariant Spells(built, Entries(m, Kept(m, keyOrder[..i])))
      invariant tags.entries == m - KeySet(keyOrder[..i])
    {
      var k := keyOrder[i];
      KeptStep(m, keyOrder, i);
      ghost var done := Kept(m, keyOrder[..i]);
      assert m - KeySet(keyOrder[..i + 1]) == (m - KeySet(keyOrder[..i])) - {k};
      if k in tags.entries {
        EntriesSnoc(m, done, k);
        built := AppendTag(built, Entries(m, done), k, tags.entries[k]);
        assert Spells(built, Entries(m, done + [k]));
        tags.entries := tags.entries - {k};
      }
    }
    assert keyOrder[..|keyOrder|] == keyOrder;
  }

  /** The second loop of fromACKTags: what is left in the map follows in iteration order. */
  method TakeRest(tags: AckTags, taken: seq<Tag>, ghost before: TagList)
    returns (built: seq<Tag>, ghost tail: seq<string>)
    requires |taken| == |before| && forall i :: 0 <= i < |taken| ==> taken[i].View() == before[i]
    requires forall i, j :: 0 <= i < j < |taken| ==> taken[i] != taken[j]
    ensures Enumerates(tail, tags.entries.Keys)
    ensures |taken| <= |built| && built[..|taken|] == taken
    ensures forall i :: |taken| <= i < |built| ==> NewTag(built[i])
    ensures |built| == |before| + |tail|
    ensures forall i :: 0 <= i < |built| ==> built[i].View() == (before + Entries(tags.entries, tail))[i]
    ensures forall i, j :: 0 <= i < j < |built| ==> built[i] != built[j]
  {
    built, tail := taken, [];
    var pending := tags.entries.Keys;
    while pending != {}
      invariant pending <= tags.entries.Keys
      invariant Enumerates(tail, tags.entries.Keys - pending)
      invariant |taken| <= |built| && built[..|taken|] == taken
      invariant forall i :: |taken| <= i < |built| ==> NewTag(built[i])
      invariant |built| == |before| + |tail|
      invariant forall i :: 0 <= i < |built| ==> built[i].View() == (before + Entries(tags.entries, tail))[i]
      invariant forall i, j :: 0 <= i < j < |built| ==> built[i] != built[j]
      decreases pending
    {
      var k :| k in pending;
      EntriesSnoc(tags.entries, tail, k);
      assert before + Entries(tags.entries, tail + [k])
          == before + Entries(tags.entries, tail) + [TagValue(Some(k), Some(tags.entries[k]))];
      built := AppendTag(built, before + Entries(tags.entries, tail), k, tags.entries[k]);
      assert k !in tail by { assert k !in KeySet(tail); }
      tail := tail + [k];
      pending := pending - {k};
    }
  }

  /** fromACKTags. `tail` is the order in which the second loop met the keys that were left over. */
  method FromACKTags(tags: AckTags, keyOrder: seq<string>) returns (result: array<Tag?>, ghost tail: seq<string>)
    modifies tags
    ensures Enumerates(tail, old(tags.entries).Keys - KeySet(keyOrder))
    ensures TagSliceView(result) == Slots(FromTags(old(tags.entries), keyOrder, tail))
    ensures NewTagSlice(result) && DistinctTags(result)
    ensures tags.entries == old(tags.entries) - KeySet(keyOrder)
  {
    ghost var m := tags.entries;
    var built := TakeOrdered(tags, keyOrder);
    ghost var before := Entries(m, Kept(m, keyOrder));
    built, tail := TakeRest(tags, built, before);
    EntriesAgree(m, tags.entries, tail);
    result := new Tag?[|built|](i requires 0 <= i < |built| => built[i]);
    forall i | 0 <= i < result.Length
      ensures SlotView(result[i]) == Some(FromTags(m, keyOrder, tail)[i]) && NewTag(result[i])
    {
      assert result[i] == built[i];
    }
    assert SlotViews(result[..]) == Slots(FromTags(m, keyOrder, tail)).value;
  }

  /**
   ignoreSystemTags. The range loop deletes from the map it iterates over: the next key is any key
   still in the map that was not visited yet, until there is none.
   */
  method IgnoreSystemTags(tags: AckTags, systemTags: seq<string>)
    modifies tags
    ensures tags.entries == WithoutSystem(old(tags.entries), systemTags)
  {
    ghost var m := tags.entries;
    var visited: set<string> := {};
    while tags.entries.Keys - visited != {}
      invariant visited <= m.Keys
      invariant tags.entries == map k | k in m && !(k in visited && IsSystem(k, systemTags)) :: m[k]
      decreases m.Keys - visited
    {
      var k :| k in tags.entries.Keys - visited;
      visited := visited + {k};
      if IsSystem(k, systemTags) {
        tags.entries := tags.entries - {k};
      }
    }
  }

  /** syncAWSTags: the "aws:" entries of `b` are written into `a`. */
  method SyncAWSTags(a: AckTags, b: AckTags)
    modifies a
    ensures a.entries == WithAWS(old(a.entries), old(b.entries))
  {
    ghost var m, source := a.entries, b.entries;
    ghost var copied := map[];
    var visited: set<string> := {};
    while b.entries.Keys - visited != {}
      invariant visited <= source.Keys && b.entries == source
      invariant copied == map k | k in source && k in visited && IsAWS(k) :: source[k]
      invariant a.entries == m + copied
      decreases source.Keys - visited
    {
      var k :| k in b.entries.Keys - visited;
      visited := visited + {k};
      if IsAWS(k) {
        assert (m + copied)[k := source[k]] == m + copied[k := source[k]];
        a.entries := a.entries[k := b.entries[k]];
        copied := copied[k := source[k]];
      }
    }
    assert copied == AWSPart(source);
  }
}
