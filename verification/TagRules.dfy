/**
 What EnsureTags, FilterSystemTags and mirrorAWSTags (manager.go) do to a tag list, and the laws
 that tie the three together.
 */
module TagRules {
  import opened Wrappers
  import opened TagLists

  const AWS_PREFIX := "aws:"

  predicate IsAWS(k: string) {
    AWS_PREFIX <= k
  }

  /** Keys that ignoreSystemTags takes out of a resource. */
  predicate IsSystem(k: string, systemTags: seq<string>) {
    IsAWS(k) || k in systemTags
  }

  /* ---- FilterSystemTags ---- */

  function WithoutSystem(m: TagDict, systemTags: seq<string>): TagDict {
    map k | k in m && !IsSystem(k, systemTags) :: m[k]
  }

  /** The tags of a list whose key is not a system key, in their order. */
  function UserTags(ts: TagList, systemTags: seq<string>): TagList {
    if ts == [] then []
    else
      var t := ts[|ts| - 1];
      UserTags(ts[..|ts| - 1], systemTags)
      + if t.key.Some? && IsSystem(t.key.value, systemTags) then [] else [t]
  }

  /** The list FilterSystemTags writes; nothing can be left over, because it only removes keys. */
  ghost function Filtered(ts: TagList, systemTags: seq<string>): TagList {
    var m := WithoutSystem(TagMap(ts), systemTags);
    KeptEnumerates(m, KeyOrder(ts));
    Entries(m, Kept(m, KeyOrder(ts)))
  }

  lemma FilteredIsFromTags(ts: TagList, systemTags: seq<string>, tail: seq<string>)
    requires Enumerates(tail, WithoutSystem(TagMap(ts), systemTags).Keys - KeySet(KeyOrder(ts)))
    ensures tail == []
    ensures FromTags(WithoutSystem(TagMap(ts), systemTags), KeyOrder(ts), tail) == Filtered(ts, systemTags)
  {
    KeyOrderKeys(ts);
    assert WithoutSystem(TagMap(ts), systemTags).Keys <= TagMap(ts).Keys;
    EmptyTail(tail);
  }

  lemma {:induction false} KeptOfFewer(m: TagDict, ks: seq<string>, systemTags: seq<string>)
    requires KeySet(Kept(m, ks)) <= m.Keys
    requires KeySet(Kept(WithoutSystem(m, systemTags), ks)) <= WithoutSystem(m, systemTags).Keys
    ensures Entries(WithoutSystem(m, systemTags), Kept(WithoutSystem(m, systemTags), ks))
         == UserTags(Entries(m, Kept(m, ks)), systemTags)
  {
    if ks == [] {
    } else {
      var m' := WithoutSystem(m, systemTags);
      var front, last := ks[..|ks| - 1], ks[|ks| - 1];
      KeptEnumerates(m, front);
      KeptEnumerates(m', front);
      KeptOfFewer(m, front, systemTags);
      var p, p' := Kept(m, front), Kept(m', front);
      if last in m && last !in front {
        assert Kept(m, ks) == p + [last];
        assert last in KeySet(p + [last]);
        var ts := Entries(m, p + [last]);
        assert ts[..|ts| - 1] == Entries(m, p);
        assert ts[|ts| - 1] == TagValue(Some(last), Some(m[last]));
        if last in m' {
          assert Kept(m', ks) == p' + [last];
          assert last in KeySet(p' + [last]);
          assert Entries(m', p' + [last]) == Entries(m', p') + [TagValue(Some(last), Some(m[last]))];
        } else {
          assert Kept(m', ks) == p';
          assert UserTags(ts, systemTags) == UserTags(Entries(m, p), systemTags);
        }
      } else {
        assert Kept(m, ks) == p && Kept(m', ks) == p';
      }
    }
  }

  lemma {:induction false} UserTagsMembers(ts: TagList, t: TagValue, systemTags: seq<string>)
    ensures t in UserTags(ts, systemTags) <==> t in ts && !(t.key.Some? && IsSystem(t.key.value, systemTags))
  {
    if ts == [] {
    } else {
      assert ts == ts[..|ts| - 1] + [ts[|ts| - 1]];
      UserTagsMembers(ts[..|ts| - 1], t, systemTags);
    }
  }

  /** FilterSystemTags keeps the order: its list is a filter of the normalized list. */
  lemma FilteredIsUserTags(ts: TagList, systemTags: seq<string>)
    ensures Filtered(ts, systemTags) == UserTags(Normalize(ts), systemTags)
    ensures forall t :: t in Filtered(ts, systemTags)
                        <==> t in Normalize(ts) && t.key.Some? && !("aws:" <= t.key.value) && t.key.value !in systemTags
  {
    NormalizeMap(ts);
    forall t {
      UserTagsMembers(Normalize(ts), t, systemTags);
    }
    KeptEnumerates(TagMap(ts), KeyOrder(ts));
    KeptEnumerates(WithoutSystem(TagMap(ts), systemTags), KeyOrder(ts));
    KeptOfFewer(TagMap(ts), KeyOrder(ts), systemTags);
  }

  lemma FilteredMap(ts: TagList, systemTags: seq<string>)
    ensures TagMap(Filtered(ts, systemTags)) == WithoutSystem(TagMap(ts), systemTags)
    ensures DistinctKeys(Filtered(ts, systemTags)) && AllValued(Filtered(ts, systemTags))
  {
    KeyOrderKeys(ts);
    var m := WithoutSystem(TagMap(ts), systemTags);
    KeptEnumerates(m, KeyOrder(ts));
    assert m.Keys <= KeySet(KeyOrder(ts));
    EntriesRoundTrip(m, Kept(m, KeyOrder(ts)));
  }

  lemma {:induction false} UserTagsIdentity(ts: TagList, systemTags: seq<string>)
    ensures |UserTags(ts, systemTags)| <= |ts|
    ensures UserTags(ts, systemTags) == ts
            <==> forall i :: 0 <= i < |ts| ==> ts[i].key.None? || !IsSystem(ts[i].key.value, systemTags)
  {
    if ts == [] {
    } else {
      var front, t := ts[..|ts| - 1], ts[|ts| - 1];
      assert ts == front + [t];
      UserTagsIdentity(front, systemTags);
      if t.key.Some? && IsSystem(t.key.value, systemTags) {
        assert |UserTags(ts, systemTags)| < |ts|;
      } else {
        assert UserTags(ts, systemTags) == UserTags(front, systemTags) + [t];
        if UserTags(ts, systemTags) == ts {
          assert UserTags(front, systemTags) == ts[..|ts| - 1];
        }
      }
    }
  }

  lemma {:induction false} UserTagsAppend(ts: TagList, us: TagList, systemTags: seq<string>)
    ensures UserTags(ts + us, systemTags) == UserTags(ts, systemTags) + UserTags(us, systemTags)
  {
    if us == [] {
      assert ts + us == ts;
    } else {
      UserTagsAppend(ts, us[..|us| - 1], systemTags);
      assert (ts + us)[..|ts + us| - 1] == ts + us[..|us| - 1];
    }
  }

  lemma {:induction false} UserTagsNone(ts: TagList, systemTags: seq<string>)
    ensures UserTags(ts, systemTags) == []
            <==> forall i :: 0 <= i < |ts| ==> ts[i].key.Some? && IsSystem(ts[i].key.value, systemTags)
  {
    if ts == [] {
    } else {
      var front := ts[..|ts| - 1];
      assert ts == front + [ts[|ts| - 1]];
      UserTagsNone(front, systemTags);
    }
  }

  /** Filtering twice is filtering once. */
  lemma FilterIdempotent(ts: TagList, systemTags: seq<string>)
    ensures Filtered(Filtered(ts, systemTags), systemTags) == Filtered(ts, systemTags)
  {
    var us := Filtered(ts, systemTags);
    FilteredMap(ts, systemTags);
    FilteredIsUserTags(us, systemTags);
    NormalForms(us);
    KeyOrderKeys(us);
    forall i | 0 <= i < |us| ensures !IsSystem(us[i].key.value, systemTags) {
      assert IsLastTag(us, i, us[i].key.value);
      TagMapIsLastWins(us, us[i].key.value);
    }
    UserTagsIdentity(us, systemTags);
  }

  /** Filtering leaves exactly the lists alone, up to normalization, that have no system key. */
  lemma FilterKeepsUserLists(ts: TagList, systemTags: seq<string>)
    ensures Filtered(ts, systemTags) == Normalize(ts)
            <==> forall k :: k in TagMap(ts) ==> !IsSystem(k, systemTags)
  {
    FilteredIsUserTags(ts, systemTags);
    NormalizeMap(ts);
    var us := Normalize(ts);
    UserTagsIdentity(us, systemTags);
    forall i | 0 <= i < |us| ensures us[i].key.value in TagMap(ts) {
      assert IsLastTag(us, i, us[i].key.value);
      TagMapIsLastWins(us, us[i].key.value);
    }
    if Filtered(ts, systemTags) == us {
      forall k | k in TagMap(ts) ensures !IsSystem(k, systemTags) {
        TagMapIsLastWins(us, k);
        var i :| IsLastTag(us, i, k);
      }
    }
  }

  /* ---- EnsureTags ---- */

  /** acktags.Merge: the entries of `a`, and those of `b` whose key `a` lacks. */
  function Merge(a: TagDict, b: TagDict): TagDict {
    b + a
  }

  ghost function Ensured(ts: TagList, defaults: TagDict, tail: seq<string>): TagList
    requires Enumerates(tail, Merge(TagMap(ts), defaults).Keys - KeySet(KeyOrder(ts)))
  {
    FromTags(Merge(TagMap(ts), defaults), KeyOrder(ts), tail)
  }

  lemma {:induction false} KeptSameKeys(m: TagDict, n: TagDict, ks: seq<string>)
    requires forall k :: k in ks ==> (k in m <==> k in n)
    ensures Kept(m, ks) == Kept(n, ks)
  {
    if ks == [] {
    } else {
      KeptSameKeys(m, n, ks[..|ks| - 1]);
    }
  }

  /** A map that has all keys of a list is written as that list's normal order followed by the rest. */
  lemma FromTagsOverList(ts: TagList, m: TagDict, tail: seq<string>)
    requires TagMap(ts).Keys <= m.Keys
    requires Enumerates(tail, m.Keys - KeySet(KeyOrder(ts)))
    ensures KeySet(tail) == m.Keys - TagMap(ts).Keys
    ensures KeySet(Kept(TagMap(ts), KeyOrder(ts))) == TagMap(ts).Keys
    ensures FromTags(m, KeyOrder(ts), tail) == Entries(m, Kept(TagMap(ts), KeyOrder(ts))) + Entries(m, tail)
  {
    var ks := KeyOrder(ts);
    KeyOrderKeys(ts);
    assert forall k :: k in ks ==> k in KeySet(ks);
    KeptSameKeys(m, TagMap(ts), ks);
    KeptEnumerates(TagMap(ts), ks);
  }

  lemma EntriesAgree(m: TagDict, n: TagDict, order: seq<string>)
    requires KeySet(order) <= m.Keys && KeySet(order) <= n.Keys
    requires forall k :: k in KeySet(order) ==> m[k] == n[k]
    ensures Entries(m, order) == Entries(n, order)
  {
  }

  /** EnsureTags normalizes the list, changes no tag in it and appends the missing defaults. */
  lemma EnsuredAppends(ts: TagList, defaults: TagDict, tail: seq<string>)
    requires Enumerates(tail, Merge(TagMap(ts), defaults).Keys - KeySet(KeyOrder(ts)))
    ensures KeySet(tail) == defaults.Keys - TagMap(ts).Keys
    ensures Ensured(ts, defaults, tail) == Normalize(ts) + Entries(defaults, tail)
  {
    var m := Merge(TagMap(ts), defaults);
    FromTagsOverList(ts, m, tail);
    EntriesAgree(m, defaults, tail);
    EntriesAgree(m, TagMap(ts), Kept(TagMap(ts), KeyOrder(ts)));
  }

  lemma EnsuredMap(ts: TagList, defaults: TagDict, tail: seq<string>)
    requires Enumerates(tail, Merge(TagMap(ts), defaults).Keys - KeySet(KeyOrder(ts)))
    ensures TagMap(Ensured(ts, defaults, tail)) == Merge(TagMap(ts), defaults)
    ensures DistinctKeys(Ensured(ts, defaults, tail)) && AllValued(Ensured(ts, defaults, tail))
  {
    var m := Merge(TagMap(ts), defaults);
    FromTagsIsEntries(m, KeyOrder(ts), tail);
    EntriesRoundTrip(m, Kept(m, KeyOrder(ts)) + tail);
  }

  /**
   Ensure/filter round trip. FilterSystemTags undoes EnsureTags exactly when every default tag that
   EnsureTags had to add has a system key.
   */
  lemma EnsureFilterRoundTrip(ts: TagList, defaults: TagDict, systemTags: seq<string>, tail: seq<string>)
    requires Enumerates(tail, Merge(TagMap(ts), defaults).Keys - KeySet(KeyOrder(ts)))
    ensures Filtered(Ensured(ts, defaults, tail), systemTags) == Filtered(ts, systemTags)
            <==> forall k :: k in defaults && k !in TagMap(ts) ==> IsSystem(k, systemTags)
  {
    EnsuredAppends(ts, defaults, tail);
    EnsuredMap(ts, defaults, tail);
    var us := Ensured(ts, defaults, tail);
    NormalForms(us);
    FilteredIsUserTags(us, systemTags);
    FilteredIsUserTags(ts, systemTags);
    var added := Entries(defaults, tail);
    UserTagsAppend(Normalize(ts), added, systemTags);
    UserTagsNone(added, systemTags);
    assert UserTags(us, systemTags) == UserTags(Normalize(ts), systemTags) + UserTags(added, systemTags);
    if forall i :: 0 <= i < |added| ==> IsSystem(added[i].key.value, systemTags) {
      forall k | k in defaults && k !in TagMap(ts) ensures IsSystem(k, systemTags) {
        assert k in KeySet(tail);
        var i :| 0 <= i < |tail| && tail[i] == k;
        assert added[i].key == Some(k);
      }
    } else {
      var i :| 0 <= i < |added| && !IsSystem(added[i].key.value, systemTags);
      assert tail[i] in KeySet(tail);
    }
  }

  /** The exception does occur: any one default that is new to the list, with no system key, stays after filtering. */
  lemma ForeignDefaultStays(ts: TagList, defaults: TagDict, k: string, systemTags: seq<string>)
    requires defaults.Keys == {k} && k !in TagMap(ts) && !IsSystem(k, systemTags)
    ensures Enumerates([k], Merge(TagMap(ts), defaults).Keys - KeySet(KeyOrder(ts)))
    ensures Filtered(Ensured(ts, defaults, [k]), systemTags) != Filtered(ts, systemTags)
  {
    KeyOrderKeys(ts);
    assert KeySet([k]) == {k};
    assert Merge(TagMap(ts), defaults).Keys - KeySet(KeyOrder(ts)) == {k};
    EnsureFilterRoundTrip(ts, defaults, systemTags, [k]);
  }

  /** For a list without system keys the round trip returns the normalized list itself. */
  lemma EnsureFilterReturnsUserList(ts: TagList, defaults: TagDict, systemTags: seq<string>, tail: seq<string>)
    requires Enumerates(tail, Merge(TagMap(ts), defaults).Keys - KeySet(KeyOrder(ts)))
    requires forall k :: k in TagMap(ts) ==> !IsSystem(k, systemTags)
    requires defaults.Keys <= KeySet(systemTags)
    ensures Filtered(Ensured(ts, defaults, tail), systemTags) == Normalize(ts)
  {
    EnsureFilterRoundTrip(ts, defaults, systemTags, tail);
    FilterKeepsUserLists(ts, systemTags);
  }

  lemma EnsureIdempotent(ts: TagList, defaults: TagDict, tail: seq<string>, again: seq<string>)
    requires Enumerates(tail, Merge(TagMap(ts), defaults).Keys - KeySet(KeyOrder(ts)))
    requires Enumerates(again, Merge(TagMap(Ensured(ts, defaults, tail)), defaults).Keys
                               - KeySet(KeyOrder(Ensured(ts, defaults, tail))))
    ensures Ensured(Ensured(ts, defaults, tail), defaults, again) == Ensured(ts, defaults, tail)
  {
    EnsuredMap(ts, defaults, tail);
    var us := Ensured(ts, defaults, tail);
    EnsuredAppends(us, defaults, again);
    EmptyTail(again);
    NormalForms(us);
  }

  /* ---- mirrorAWSTags ---- */

  function AWSPart(m: TagDict): TagDict {
    map k | k in m && IsAWS(k) :: m[k]
  }

  /** syncAWSTags: every "aws:" entry of the latest map is written into the desired one. */
  function WithAWS(desired: TagDict, latest: TagDict): TagDict {
    desired + AWSPart(latest)
  }

  ghost function Mirrored(desired: TagList, latest: TagList, tail: seq<string>): TagList
    requires Enumerates(tail, WithAWS(TagMap(desired), TagMap(latest)).Keys - KeySet(KeyOrder(desired)))
  {
    FromTags(WithAWS(TagMap(desired), TagMap(latest)), KeyOrder(desired), tail)
  }

  lemma MirroredMap(desired: TagList, latest: TagList, tail: seq<string>)
    requires Enumerates(tail, WithAWS(TagMap(desired), TagMap(latest)).Keys - KeySet(KeyOrder(desired)))
    ensures TagMap(Mirrored(desired, latest, tail)) == WithAWS(TagMap(desired), TagMap(latest))
    ensures DistinctKeys(Mirrored(desired, latest, tail)) && AllValued(Mirrored(desired, latest, tail))
  {
    var m := WithAWS(TagMap(desired), TagMap(latest));
    MapListMapRoundTrip(m, KeyOrder(desired), tail);
    FromTagsIsEntries(m, KeyOrder(desired), tail);
    EntriesRoundTrip(m, Kept(m, KeyOrder(desired)) + tail);
  }

  lemma AWSPartKeys(m: TagDict)
    ensures AWSPart(m).Keys == set k | k in m && "aws:" <= k
  {
  }

  lemma MirrorShape(desired: TagList, latest: TagList, tail: seq<string>, aws: set<string>)
    requires Enumerates(tail, WithAWS(TagMap(desired), TagMap(latest)).Keys - KeySet(KeyOrder(desired)))
    requires aws == AWSPart(TagMap(latest)).Keys
    ensures KeySet(tail) == aws - TagMap(desired).Keys
    ensures var before, after := Normalize(desired), Mirrored(desired, latest, tail);
      && |after| == |before| + |tail|
      && (forall i :: 0 <= i < |before| ==>
            after[i].key == before[i].key && (after[i] == before[i] || before[i].key.value in aws))
      && forall i :: |before| <= i < |after| ==> after[i].key == Some(tail[i - |before|]) && tail[i - |before|] in aws
  {
    var m := WithAWS(TagMap(desired), TagMap(latest));
    FromTagsOverList(desired, m, tail);
    assert forall i :: 0 <= i < |tail| ==> tail[i] in KeySet(tail);
  }

  /**
   mirrorAWSTags normalizes the desired list, keeps its keys in place with their values -- unless
   the key starts with "aws:" and the latest list has it too -- and appends "aws:" tags only.
   */
  lemma MirrorKeepsOthers(desired: TagList, latest: TagList, tail: seq<string>)
    requires Enumerates(tail, WithAWS(TagMap(desired), TagMap(latest)).Keys - KeySet(KeyOrder(desired)))
    ensures var aws := set k | k in TagMap(latest) && "aws:" <= k;
      var before, after := Normalize(desired), Mirrored(desired, latest, tail);
      && KeySet(tail) == aws - TagMap(desired).Keys
      && |after| == |before| + |tail|
      && (forall i :: 0 <= i < |before| ==>
            after[i].key == before[i].key && (after[i] == before[i] || before[i].key.value in aws))
      && forall i :: |before| <= i < |after| ==> after[i].key == Some(tail[i - |before|]) && tail[i - |before|] in aws
  {
    AWSPartKeys(TagMap(latest));
    MirrorShape(desired, latest, tail, AWSPart(TagMap(latest)).Keys);
  }

  lemma MirrorIdempotent(desired: TagList, latest: TagList, tail: seq<string>, again: seq<string>)
    requires Enumerates(tail, WithAWS(TagMap(desired), TagMap(latest)).Keys - KeySet(KeyOrder(desired)))
    requires Enumerates(again, WithAWS(TagMap(Mirrored(desired, latest, tail)), TagMap(latest)).Keys
                               - KeySet(KeyOrder(Mirrored(desired, latest, tail))))
    ensures Mirrored(Mirrored(desired, latest, tail), latest, again) == Mirrored(desired, latest, tail)
  {
    var us := Mirrored(desired, latest, tail);
    MirroredMap(desired, latest, tail);
    NormalForms(us);
    KeyOrderKeys(us);
    assert WithAWS(TagMap(us), TagMap(latest)) == TagMap(us);
    NormalizeIsFromTags(us, again);
  }
}
