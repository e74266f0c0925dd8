/** The methods of manager.go that rewrite a resource's tags: EnsureTags, FilterSystemTags, mirrorAWSTags. */
module TagManager {
  import opened Wrappers
  import opened TagLists
  import opened TagRules
  import opened Api
  import opened Tags
  import opened Delta

  /** acktags.Merge, a library call: a new map. */
  method MergeTags(a: AckTags, b: TagDict) returns (m: AckTags)
    ensures fresh(m) && m.entries == Merge(a.entries, b)
  {
    m := new AckTags();
    m.entries := Merge(a.entries, b);
  }

  /** `ko.Spec.Tags = tags` for a slice that was just built. */
  method SetTags(ko: GlobalNetwork, tags: array<Tag?>)
    modifies ko`tags
    ensures ko.tags == tags
    ensures ko.View() == old(ko.View()).(tags := old(TagSliceView(tags)))
  {
    ko.tags := tags;
  }

  method EnsuredSlice(tags: array?<Tag?>, defaultTags: TagDict) returns (result: array<Tag?>, ghost tail: seq<string>)
    requires NoNil(TagSliceView(tags))
    ensures var ts := Listed(old(TagSliceView(tags)));
      && Enumerates(tail, Merge(TagMap(ts), defaultTags).Keys - KeySet(KeyOrder(ts)))
      && TagSliceView(result) == Slots(Ensured(ts, defaultTags, tail))
    ensures NewTagSlice(result) && DistinctTags(result)
  {
    var resourceTags, keyOrder := ConvertToOrderedACKTags(tags);
    var merged := MergeTags(resourceTags, defaultTags);
    result, tail := FromACKTags(merged, keyOrder);
  }

  /** EnsureTags. GetDefaultTags is a library call, so its result is a parameter. */
  method EnsureTags(r: Resource, defaultTags: TagDict) returns (ghost tail: seq<string>)
    requires r.ko != null && NoNil(TagSliceView(r.ko.tags))
    modifies r.ko`tags
    ensures var ts := Listed(old(TagSliceView(r.ko.tags)));
      && Enumerates(tail, Merge(TagMap(ts), defaultTags).Keys - KeySet(KeyOrder(ts)))
      && r.ko.View() == old(r.ko.View()).(tags := Slots(Ensured(ts, defaultTags, tail)))
    ensures NewTagSlice(r.ko.tags) && DistinctTags(r.ko.tags)
  {
    var result;
    result, tail := EnsuredSlice(r.ko.tags, defaultTags);
    SetTags(r.ko, result);
  }

  method FilteredSlice(tags: array?<Tag?>, systemTags: seq<string>) returns (result: array<Tag?>)
    requires NoNil(TagSliceView(tags))
    ensures TagSliceView(result) == Slots(Filtered(Listed(old(TagSliceView(tags))), systemTags))
    ensures NewTagSlice(result) && DistinctTags(result)
  {
    ghost var ts := Listed(TagSliceView(tags));
    var resourceTags, tagKeyOrder := ConvertToOrderedACKTags(tags);
    IgnoreSystemTags(resourceTags, systemTags);
    ghost var tail;
    result, tail := FromACKTags(resourceTags, tagKeyOrder);
    FilteredIsFromTags(ts, systemTags, tail);
  }

  method FilterSystemTags(r: Resource?, systemTags: seq<string>)
    requires r != null && r.ko != null ==> NoNil(TagSliceView(r.ko.tags))
    modifies if r == null || r.ko == null then {} else {r.ko}
    ensures r != null && r.ko != null ==>
      && r.ko.View() == old(r.ko.View()).(tags := Slots(Filtered(Listed(old(TagSliceView(r.ko.tags))), systemTags)))
      && NewTagSlice(r.ko.tags) && DistinctTags(r.ko.tags)
  {
    if r == null || r.ko == null {
      return;
    }
    var result := FilteredSlice(r.ko.tags, systemTags);
    SetTags(r.ko, result);
  }

  method MirroredSlice(desired: array?<Tag?>, latest: array?<Tag?>) returns (result: array<Tag?>, ghost tail: seq<string>)
    requires NoNil(TagSliceView(desired)) && NoNil(TagSliceView(latest))
    ensures var a, b := Listed(old(TagSliceView(desired))), Listed(old(TagSliceView(latest)));
      && Enumerates(tail, WithAWS(TagMap(a), TagMap(b)).Keys - KeySet(KeyOrder(a)))
      && TagSliceView(result) == Slots(Mirrored(a, b, tail))
    ensures NewTagSlice(result) && DistinctTags(result)
  {
    var desiredTags, desiredTagKeyOrder := ConvertToOrderedACKTags(desired);
    assert TagSliceView(latest) == old(TagSliceView(latest));
    var latestTags, _ := ConvertToOrderedACKTags(latest);
    SyncAWSTags(desiredTags, latestTags);
    result, tail := FromACKTags(desiredTags, desiredTagKeyOrder);
  }

  method MirrorAWSTags(a: Resource?, b: Resource?) returns (ghost tail: seq<string>)
    requires a != null && a.ko != null && b != null && b.ko != null ==>
      NoNil(TagSliceView(a.ko.tags)) && NoNil(TagSliceView(b.ko.tags))
    modifies if a == null || a.ko == null || b == null || b.ko == null then {} else {a.ko}
    ensures a != null && a.ko != null && b != null && b.ko != null ==>
      var ts, us := Listed(old(TagSliceView(a.ko.tags))), Listed(old(TagSliceView(b.ko.tags)));
      && Enumerates(tail, WithAWS(TagMap(ts), TagMap(us)).Keys - KeySet(KeyOrder(ts)))
      && a.ko.View() == old(a.ko.View()).(tags := Slots(Mirrored(ts, us, tail)))
      && NewTagSlice(a.ko.tags) && DistinctTags(a.ko.tags)
  {
    tail := [];
    if a == null || a.ko == null || b == null || b.ko == null {
      return;
    }
    var result;
    result, tail := MirroredSlice(a.ko.tags, b.ko.tags);
    SetTags(a.ko, result);
  }
}
