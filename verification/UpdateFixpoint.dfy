/** One successful update is enough: reading back gives a CR that does not differ from the desired one. */
module UpdateFixpoint {
  import opened Wrappers
  import opened Errors
  import opened TagLists
  import opened Api
  import opened SyncProtocol
  import opened Client
  import opened Delta
  import opened Sdk

  /** The backend holds what the latest CR says about the network with the given ID. */
  ghost predicate Matches(latest: NetworkValue, id: Option<string>, networks: map<string, Network>, tags: map<string, TagDict>)
    requires NoNil(latest.tags)
  {
    && id.Some? && id.value in networks
    && networks[id.value].description == latest.description
    && networks[id.value].arn in tags
    && tags[networks[id.value].arn] == TagMap(Listed(latest.tags))
  }

  /** The tags of the network after the update, whether or not the delta named them. */
  lemma TagsReachDesired(desired: NetworkValue, latest: NetworkValue, paths: seq<string>, trace: seq<TagRequest>,
                         networks: map<string, Network>, tags: map<string, TagDict>, tags': map<string, TagDict>)
    requires NoNil(desired.tags) && NoNil(latest.tags)
    requires Matches(latest, desired.globalNetworkID, networks, tags)
    requires paths == DeltaPaths(desired, latest) && SafeToUpdate(desired, latest, paths)
    requires SPEC_TAGS in paths ==>
      desired.metadata.value.arn.value == networks[desired.globalNetworkID.value].arn
    requires TagsUpdated(desired, latest, paths, trace, tags, tags') && AllOk(trace)
    ensures var arn := networks[desired.globalNetworkID.value].arn;
      arn in tags' && tags'[arn] == TagMap(Listed(desired.tags))
  {
    assert SPEC_TAGS != SPEC_DESCRIPTION;
    if SPEC_TAGS in paths {
      var arn := networks[desired.globalNetworkID.value].arn;
      SyncRefinement(arn, TagMap(Listed(desired.tags)), tags[arn], trace, false);
    }
  }

  /** A response lists the tags in some order, and none for an empty map; its map is the backend's. */
  lemma ReportedTags(e: Element, id: string, n: Network, tags: TagDict)
    requires Reports(e, id, n, tags)
    ensures NoNil(TagField(e.tags)) && TagMap(Listed(TagField(e.tags))) == tags
  {
    if e.tags.Some? {
      var order :| Enumerates(order, tags.Keys) && e.tags.value == Entries(tags, order);
      EntriesRoundTrip(tags, order);
      ListedSlots(e.tags.value);
    }
  }

  /** A CR with a response merged in carries all that the response reports of the network, and keeps the rest. */
  lemma MergedCarries(n: NetworkValue, rm: ManagerValue, e: Element, id: string, net: Network, tags: TagDict)
    requires Reports(e, id, net, tags)
    ensures var c := WithDefaults(Observed(n, e), rm);
      && c.metadata.Some? && c.metadata.value.arn == Some(net.arn)
      && c.globalNetworkID == Some(id) && c.createdAt == net.createdAt && c.description == net.description
      && c.state == (if net.state == "" then None else Some(net.state))
      && NoNil(c.tags) && TagMap(Listed(c.tags)) == tags
      && c.meta == n.meta && c.conditions == (if n.conditions.Some? then n.conditions else Some([]))
      && (n.metadata.Some? && n.metadata.value.region.Some? ==> c.metadata.value.region == n.metadata.value.region)
      && (n.metadata.Some? && n.metadata.value.partition.Some? ==> c.metadata.value.partition == n.metadata.value.partition)
      && (n.metadata.Some? && n.metadata.value.ownerAccountID.Some? ==>
            c.metadata.value.ownerAccountID == n.metadata.value.ownerAccountID)
  {
    ReportedTags(e, id, net, tags);
  }

  /**
   Update fixpoint. Suppose the backend matches `latest`, the desired CR names the same network, and
   sdkUpdate succeeds on their delta. Then whatever tag order a following read reports, the delta
   between the desired CR and what was read is empty -- exactly unless the desired CR has no
   description and the network has one, which the update request cannot express.
   */
  lemma UpdateReachesFixpoint(desired: NetworkValue, latest: NetworkValue, trace: seq<TagRequest>, sent: seq<NetworkCall>,
                              networks: map<string, Network>, networks': map<string, Network>,
                              tags: map<string, TagDict>, tags': map<string, TagDict>,
                              r: NetworkValue, e: Element, rm: ManagerValue)
    requires NoNil(desired.tags) && NoNil(latest.tags)
    requires Matches(latest, desired.globalNetworkID, networks, tags)
    requires SafeToUpdate(desired, latest, DeltaPaths(desired, latest))
    requires SPEC_TAGS in DeltaPaths(desired, latest) ==>
      desired.metadata.value.arn.value == networks[desired.globalNetworkID.value].arn
    requires TagsUpdated(desired, latest, DeltaPaths(desired, latest), trace, tags, tags')
    requires NetworkUpdated(desired, DeltaPaths(desired, latest), trace, sent, None, networks, networks')
    requires desired.globalNetworkID.value in networks'
    requires networks'[desired.globalNetworkID.value].arn in tags'
    requires Reports(e, desired.globalNetworkID.value, networks'[desired.globalNetworkID.value],
                     tags'[networks'[desired.globalNetworkID.value].arn])
    ensures NoNil(WithDefaults(Observed(r, e), rm).tags)
    ensures DeltaPaths(desired, WithDefaults(Observed(r, e), rm)) == []
            <==> desired.description.Some? || latest.description.None?
  {
    var paths := DeltaPaths(desired, latest);
    var id := desired.globalNetworkID.value;
    TagsReachDesired(desired, latest, paths, trace, networks, tags, tags');
    ReportedTags(e, id, networks'[id], tags'[networks'[id].arn]);
    assert SPEC_DESCRIPTION in paths <==> desired.description != latest.description;
    assert OnlyTagsDiffer(paths) <==> SPEC_DESCRIPTION !in paths;
  }

  /**
   The exception does occur: the description "x" is removed from the spec, the update succeeds without
   changing the network, and the next read still differs from the spec.
   */
  lemma RemovedDescriptionStays() returns (desired: NetworkValue, latest: NetworkValue, e: Element, observed: NetworkValue)
    ensures desired.description == None && latest.description == Some("x")
    ensures var networks := map["g" := Network(None, Some("x"), "arn", "")];
      var tags: map<string, TagDict> := map["arn" := map[]];
      && NoNil(desired.tags) && NoNil(latest.tags) && NoNil(observed.tags)
      && var paths := DeltaPaths(desired, latest);
         && Matches(latest, desired.globalNetworkID, networks, tags)
         && SafeToUpdate(desired, latest, paths)
         && TagsUpdated(desired, latest, paths, [], tags, tags)
         && NetworkUpdated(desired, paths, [], [UpdateCall(Some("g"), None, e, None)], None, networks, networks)
         && Reports(e, "g", networks["g"], tags["arn"])
         && DeltaPaths(desired, observed) == paths == [SPEC_DESCRIPTION]
    ensures observed == WithDefaults(Observed(desired, e), ManagerValue("1", "r", "aws"))
  {
    desired := NetworkValue(ObjectMeta("", ""), None, None, None, None, None, Some("g"), None);
    latest := desired.(description := Some("x"));
    e := Element(None, Some("x"), Some("arn"), Some("g"), "", None);
    observed := WithDefaults(Observed(desired, e), ManagerValue("1", "r", "aws"));
    assert SPEC_DESCRIPTION != SPEC_TAGS;
    assert SPEC_DESCRIPTION in DeltaPaths(desired, latest);
  }

  /** The update and the read that follows it, on the CRs and the client themselves. */
  method UpdateThenFind(rm: ResourceManager, desired: Resource, latest: Resource, d: Delta)
    returns (observed: Resource?, err: Option<Error>)
    requires desired.ko != null && latest.ko != null && rm.sdkapi.Valid()
    requires NoNil(desired.ko.View().tags) && NoNil(latest.ko.View().tags)
    requires d.paths == DeltaPaths(desired.ko.View(), latest.ko.View())
    requires Matches(latest.ko.View(), desired.ko.View().globalNetworkID, rm.sdkapi.networks, rm.sdkapi.tags)
    requires SafeToUpdate(desired.ko.View(), latest.ko.View(), d.paths)
    requires SPEC_TAGS in d.paths ==>
      desired.ko.View().metadata.value.arn.value == rm.sdkapi.networks[desired.ko.View().globalNetworkID.value].arn
    modifies rm.sdkapi`networks, rm.sdkapi`tags, rm.sdkapi`requests, rm.sdkapi`calls
    ensures err.None? ==>
      && observed != null && observed.ko != null && NoNil(observed.ko.View().tags)
      && (DeltaPaths(old(desired.ko.View()), observed.ko.View()) == []
          <==> old(desired.ko.View()).description.Some? || old(latest.ko.View()).description.None?)
  {
    ghost var desiredView, latestView, rmView := desired.ko.View(), latest.ko.View(), rm.View();
    ghost var networks, tags, paths := rm.sdkapi.networks, rm.sdkapi.tags, d.paths;
    var updated, updateErr, trace, sent, _ := SdkUpdate(rm, desired, latest, d);
    if updateErr.Some? {
      return null, updateErr;
    }
    ghost var e, asked;
    observed, err, e, asked := SdkFind(rm, desired);
    if err.None? {
      UpdateReachesFixpoint(desiredView, latestView, trace, sent, networks, rm.sdkapi.networks, tags, rm.sdkapi.tags,
                            desiredView, e, rmView);
    }
  }
}
