/**
 The AWS Network Manager client as the controller sees it: each call atomically succeeds or fails, and
 a successful call stores what it was given. Networks are found by ID and their tags by ARN.
 */
module Client {
  import opened Wrappers
  import opened Errors
  import opened TagLists
  import opened SyncProtocol

  datatype Network = Network(createdAt: Option<int>, description: Option<string>, arn: string, state: string)

  /** A GlobalNetwork in a response. */
  datatype Element = Element(
    createdAt: Option<int>,
    description: Option<string>,
    arn: Option<string>,
    id: Option<string>,
    state: string,
    tags: Option<TagList>)

  /** A request about networks, with the answer it got. */
  datatype NetworkCall =
    | DescribeCall(ids: seq<string>, found: seq<Element>, err: Option<Error>)
    | CreateCall(description: Option<string>, tags: Option<TagList>, resp: Element, err: Option<Error>)
    | UpdateCall(id: Option<string>, description: Option<string>, resp: Element, err: Option<Error>)
    | DeleteCall(id: Option<string>, err: Option<Error>)

  /** How a response may report a network: all its data, its tags in any order and each of them once. */
  ghost predicate Reports(e: Element, id: string, n: Network, tags: TagDict) {
    && e.createdAt == n.createdAt && e.description == n.description && e.state == n.state
    && e.arn == Some(n.arn) && e.id == Some(id)
    && (e.tags.None? ==> tags == map[])
    && (e.tags.Some? ==> exists order :: Enumerates(order, tags.Keys) && e.tags.value == Entries(tags, order))
  }

  /** The effect of CreateGlobalNetwork: one network more, under an ID that was never used, with the given data. */
  ghost predicate Created(e: Element, description: Option<string>, ts: Option<TagList>,
                          networks: map<string, Network>, networks': map<string, Network>,
                          tags: map<string, TagDict>, tags': map<string, TagDict>,
                          issued: set<string>, issued': set<string>) {
    && e.id.Some? && e.id.value !in issued && issued' == issued + {e.id.value}
    && e.id.value in networks'
    && networks' == networks[e.id.value := networks'[e.id.value]]
    && networks'[e.id.value].description == description
    && networks'[e.id.value].arn !in tags
    && tags' == tags[networks'[e.id.value].arn := TagMap(ts.GetOr([]))]
    && Reports(e, e.id.value, networks'[e.id.value], TagMap(ts.GetOr([])))
  }

  /** A call may fail for reasons of its own. */
  method Outcome() returns (err: Option<Error>)
    ensures err.Some? ==> FromSDK(err.value)
  {
    err := *;
    if err.Some? && !FromSDK(err.value) {
      err := Some(OtherError(""));
    }
  }

  class NetworkManagerClient {
    var networks: map<string, Network>
    var tags: map<string, TagDict>
    /** The IDs that were ever given to a network; none is given twice. */
    var issued: set<string>
    /** The tag requests received, in order. */
    var requests: seq<TagRequest>
    /** The other requests received, in order. */
    var calls: seq<NetworkCall>

    ghost predicate Valid()
      reads this
    {
      && networks.Keys <= issued
      && (forall id :: id in networks ==> networks[id].arn in tags)
      && forall id, other :: id in networks && other in networks && id != other ==> networks[id].arn != networks[other].arn
    }

    constructor ()
      ensures Valid() && networks == map[] && tags == map[] && issued == {} && requests == [] && calls == []
    {
      networks, tags, issued, requests, calls := map[], map[], {}, [], [];
    }

    method TagResource(arn: string, ts: TagList) returns (err: Option<Error>)
      requires Valid()
      modifies this`tags, this`requests
      ensures Valid()
      ensures err.Some? ==> FromSDK(err.value)
      ensures requests == old(requests) + [SyncProtocol.TagResource(arn, ts, err)]
      ensures err.None? ==> arn in old(tags)
      ensures tags == if err.None? then old(tags)[arn := Applied(old(tags)[arn], SyncProtocol.TagResource(arn, ts, None))]
                       else old(tags)
    {
      err := Outcome();
      if arn !in tags {
        err := Some(APIError("ResourceNotFoundException", ""));
      }
      if err.None? {
        tags := tags[arn := tags[arn] + TagMap(ts)];
      }
      requests := requests + [SyncProtocol.TagResource(arn, ts, err)];
    }

    method UntagResource(arn: string, keys: seq<string>) returns (err: Option<Error>)
      requires Valid()
      modifies this`tags, this`requests
      ensures Valid()
      ensures err.Some? ==> FromSDK(err.value)
      ensures requests == old(requests) + [SyncProtocol.UntagResource(arn, keys, err)]
      ensures err.None? ==> arn in old(tags)
      ensures tags == if err.None? then old(tags)[arn := Applied(old(tags)[arn], SyncProtocol.UntagResource(arn, keys, None))]
                       else old(tags)
    {
      err := Outcome();
      if arn !in tags {
        err := Some(APIError("ResourceNotFoundException", ""));
      }
      if err.None? {
        tags := tags[arn := tags[arn] - KeySet(keys)];
      }
      requests := requests + [SyncProtocol.UntagResource(arn, keys, err)];
    }

    /** Spells out a tag map in the order in which the backend happens to report it. */
    method ReportTags(m: TagDict) returns (ts: Option<TagList>)
      ensures ts.None? ==> m == map[]
      ensures ts.Some? ==> exists order :: Enumerates(order, m.Keys) && ts.value == Entries(m, order)
    {
      var order: seq<string> := [];
      var pending := m.Keys;
      while pending != {}
        invariant pending <= m.Keys && Enumerates(order, m.Keys - pending)
        decreases pending
      {
        var k :| k in pending;
        assert k !in KeySet(order);
        assert KeySet(order + [k]) == KeySet(order) + {k};
        order := order + [k];
        pending := pending - {k};
      }
      ts := *;
      if ts.Some? || m != map[] {
        ts := Some(Entries(m, order));
      }
    }

    method Report(id: string) returns (e: Element)
      requires Valid() && id in networks
      ensures Reports(e, id, networks[id], tags[networks[id].arn])
    {
      var n := networks[id];
      var ts := ReportTags(tags[n.arn]);
      e := Element(n.createdAt, n.description, Some(n.arn), Some(id), n.state, ts);
    }

    /** DescribeGlobalNetworks for one ID: the network, if it is there. */
    method DescribeGlobalNetworks(id: string) returns (resp: seq<Element>, err: Option<Error>)
      requires Valid()
      modifies this`calls
      ensures Valid() && calls == old(calls) + [DescribeCall([id], resp, err)]
      ensures err.Some? ==> resp == []
      ensures err.None? ==>
        if id in networks then |resp| == 1 && Reports(resp[0], id, networks[id], tags[networks[id].arn]) else resp == []
      ensures err.Some? ==> FromSDK(err.value)
      ensures err.Some? && IsNotFoundError(err.value) ==> id !in networks
    {
      resp := [];
      err := Outcome();
      if err.Some? && IsNotFoundError(err.value) && id in networks {
        err := None;
      }
      if err.None? && id in networks {
        var e := Report(id);
        resp := [e];
      }
      calls := calls + [DescribeCall([id], resp, err)];
    }

    /** A tag without a key is refused; a value that is absent is stored as "". */
    method CreateGlobalNetwork(description: Option<string>, ts: Option<TagList>)
      returns (resp: Element, err: Option<Error>)
      requires Valid()
      modifies this
      ensures Valid() && requests == old(requests) && calls == old(calls) + [CreateCall(description, ts, resp, err)]
      ensures err.Some? ==> FromSDK(err.value)
      ensures err.Some? ==> networks == old(networks) && tags == old(tags) && issued == old(issued)
      ensures err.None? ==>
        Created(resp, description, ts, old(networks), networks, old(tags), tags, old(issued), issued)
    {
      resp := Element(None, None, None, None, "", None);
      err := Outcome();
      if err.Some? {
        calls := calls + [CreateCall(description, ts, resp, err)];
        return;
      }
      var id: string, arn: string := *, *;
      if id in issued || arn in tags || (ts.Some? && exists t :: t in ts.value && t.key.None?) {
        err := Some(APIError("ValidationException", ""));
        calls := calls + [CreateCall(description, ts, resp, err)];
        return;
      }
      var createdAt: Option<int>, state: string := *, *;
      var n := Network(createdAt, description, arn, state);
      networks, issued := networks[id := n], issued + {id};
      tags := tags[arn := TagMap(ts.GetOr([]))];
      resp := Report(id);
      calls := calls + [CreateCall(description, ts, resp, err)];
    }

    /** UpdateGlobalNetwork: a description that the request leaves out is not changed. */
    method UpdateGlobalNetwork(id: Option<string>, description: Option<string>) returns (resp: Element, err: Option<Error>)
      requires Valid()
      modifies this`networks, this`calls
      ensures Valid() && calls == old(calls) + [UpdateCall(id, description, resp, err)]
      ensures err.Some? ==> FromSDK(err.value)
      ensures err.Some? ==> networks == old(networks)
      ensures err.None? ==>
        && id.Some? && id.value in old(networks)
        && networks == old(networks)[id.value := Described(old(networks)[id.value], description)]
        && Reports(resp, id.value, networks[id.value], tags[networks[id.value].arn])
    {
      resp := Element(None, None, None, None, "", None);
      err := Outcome();
      if err.None? && (id.None? || id.value !in networks) {
        err := Some(APIError("ValidationException", ""));
      }
      if err == None {
        networks := networks[id.value := Described(networks[id.value], description)];
        resp := Report(id.value);
      }
      calls := calls + [UpdateCall(id, description, resp, err)];
    }

    method DeleteGlobalNetwork(id: Option<string>) returns (err: Option<Error>)
      requires Valid()
      modifies this`networks, this`calls
      ensures Valid() && calls == old(calls) + [DeleteCall(id, err)]
      ensures err.Some? ==> FromSDK(err.value)
      ensures err.Some? ==> networks == old(networks)
      ensures err.None? ==> id.Some? && id.value in old(networks) && networks == old(networks) - {id.value}
    {
      err := Outcome();
      if err.None? && (id.None? || id.value !in networks) {
        err := Some(APIError("ValidationException", ""));
      }
      if err.None? {
        networks := networks - {id.value};
      }
      calls := calls + [DeleteCall(id, err)];
    }
  }

  function Described(n: Network, description: Option<string>): Network {
    if description.Some? then n.(description := description) else n
  }
}
