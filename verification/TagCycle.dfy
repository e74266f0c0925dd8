/**
 The tags over whole reconciliation cycles: EnsureTags on the spec, a read, mirrorAWSTags, SyncTags, and
 FilterSystemTags on what is read back.
 */
module TagCycle {
  import opened TagLists
  import opened TagRules
  import opened SyncProtocol
  import opened SyncRetry

  /** The tags that a cycle drives the backend to: the user's, the missing defaults, and what AWS put there. */
  function Target(user: TagList, defaults: TagDict, backend: TagDict): TagDict {
    WithAWS(Merge(TagMap(user), defaults), backend)
  }

  /** One cycle up to SyncTags: `read` is what the backend reported, the tails are iteration orders. */
  ghost predicate Cycle(user: TagList, defaults: TagDict, read: TagList, ensureTail: seq<string>, mirrorTail: seq<string>,
                        arn: string, trace: seq<TagRequest>, failed: bool) {
    && Enumerates(ensureTail, Merge(TagMap(user), defaults).Keys - KeySet(KeyOrder(user)))
    && var ensured := Ensured(user, defaults, ensureTail);
       && Enumerates(mirrorTail, WithAWS(TagMap(ensured), TagMap(read)).Keys - KeySet(KeyOrder(ensured)))
       && Attempt(arn, TagMap(Mirrored(ensured, read, mirrorTail)), TagMap(read), trace, failed)
  }

  /** A cycle heads for the target of the tags it read, and has reached it exactly when it did not fail. */
  lemma CycleTarget(user: TagList, defaults: TagDict, read: TagList, ensureTail: seq<string>, mirrorTail: seq<string>,
                    arn: string, trace: seq<TagRequest>, failed: bool)
    requires Cycle(user, defaults, read, ensureTail, mirrorTail, arn, trace, failed)
    ensures Attempt(arn, Target(user, defaults, TagMap(read)), TagMap(read), trace, failed)
    ensures Replay(TagMap(read), trace) == Target(user, defaults, TagMap(read)) <==> !failed
  {
    var ensured := Ensured(user, defaults, ensureTail);
    EnsuredMap(user, defaults, ensureTail);
    MirroredMap(ensured, read, mirrorTail);
    SyncRefinement(arn, Target(user, defaults, TagMap(read)), TagMap(read), trace, failed);
  }

  /** The target keeps every "aws:" tag of the backend and takes its other tags from the user and the defaults. */
  lemma TargetKeepsAWS(user: TagList, defaults: TagDict, backend: TagDict)
    ensures forall k :: k in backend && "aws:" <= k ==>
      k in Target(user, defaults, backend) && Target(user, defaults, backend)[k] == backend[k]
    ensures Target(user, defaults, Target(user, defaults, backend)) == Target(user, defaults, backend)
  {
  }

  /**
   A cycle that does not fail leaves the system at rest and the user with the tags of the spec: a following
   cycle, whatever order the backend reports, sends nothing; and filtering what was read back gives the
   user's own tags, but for those with system keys, exactly when every default that was added has a system
   key. It gives the whole normalized list, in the order reported, when moreover no user tag has one.
   */
  lemma CycleSettles(user: TagList, defaults: TagDict, systemTags: seq<string>, read: TagList,
                     ensureTail: seq<string>, mirrorTail: seq<string>, arn: string, trace: seq<TagRequest>,
                     again: TagList, ensureTail': seq<string>, mirrorTail': seq<string>, trace': seq<TagRequest>, failed': bool)
    requires Cycle(user, defaults, read, ensureTail, mirrorTail, arn, trace, false)
    requires TagMap(again) == Replay(TagMap(read), trace)
    requires Cycle(user, defaults, again, ensureTail', mirrorTail', arn, trace', failed')
    ensures trace' == [] && !failed'
    ensures TagMap(Filtered(again, systemTags)) == WithoutSystem(TagMap(user), systemTags)
            <==> forall k :: k in defaults && k !in TagMap(user) ==> IsSystem(k, systemTags)
    ensures multiset(Filtered(again, systemTags)) == multiset(Normalize(user))
            <==> && (forall k :: k in defaults && k !in TagMap(user) ==> IsSystem(k, systemTags))
                 && forall k :: k in TagMap(user) ==> !IsSystem(k, systemTags)
  {
    var target := Target(user, defaults, TagMap(read));
    CycleTarget(user, defaults, read, ensureTail, mirrorTail, arn, trace, false);
    CycleTarget(user, defaults, again, ensureTail', mirrorTail', arn, trace', failed');
    TargetKeepsAWS(user, defaults, TagMap(read));
    NothingToDo(arn, target, trace', failed');
    FilteredMap(again, systemTags);
    FilteredTarget(user, defaults, TagMap(read), systemTags);
    NormalizeMap(user);
    SameMapReorders(Filtered(again, systemTags), Normalize(user));
    NoSystemKeys(TagMap(user), systemTags);
    NoSystemKeys(TagMap(Filtered(again, systemTags)), systemTags);
  }

  lemma NoSystemKeys(m: TagDict, systemTags: seq<string>)
    ensures WithoutSystem(m, systemTags) == m <==> forall k :: k in m ==> !IsSystem(k, systemTags)
  {
    if WithoutSystem(m, systemTags) == m {
      assert forall k :: k in m ==> k in WithoutSystem(m, systemTags);
    }
  }

  lemma FilteredTarget(user: TagList, defaults: TagDict, backend: TagDict, systemTags: seq<string>)
    ensures WithoutSystem(Target(user, defaults, backend), systemTags) == WithoutSystem(TagMap(user), systemTags)
            <==> forall k :: k in defaults && k !in TagMap(user) ==> IsSystem(k, systemTags)
  {
    var t, u := WithoutSystem(Target(user, defaults, backend), systemTags), WithoutSystem(TagMap(user), systemTags);
    assert forall k :: k in AWSPart(backend) ==> IsSystem(k, systemTags);
    if k :| k in defaults && k !in TagMap(user) && !IsSystem(k, systemTags) {
      assert k in t && k !in u;
    } else {
      assert t.Keys == u.Keys;
    }
  }
}
