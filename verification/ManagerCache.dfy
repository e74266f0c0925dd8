/**
 resourceManagerFactory.ManagerFor as a concurrent system. Each call is a thread; a step is one action on
 the RWMutex or on the map it guards, so every interleaving of any number of calls is a run. Between
 RUnlock and Lock a thread holds no lock, and the code does not look again after Lock.
 */
module ManagerCache {
  import opened Wrappers

  /** The arguments of a call; `config` stands for those that do not take part in the key. */
  datatype Args = Args(id: string, region: string, roleARN: string, config: string)

  /** A manager: a pointer of its own, the account and region it serves, and the call that built it. */
  datatype Manager = Manager(pointer: nat, account: string, region: string, builtFor: Args)

  function Key(a: Args): string {
    a.id + "/" + a.region + "/" + a.roleARN
  }

  predicate SlashFree(s: string) {
    '/' !in s
  }

  lemma SplitAtSlash(a: string, b: string, x: string, y: string)
    requires SlashFree(a) && SlashFree(b) && a + "/" + x == b + "/" + y
    ensures a == b && x == y
  {
    var s := a + "/" + x;
    var t := b + "/" + y;
    assert s[|a|] == '/' && t[|b|] == '/';
    assert forall i :: 0 <= i < |b| ==> t[i] == b[i];
    assert forall i :: 0 <= i < |a| ==> s[i] == a[i];
    assert a == s[..|a|] && b == t[..|b|];
    assert x == s[|a| + 1..] && y == t[|b| + 1..];
  }

  /** The key determines account, region and role if account and region contain no slash; a role ARN may. */
  lemma KeyInjective(a: Args, b: Args)
    requires SlashFree(a.id) && SlashFree(a.region) && SlashFree(b.id) && SlashFree(b.region)
    ensures Key(a) == Key(b) <==> a.id == b.id && a.region == b.region && a.roleARN == b.roleARN
  {
    if Key(a) == Key(b) {
      assert Key(a) == a.id + "/" + (a.region + "/" + a.roleARN);
      assert Key(b) == b.id + "/" + (b.region + "/" + b.roleARN);
      SplitAtSlash(a.id, b.id, a.region + "/" + a.roleARN, b.region + "/" + b.roleARN);
      SplitAtSlash(a.region, b.region, a.roleARN, b.roleARN);
    }
  }

  /** Splits a text at the first of its slashes, of which one is given. */
  lemma {:induction false} SplitAtFirst(x: string, y: string) returns (head: string, tail: string)
    ensures x + "/" + y == head + "/" + tail && SlashFree(head)
    ensures tail == y || !SlashFree(tail)
    decreases |x|
  {
    if SlashFree(x) {
      head, tail := x, y;
    } else {
      var i :| 0 <= i < |x| && x[i] == '/';
      var z := x[i + 1..] + "/" + y;
      head, tail := SplitAtFirst(x[..i], z);
      assert x + "/" + y == x[..i] + "/" + z;
      assert z[|x| - i - 1] == '/';
    }
  }

  /** Every key is that of a request without slashes in account and region. */
  lemma Canonical(a: Args) returns (b: Args)
    ensures Key(b) == Key(a) && SlashFree(b.id) && SlashFree(b.region)
  {
    var rest := a.region + "/" + a.roleARN;
    assert rest[|a.region|] == '/';
    assert Key(a) == a.id + "/" + rest;
    var id, tail := SplitAtFirst(a.id, rest);
    var i :| 0 <= i < |tail| && tail[i] == '/';
    assert tail == tail[..i] + "/" + tail[i + 1..];
    var region, roleARN := SplitAtFirst(tail[..i], tail[i + 1..]);
    b := Args(id, region, roleARN, a.config);
    assert Key(b) == id + "/" + (region + "/" + roleARN);
  }

  /**
   Exactly when a key stands for one request: the key of `a` is that of no other account, region and role,
   among the requests whose account and region contain no slash, iff `a` is such a request.
   */
  lemma KeyStandsForOne(a: Args)
    ensures SlashFree(a.id) && SlashFree(a.region)
            <==> forall b: Args :: SlashFree(b.id) && SlashFree(b.region) && Key(b) == Key(a) ==>
                   b.id == a.id && b.region == a.region && b.roleARN == a.roleARN
  {
    if SlashFree(a.id) && SlashFree(a.region) {
      forall b: Args | SlashFree(b.id) && SlashFree(b.region) && Key(b) == Key(a)
        ensures b.id == a.id && b.region == a.region && b.roleARN == a.roleARN
      {
        KeyInjective(a, b);
      }
    } else {
      var b := Canonical(a);
      assert Key(b) == Key(a) && SlashFree(b.id) && SlashFree(b.region);
    }
  }

  /** With a slash in the region two different requests can share a key. */
  lemma SlashesCollide()
    ensures Key(Args("1", "a/b", "c", "")) == Key(Args("1", "a", "b/c", ""))
  {
  }

  /* ---- The step system ---- */

  datatype PC =
    | Start                           // before RLock
    | Reading                         // holds the read lock
    | Looked(found: Option<Manager>)  // read the map, still holds the read lock
    | Missed                          // released the read lock without a manager
    | Writing                         // holds the write lock
    | Built(rm: Manager)              // made a manager
    | Stored(rm: Manager)             // put it into the map, still holds the write lock
    | Done(rm: Manager, built: bool)  // returned it

  datatype Thread = Thread(args: Args, pc: PC)

  datatype State = State(
    cache: map<string, Manager>,
    threads: map<nat, Thread>,
    readers: set<nat>,
    writer: Option<nat>,
    next: nat)                        // the next pointer to allocate

  datatype Step =
    | Call(t: nat, args: Args)
    | RLock(t: nat)
    | Lookup(t: nat)
    | RUnlock(t: nat)
    | Lock(t: nat)
    | Build(t: nat)
    | Store(t: nat)
    | Unlock(t: nat)

  const EMPTY := State(map[], map[], {}, None, 0)

  predicate Enabled(s: State, step: Step) {
    if step.Call? then step.t !in s.threads
    else
      && step.t in s.threads
      && var pc := s.threads[step.t].pc;
         match step
         case RLock(_) => pc.Start? && s.writer.None?
         case Lookup(_) => pc.Reading?
         case RUnlock(_) => pc.Looked?
         case Lock(_) => pc.Missed? && s.writer.None? && s.readers == {}
         case Build(_) => pc.Writing?
         case Store(_) => pc.Built?
         case Unlock(_) => pc.Stored?
  }

  function Goto(s: State, t: nat, pc: PC): State
    requires t in s.threads
  {
    s.(threads := s.threads[t := s.threads[t].(pc := pc)])
  }

  function Find(cache: map<string, Manager>, k: string): Option<Manager> {
    if k in cache then Some(cache[k]) else None
  }

  function Do(s: State, step: Step): State
    requires Enabled(s, step)
  {
    match step
    case Call(t, args) => s.(threads := s.threads[t := Thread(args, Start)])
    case RLock(t) => Goto(s, t, Reading).(readers := s.readers + {t})
    case Lookup(t) => Goto(s, t, Looked(Find(s.cache, Key(s.threads[t].args))))
    case RUnlock(t) =>
      var found := s.threads[t].pc.found;
      Goto(s, t, if found.Some? then Done(found.value, false) else Missed).(readers := s.readers - {t})
    case Lock(t) => Goto(s, t, Writing).(writer := Some(t))
    case Build(t) =>
      var args := s.threads[t].args;
      Goto(s, t, Built(Manager(s.next, args.id, args.region, args))).(next := s.next + 1)
    case Store(t) =>
      var rm := s.threads[t].pc.rm;
      Goto(s, t, Stored(rm)).(cache := s.cache[Key(s.threads[t].args) := rm])
    case Unlock(t) => Goto(s, t, Done(s.threads[t].pc.rm, true)).(writer := None)
  }

  ghost predicate IsRun(states: seq<State>, steps: seq<Step>) {
    && |states| == |steps| + 1 && states[0] == EMPTY
    && forall i :: 0 <= i < |steps| ==> Enabled(states[i], steps[i]) && states[i + 1] == Do(states[i], steps[i])
  }

  /* ---- What every step keeps ---- */

  /** Who holds which lock; nobody reads while somebody writes. */
  ghost predicate LocksHeld(s: State) {
    && (forall t :: t in s.readers <==> t in s.threads && (s.threads[t].pc.Reading? || s.threads[t].pc.Looked?))
    && (forall t :: s.writer == Some(t)
          <==> t in s.threads && (s.threads[t].pc.Writing? || s.threads[t].pc.Built? || s.threads[t].pc.Stored?))
    && (s.writer.Some? ==> s.readers == {})
  }

  /** A manager that was built for a call with the given key, and serves that call's account and region. */
  ghost predicate BuiltForKey(rm: Manager, k: string, next: nat) {
    rm.pointer < next && Key(rm.builtFor) == k && rm.account == rm.builtFor.id && rm.region == rm.builtFor.region
  }

  ghost predicate ManagersFit(s: State) {
    && (forall k :: k in s.cache ==> BuiltForKey(s.cache[k], k, s.next))
    && forall t :: t in s.threads ==>
         var k := Key(s.threads[t].args);
         match s.threads[t].pc
         case Looked(found) => found.Some? ==> BuiltForKey(found.value, k, s.next)
         case Built(rm) => BuiltForKey(rm, k, s.next)
         case Stored(rm) => BuiltForKey(rm, k, s.next)
         case Done(rm, _) => BuiltForKey(rm, k, s.next)
         case _ => true
  }

  /** What a thread read or stored is what the map holds, as long as the thread holds its lock. */
  ghost predicate LockedViewIsCurrent(s: State) {
    forall t :: t in s.threads ==>
      var k := Key(s.threads[t].args);
      && (s.threads[t].pc.Looked? ==> s.threads[t].pc.found == Find(s.cache, k))
      && (s.threads[t].pc.Stored? ==> Find(s.cache, k) == Some(s.threads[t].pc.rm))
  }

  ghost predicate Invariant(s: State) {
    LocksHeld(s) && ManagersFit(s) && LockedViewIsCurrent(s)
  }

  lemma StepKeepsLocks(s: State, step: Step)
    requires LocksHeld(s) && Enabled(s, step)
    ensures LocksHeld(Do(s, step))
  {
  }

  lemma StepKeepsFit(s: State, step: Step)
    requires ManagersFit(s) && Enabled(s, step)
    ensures ManagersFit(Do(s, step))
  {
  }

  lemma StepKeepsView(s: State, step: Step)
    requires LocksHeld(s) && LockedViewIsCurrent(s) && Enabled(s, step)
    ensures LockedViewIsCurrent(Do(s, step))
  {
  }

  lemma {:induction false} RunKeepsInvariant(states: seq<State>, steps: seq<Step>, i: nat)
    requires IsRun(states, steps) && i < |states|
    ensures Invariant(states[i])
  {
    if i == 0 {
    } else {
      RunKeepsInvariant(states, steps, i - 1);
      StepKeepsLocks(states[i - 1], steps[i - 1]);
      StepKeepsFit(states[i - 1], steps[i - 1]);
      StepKeepsView(states[i - 1], steps[i - 1]);
    }
  }

  /* ---- Safety ---- */

  /** Account and region of every call so far are free of slashes. */
  ghost predicate CallsSlashFree(s: State) {
    forall t :: t in s.threads ==> SlashFree(s.threads[t].args.id) && SlashFree(s.threads[t].args.region)
  }

  /** Every manager that is built or cached was built for a call of the run. */
  ghost predicate ManagersHaveCalls(s: State) {
    && (forall k :: k in s.cache ==> exists t :: t in s.threads && s.threads[t].args == s.cache[k].builtFor)
    && forall t :: t in s.threads ==>
         match s.threads[t].pc
         case Looked(found) => found.Some? ==> exists u :: u in s.threads && s.threads[u].args == found.value.builtFor
         case Built(rm) => rm.builtFor == s.threads[t].args
         case Stored(rm) => rm.builtFor == s.threads[t].args
         case Done(rm, built) =>
           && (exists u :: u in s.threads && s.threads[u].args == rm.builtFor)
           && (built ==> rm.builtFor == s.threads[t].args)
         case _ => true
  }

  lemma StepKeepsCalls(s: State, step: Step)
    requires ManagersHaveCalls(s) && Enabled(s, step)
    ensures ManagersHaveCalls(Do(s, step))
  {
    var s' := Do(s, step);
    forall u | u in s.threads ensures u in s'.threads && s'.threads[u].args == s.threads[u].args {
    }
    if step.Store? {
      assert s'.threads[step.t].args == s'.cache[Key(s.threads[step.t].args)].builtFor;
    }
    if step.Unlock? {
      assert s'.threads[step.t].args == s'.threads[step.t].pc.rm.builtFor;
    }
  }

  lemma {:induction false} RunKeepsCalls(states: seq<State>, steps: seq<Step>, i: nat)
    requires IsRun(states, steps) && i < |states|
    ensures ManagersHaveCalls(states[i])
  {
    if i == 0 {
    } else {
      RunKeepsCalls(states, steps, i - 1);
      StepKeepsCalls(states[i - 1], steps[i - 1]);
    }
  }

  /** The manager serves the account and region that the call asked for, under the role it asked for. */
  ghost predicate Serves(rm: Manager, a: Args) {
    rm.account == a.id && rm.region == a.region && rm.builtFor.roleARN == a.roleARN
  }

  /**
   Cache safety under every interleaving: if no account or region contains a slash, then every returned
   manager, and every cached manager that a call would find, is the one that the call asked for.
   */
  lemma CacheSafety(states: seq<State>, steps: seq<Step>, i: nat, t: nat)
    requires IsRun(states, steps) && i < |states| && CallsSlashFree(states[i]) && t in states[i].threads
    ensures var s, th := states[i], states[i].threads[t];
      && (th.pc.Done? ==> Serves(th.pc.rm, th.args))
      && (Key(th.args) in s.cache ==> Serves(s.cache[Key(th.args)], th.args))
  {
    RunKeepsInvariant(states, steps, i);
    RunKeepsCalls(states, steps, i);
    var s, th := states[i], states[i].threads[t];
    if th.pc.Done? {
      var u :| u in s.threads && s.threads[u].args == th.pc.rm.builtFor;
      KeyInjective(s.threads[u].args, th.args);
    }
    if Key(th.args) in s.cache {
      var rm := s.cache[Key(th.args)];
      var u :| u in s.threads && s.threads[u].args == rm.builtFor;
      KeyInjective(s.threads[u].args, th.args);
    }
  }

  /* ---- Stability ---- */

  /** A thread that looked before there was a manager for its key, and has not stored its own yet. */
  predicate Pending(th: Thread) {
    || (th.pc.Looked? && th.pc.found.None?)
    || th.pc.Missed? || th.pc.Writing? || th.pc.Built?
  }

  ghost predicate NonePending(s: State, k: string) {
    forall t :: t in s.threads && Key(s.threads[t].args) == k ==> !Pending(s.threads[t])
  }

  /** The thread has not built a manager and is not going to. */
  predicate Hits(th: Thread) {
    th.pc.Start? || th.pc.Reading? || (th.pc.Looked? && th.pc.found.Some?) || (th.pc.Done? && !th.pc.built)
  }

  /** A key that is stored stays stored. */
  lemma {:induction false} StoredKeysStay(states: seq<State>, steps: seq<Step>, i: nat, j: nat, k: string)
    requires IsRun(states, steps) && i <= j < |states| && k in states[i].cache
    ensures k in states[j].cache
  {
    if i == j {
    } else {
      StoredKeysStay(states, steps, i, j - 1, k);
      assert Enabled(states[j - 1], steps[j - 1]) && states[j] == Do(states[j - 1], steps[j - 1]);
    }
  }

  /** A call whose lookup follows the first store for its key builds no manager. */
  lemma {:induction false} LateCallsBuildNothing(states: seq<State>, steps: seq<Step>, i: nat, j: nat, t: nat)
    requires IsRun(states, steps) && i <= j < |states| && t in states[j].threads
    requires Key(states[j].threads[t].args) in states[i].cache
    requires NotLooked(states[i], t)
    ensures Hits(states[j].threads[t])
  {
    if i == j {
    } else {
      var s, step := states[j - 1], steps[j - 1];
      assert Enabled(s, step) && states[j] == Do(s, step);
      if t in s.threads {
        ArgsStay(s, step, t);
        LateCallsBuildNothing(states, steps, i, j - 1, t);
        StoredKeysStay(states, steps, i, j - 1, Key(s.threads[t].args));
      }
    }
  }

  lemma StepKeepsStable(s: State, step: Step, k: string)
    requires Enabled(s, step) && k in s.cache && NonePending(s, k)
    ensures var s' := Do(s, step); k in s'.cache && s'.cache[k] == s.cache[k] && NonePending(s', k)
  {
  }

  /** The call has not looked into the map yet, or has not even been made. */
  predicate NotLooked(s: State, t: nat) {
    t in s.threads ==> s.threads[t].pc.Start? || s.threads[t].pc.Reading?
  }

  /** In state `s` a call for `k` that had not looked at first has found `rm`, if it has found anything. */
  ghost predicate Finds(s: State, t: nat, rm: Manager) {
    t in s.threads ==>
      match s.threads[t].pc
      case Start => true
      case Reading => true
      case Looked(found) => found == Some(rm)
      case Done(m, built) => m == rm && !built
      case _ => false
  }

  /**
   Once no call that missed a stored key is pending, the cached manager never changes again, and
   every call for the key that had not looked yet returns it.
   */
  lemma StableForever(states: seq<State>, steps: seq<Step>, i: nat, j: nat, k: string)
    requires IsRun(states, steps) && i <= j < |states|
    requires k in states[i].cache && NonePending(states[i], k)
    ensures k in states[j].cache && states[j].cache[k] == states[i].cache[k] && NonePending(states[j], k)
    ensures forall t :: NotLooked(states[i], t) && t in states[j].threads && Key(states[j].threads[t].args) == k ==>
                          Finds(states[j], t, states[i].cache[k])
  {
    StableUpTo(states, steps, i, j, k);
    forall t | NotLooked(states[i], t) && t in states[j].threads && Key(states[j].threads[t].args) == k
      ensures Finds(states[j], t, states[i].cache[k])
    {
      LateCallsFindIt(states, steps, i, j, k, t);
    }
  }

  lemma {:induction false} StableUpTo(states: seq<State>, steps: seq<Step>, i: nat, j: nat, k: string)
    requires IsRun(states, steps) && i <= j < |states|
    requires k in states[i].cache && NonePending(states[i], k)
    ensures k in states[j].cache && states[j].cache[k] == states[i].cache[k] && NonePending(states[j], k)
  {
    if i == j {
    } else {
      StableUpTo(states, steps, i, j - 1, k);
      assert Enabled(states[j - 1], steps[j - 1]) && states[j] == Do(states[j - 1], steps[j - 1]);
      StepKeepsStable(states[j - 1], steps[j - 1], k);
    }
  }

  lemma {:induction false} LateCallsFindIt(states: seq<State>, steps: seq<Step>, i: nat, j: nat, k: string, t: nat)
    requires IsRun(states, steps) && i <= j < |states|
    requires k in states[i].cache && NonePending(states[i], k)
    requires t in states[j].threads && Key(states[j].threads[t].args) == k
    requires NotLooked(states[i], t)
    ensures Finds(states[j], t, states[i].cache[k])
  {
    if i == j {
    } else {
      var s, step := states[j - 1], steps[j - 1];
      assert Enabled(s, step) && states[j] == Do(s, step);
      if t in s.threads {
        ArgsStay(s, step, t);
        LateCallsFindIt(states, steps, i, j - 1, k, t);
      }
      StableUpTo(states, steps, i, j - 1, k);
      StepFinds(s, step, t, k);
    }
  }

  lemma ArgsStay(s: State, step: Step, t: nat)
    requires Enabled(s, step) && t in s.threads
    ensures t in Do(s, step).threads && Do(s, step).threads[t].args == s.threads[t].args
  {
  }

  lemma StepFinds(s: State, step: Step, t: nat, k: string)
    requires Enabled(s, step) && k in s.cache && Finds(s, t, s.cache[k])
    requires t in Do(s, step).threads && Key(Do(s, step).threads[t].args) == k
    ensures Finds(Do(s, step), t, s.cache[k])
  {
  }

  /* ---- When the calls for a key share one manager ---- */

  /** Where a call can be after its lookup, which found something or not. */
  predicate OnItsWay(pc: PC, hit: bool) {
    match pc
    case Start => false
    case Reading => false
    case Looked(found) => found.Some? == hit
    case Done(_, built) => built == !hit
    case _ => !hit
  }

  /** A call builds a manager exactly when its lookup came before the first store for its key. */
  lemma {:induction false} LookupDecides(states: seq<State>, steps: seq<Step>, i: nat, j: nat, t: nat)
    requires IsRun(states, steps) && i < j < |states| && steps[i] == Lookup(t)
    ensures t in states[i].threads && t in states[j].threads && states[j].threads[t].args == states[i].threads[t].args
    ensures OnItsWay(states[j].threads[t].pc, Key(states[j].threads[t].args) in states[i].cache)
  {
    assert Enabled(states[j - 1], steps[j - 1]) && states[j] == Do(states[j - 1], steps[j - 1]);
    if j == i + 1 {
    } else {
      LookupDecides(states, steps, i, j - 1, t);
      ArgsStay(states[j - 1], steps[j - 1], t);
    }
  }

  /** A call that is past its lookup has looked. */
  lemma {:induction false} HasLooked(states: seq<State>, steps: seq<Step>, j: nat, t: nat) returns (i: nat)
    requires IsRun(states, steps) && j < |states| && !NotLooked(states[j], t)
    ensures i < j && steps[i] == Lookup(t)
  {
    assert j > 0;
    assert Enabled(states[j - 1], steps[j - 1]) && states[j] == Do(states[j - 1], steps[j - 1]);
    if NotLooked(states[j - 1], t) {
      i := j - 1;
    } else {
      i := HasLooked(states, steps, j - 1, t);
    }
  }

  /** The call has built `rm` itself. */
  predicate Builds(th: Thread, rm: Manager) {
    match th.pc
    case Built(m) => m == rm
    case Stored(m) => m == rm
    case Done(m, built) => built && m == rm
    case _ => false
  }

  ghost predicate HasBuilder(s: State, rm: Manager, k: string) {
    exists t :: t in s.threads && Key(s.threads[t].args) == k && Builds(s.threads[t], rm)
  }

  /** Every cached manager was built by a call for its key, and so was every manager that a call holds. */
  ghost predicate CacheBuilt(s: State) {
    forall k :: k in s.cache ==> HasBuilder(s, s.cache[k], k)
  }

  ghost predicate HeldBuilt(s: State) {
    forall t :: t in s.threads ==>
      match s.threads[t].pc
      case Looked(found) => found.Some? ==> HasBuilder(s, found.value, Key(s.threads[t].args))
      case Done(rm, _) => HasBuilder(s, rm, Key(s.threads[t].args))
      case _ => true
  }

  /** No two calls built the same manager. */
  ghost predicate BuildersDiffer(s: State) {
    && (forall t, rm :: t in s.threads && Builds(s.threads[t], rm) ==> rm.pointer < s.next)
    && forall t, u, rm :: t in s.threads && u in s.threads && Builds(s.threads[t], rm) && Builds(s.threads[u], rm) ==> t == u
  }

  lemma BuilderStays(s: State, step: Step, rm: Manager, k: string)
    requires Enabled(s, step) && HasBuilder(s, rm, k)
    ensures HasBuilder(Do(s, step), rm, k)
  {
    var t :| t in s.threads && Key(s.threads[t].args) == k && Builds(s.threads[t], rm);
    ArgsStay(s, step, t);
    assert Builds(Do(s, step).threads[t], rm);
  }

  lemma StepKeepsCacheBuilt(s: State, step: Step)
    requires CacheBuilt(s) && Enabled(s, step)
    ensures CacheBuilt(Do(s, step))
  {
    var s' := Do(s, step);
    forall k | k in s'.cache ensures HasBuilder(s', s'.cache[k], k) {
      if k in s.cache && s'.cache[k] == s.cache[k] {
        BuilderStays(s, step, s.cache[k], k);
      } else {
        assert Builds(s'.threads[step.t], s'.cache[k]);
      }
    }
  }

  lemma StepKeepsHeldBuilt(s: State, step: Step)
    requires CacheBuilt(s) && HeldBuilt(s) && Enabled(s, step)
    ensures HeldBuilt(Do(s, step))
  {
    var s' := Do(s, step);
    forall rm, k | HasBuilder(s, rm, k) ensures HasBuilder(s', rm, k) {
      BuilderStays(s, step, rm, k);
    }
    if step.Unlock? {
      assert Builds(s'.threads[step.t], s.threads[step.t].pc.rm);
    }
  }

  lemma StepKeepsDiffer(s: State, step: Step)
    requires BuildersDiffer(s) && Enabled(s, step)
    ensures BuildersDiffer(Do(s, step))
  {
    var s' := Do(s, step);
    forall t, rm | t in s'.threads && Builds(s'.threads[t], rm)
      ensures (t in s.threads && Builds(s.threads[t], rm)) || (step == Build(t) && rm.pointer == s.next < s'.next)
    {
    }
  }

  lemma {:induction false} RunKeepsBuilders(states: seq<State>, steps: seq<Step>, i: nat)
    requires IsRun(states, steps) && i < |states|
    ensures CacheBuilt(states[i]) && HeldBuilt(states[i]) && BuildersDiffer(states[i])
  {
    if i == 0 {
    } else {
      RunKeepsBuilders(states, steps, i - 1);
      StepKeepsCacheBuilt(states[i - 1], steps[i - 1]);
      StepKeepsHeldBuilt(states[i - 1], steps[i - 1]);
      StepKeepsDiffer(states[i - 1], steps[i - 1]);
    }
  }

  /** Every call for the key has returned. */
  ghost predicate AllDone(s: State, k: string) {
    forall t :: t in s.threads && Key(s.threads[t].args) == k ==> s.threads[t].pc.Done?
  }

  ghost predicate CallFor(s: State, t: nat, k: string) {
    t in s.threads && Key(s.threads[t].args) == k
  }

  ghost predicate OneManager(s: State, k: string)
    requires AllDone(s, k)
  {
    forall t, u :: CallFor(s, t, k) && CallFor(s, u, k) ==> s.threads[t].pc.rm == s.threads[u].pc.rm
  }

  /** At most one of the calls for the key built its manager. */
  ghost predicate OneBuilt(s: State, k: string)
    requires AllDone(s, k)
  {
    forall t, u :: CallFor(s, t, k) && CallFor(s, u, k) && s.threads[t].pc.built && s.threads[u].pc.built ==> t == u
  }

  lemma BuilderOf(s: State, k: string, t: nat) returns (p: nat)
    requires HeldBuilt(s) && AllDone(s, k) && CallFor(s, t, k)
    ensures CallFor(s, p, k) && s.threads[p].pc.built && s.threads[p].pc.rm == s.threads[t].pc.rm
  {
    var rm := s.threads[t].pc.rm;
    assert HasBuilder(s, rm, k);
    p :| p in s.threads && Key(s.threads[p].args) == k && Builds(s.threads[p], rm);
    assert CallFor(s, p, k);
  }

  /** Calls that have all returned got one and the same manager exactly when at most one of them built one. */
  lemma OneManagerIffOneBuilt(states: seq<State>, steps: seq<Step>, j: nat, k: string)
    requires IsRun(states, steps) && j < |states| && AllDone(states[j], k)
    ensures OneManager(states[j], k) <==> OneBuilt(states[j], k)
  {
    var s := states[j];
    RunKeepsBuilders(states, steps, j);
    if OneBuilt(s, k) {
      forall t, u | CallFor(s, t, k) && CallFor(s, u, k) ensures s.threads[t].pc.rm == s.threads[u].pc.rm {
        var p := BuilderOf(s, k, t);
        var q := BuilderOf(s, k, u);
      }
    }
    if OneManager(s, k) {
      forall t, u | CallFor(s, t, k) && CallFor(s, u, k) && s.threads[t].pc.built && s.threads[u].pc.built ensures t == u {
        assert Builds(s.threads[t], s.threads[t].pc.rm) && Builds(s.threads[u], s.threads[t].pc.rm);
      }
    }
  }

  /** Step `i` is the lookup of a call for the key, and nothing was stored for the key before it. */
  ghost predicate EarlyLookup(states: seq<State>, steps: seq<Step>, i: nat, t: nat, k: string)
    requires IsRun(states, steps)
  {
    i < |steps| && steps[i] == Lookup(t) && CallFor(states[i], t, k) && k !in states[i].cache
  }

  /** Among the first `j` steps there are no early lookups of two calls for the key. */
  ghost predicate OneEarly(states: seq<State>, steps: seq<Step>, j: nat, k: string)
    requires IsRun(states, steps)
  {
    forall h: nat, i: nat, t, u ::
      h < j && i < j && EarlyLookup(states, steps, h, t, k) && EarlyLookup(states, steps, i, u, k) ==> t == u
  }

  /** The calls that built are those with an early lookup. */
  lemma BuiltIffEarly(states: seq<State>, steps: seq<Step>, j: nat, k: string, t: nat)
    requires IsRun(states, steps) && j < |states| && AllDone(states[j], k)
    ensures CallFor(states[j], t, k) && states[j].threads[t].pc.built
            <==> exists i: nat :: i < j && EarlyLookup(states, steps, i, t, k)
  {
    forall i: nat | i < j && EarlyLookup(states, steps, i, t, k)
      ensures CallFor(states[j], t, k) && states[j].threads[t].pc.built
    {
      LookupDecides(states, steps, i, j, t);
    }
    if CallFor(states[j], t, k) && states[j].threads[t].pc.built {
      var i := HasLooked(states, steps, j, t);
      LookupDecides(states, steps, i, j, t);
      assert EarlyLookup(states, steps, i, t, k);
    }
  }

  /**
   The exact condition for one manager per key, under every interleaving: calls that have all returned got
   one and the same manager iff no two of them looked before the first store for the key.
   */
  lemma OneManagerIffOneEarly(states: seq<State>, steps: seq<Step>, j: nat, k: string)
    requires IsRun(states, steps) && j < |states| && AllDone(states[j], k)
    ensures OneManager(states[j], k) <==> OneEarly(states, steps, j, k)
  {
    OneManagerIffOneBuilt(states, steps, j, k);
    if OneBuilt(states[j], k) {
      forall h: nat, i: nat, t, u |
        h < j && i < j && EarlyLookup(states, steps, h, t, k) && EarlyLookup(states, steps, i, u, k)
        ensures t == u
      {
        BuiltIffEarly(states, steps, j, k, t);
        BuiltIffEarly(states, steps, j, k, u);
      }
    }
    if OneEarly(states, steps, j, k) {
      forall t, u | CallFor(states[j], t, k) && CallFor(states[j], u, k)
                    && states[j].threads[t].pc.built && states[j].threads[u].pc.built
        ensures t == u
      {
        BuiltIffEarly(states, steps, j, k, t);
        BuiltIffEarly(states, steps, j, k, u);
      }
    }
  }

  /* ---- Progress, and what is not promised ---- */

  /** No reachable state is a deadlock: while a call has not returned, some call can take a step. */
  lemma NoDeadlock(states: seq<State>, steps: seq<Step>, i: nat, t: nat)
    requires IsRun(states, steps) && i < |states|
    requires t in states[i].threads && !states[i].threads[t].pc.Done?
    ensures exists step: Step :: !step.Call? && Enabled(states[i], step)
  {
    RunKeepsInvariant(states, steps, i);
    var s := states[i];
    if s.writer.Some? {
      var w := s.writer.value;
      var step := match s.threads[w].pc case Writing => Build(w) case Built(_) => Store(w) case _ => Unlock(w);
      assert Enabled(s, step);
    } else if s.readers != {} {
      var r :| r in s.readers;
      var step := if s.threads[r].pc.Reading? then Lookup(r) else RUnlock(r);
      assert Enabled(s, step);
    } else {
      var step := if s.threads[t].pc.Start? then RLock(t) else Lock(t);
      assert Enabled(s, step);
    }
  }

  function Last(states: seq<State>): State
    requires states != []
  {
    states[|states| - 1]
  }

  /** A run and one more step. */
  lemma Then(states: seq<State>, steps: seq<Step>, step: Step) returns (states': seq<State>, steps': seq<Step>)
    requires IsRun(states, steps) && Enabled(Last(states), step)
    ensures IsRun(states', steps') && Last(states') == Do(Last(states), step)
  {
    states', steps' := states + [Do(Last(states), step)], steps + [step];
  }

  /** From Start to Missed while the map has no manager for the key. */
  lemma Miss(states: seq<State>, steps: seq<Step>, t: nat) returns (states': seq<State>, steps': seq<Step>)
    requires IsRun(states, steps) && var s := Last(states);
      t in s.threads && s.threads[t].pc.Start? && s.writer.None? && s.readers == {} && s.cache == map[]
    ensures IsRun(states', steps') && Last(states') == Goto(Last(states), t, Missed)
  {
    states', steps' := Then(states, steps, RLock(t));
    states', steps' := Then(states', steps', Lookup(t));
    states', steps' := Then(states', steps', RUnlock(t));
    assert Last(states').readers == {};
    assert Last(states').threads == Goto(Last(states), t, Missed).threads;
  }

  /** From Missed to the return of a new manager. */
  lemma BuildAndStore(states: seq<State>, steps: seq<Step>, t: nat) returns (states': seq<State>, steps': seq<Step>)
    requires IsRun(states, steps) && var s := Last(states);
      t in s.threads && s.threads[t].pc.Missed? && s.writer.None? && s.readers == {}
    ensures IsRun(states', steps')
    ensures var s := Last(states);
      var args := s.threads[t].args;
      var rm := Manager(s.next, args.id, args.region, args);
      Last(states') == Goto(s, t, Done(rm, true)).(cache := s.cache[Key(args) := rm], next := s.next + 1)
  {
    states', steps' := Then(states, steps, Lock(t));
    states', steps' := Then(states', steps', Build(t));
    states', steps' := Then(states', steps', Store(t));
    states', steps' := Then(states', steps', Unlock(t));
    var args := Last(states).threads[t].args;
    var rm := Manager(Last(states).next, args.id, args.region, args);
    assert Last(states').threads == Goto(Last(states), t, Done(rm, true)).threads;
  }

  /**
   One manager per key is not promised: two calls that both look before either stores build two
   managers, return different ones, and the later store replaces the earlier.
   */
  lemma RaceBuildsTwo(a: Args) returns (states: seq<State>, steps: seq<Step>)
    ensures IsRun(states, steps)
    ensures var s := Last(states);
      && s.threads.Keys == {0, 1} && s.threads[0].args == s.threads[1].args == a
      && s.threads[0].pc.Done? && s.threads[1].pc.Done?
      && s.threads[0].pc.rm != s.threads[1].pc.rm
      && Find(s.cache, Key(a)) == Some(s.threads[1].pc.rm)
  {
    states, steps := [EMPTY], [];
    states, steps := Then(states, steps, Call(0, a));
    states, steps := Then(states, steps, Call(1, a));
    states, steps := Miss(states, steps, 0);
    states, steps := Miss(states, steps, 1);
    states, steps := BuildAndStore(states, steps, 0);
    states, steps := BuildAndStore(states, steps, 1);
  }
}
