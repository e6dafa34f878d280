/** The cache in front of the discovery-based schema resolver: its three
    operations as methods, and as a protocol of threads around one read/write
    lock, with a discovery that may change at any time. */
module SchemaCache {
  import opened Kinds
  import opened Results

  /** What discovery answers for a kind; errors are cached like schemas. */
  datatype Answer = Schema(text: string) | Failure(message: string)

  // ---- The operations ----

  function Purged<V>(cache: map<Kind, V>, gk: GroupKind): map<Kind, V> {
    map k | k in cache && k.Target() != gk :: cache[k]
  }

  class Controller {
    var cache: map<Kind, Answer>

    constructor ()
      ensures cache == map[]
    {
      cache := map[];
    }

    method ResolveFromCache(k: Kind) returns (r: Option<Answer>)
      ensures r == if k in cache then Some(cache[k]) else None
    {
      if k in cache {
        return Some(cache[k]);
      }
      return None;
    }

    /** `discovery` is what the discovery resolver answers during this call. */
    method ResolveSchema(k: Kind, discovery: Answer) returns (r: Answer)
      modifies this
      ensures r == if k in old(cache) then old(cache)[k] else discovery
      ensures cache == if k in old(cache) then old(cache) else old(cache)[k := discovery]
    {
      var hit := ResolveFromCache(k);
      if hit.Some? {
        return hit.value;
      }
      cache := cache[k := discovery];
      r := discovery;
    }

    /** The loop over the cache; Go's range visits the keys in any order. */
    method Purge(gk: GroupKind)
      modifies this
      ensures cache == Purged(old(cache), gk)
      ensures forall k :: k in cache <==> k in old(cache) && !(k.group == gk.group && k.kind == gk.kind)
      ensures forall k :: k in cache ==> cache[k] == old(cache)[k]
    {
      var todo := cache.Keys;
      while todo != {}
        invariant todo <= old(cache).Keys
        invariant forall k :: k in cache <==> k in old(cache) && (k in todo || k.Target() != gk)
        invariant forall k :: k in cache ==> cache[k] == old(cache)[k]
        decreases todo
      {
        var k :| k in todo;
        if k.group == gk.group && k.kind == gk.kind {
          cache := cache - {k};
        }
        todo := todo - {k};
      }
    }

    /** The handlers of the informer. `own` is the group and kind of the definition
        object itself, not of the objects that it defines. */
    method OnAdd(own: GroupKind)
      modifies this
      ensures cache == Purged(old(cache), own)
      ensures forall k :: k in cache <==> k in old(cache) && !(k.group == own.group && k.kind == own.kind)
    {
      Purge(own);
    }

    method OnUpdate(oldOwn: GroupKind, newOwn: GroupKind)
      modifies this
      ensures cache == Purged(Purged(old(cache), oldOwn), newOwn)
      ensures forall k :: k in cache <==>
        k in old(cache) && !(k.group == oldOwn.group && k.kind == oldOwn.kind)
        && !(k.group == newOwn.group && k.kind == newOwn.kind)
    {
      Purge(oldOwn);
      Purge(newOwn);
    }

    method OnDelete(own: GroupKind)
      modifies this
      ensures cache == Purged(old(cache), own)
      ensures forall k :: k in cache <==> k in old(cache) && !(k.group == own.group && k.kind == own.kind)
    {
      Purge(own);
    }
  }

  // ---- The protocol ----

  type Discovery = Kind -> Answer

  /** A cached answer and the time at which discovery was asked for it. */
  datatype Entry = Entry(answer: Answer, at: nat)

  /** `since` is the first tick at which the last purge that was complete when the
      call started had held the lock; `start` is that tick for a purge. */
  datatype Thread =
    | Resolving(kind: Kind, since: nat)              // not yet in the cache lookup
    | Reading(kind: Kind, since: nat)                // holds the read lock
    | Missed(kind: Kind, since: nat)                 // lookup done, nothing found
    | Locked(kind: Kind, since: nat)                 // holds the write lock
    | Fetched(kind: Kind, since: nat, entry: Entry)  // discovery has answered, lock still held
    | Answered(kind: Kind, since: nat, entry: Entry)
    | Purging(target: GroupKind)                     // waits for the write lock
    | PurgeLocked(target: GroupKind, start: nat)     // holds the write lock
    | PurgeDone(target: GroupKind, start: nat)
  {
    predicate ReadsUnderLock() { Reading? }
    predicate Writes() { Locked? || Fetched? || PurgeLocked? }
  }

  /** `past[t]` is the discovery in force at time `t`; every step takes one tick.
      `purged` holds the `start` of the last complete purge of a group and kind. */
  datatype State = State(
    cache: map<Kind, Entry>,
    threads: seq<Thread>,
    past: seq<Discovery>,
    purged: map<GroupKind, nat>)
  {
    function Now(): nat
      requires |past| > 0
    {
      |past| - 1
    }

    function PurgeTime(gk: GroupKind): nat {
      if gk in purged then purged[gk] else 0
    }

    predicate Free(i: nat) {
      forall j :: 0 <= j < |threads| && j != i ==> !threads[j].Writes()
    }

    predicate Unread(i: nat) {
      forall j :: 0 <= j < |threads| && j != i ==> !threads[j].ReadsUnderLock()
    }
  }

  datatype Step =
    | StartResolve(kind: Kind)
    | StartPurge(target: GroupKind)
    | Rediscover(next: Discovery)
    | ReadLock(i: nat)
    | Lookup(i: nat)
    | WriteLock(i: nat)
    | Fetch(i: nat)
    | Store(i: nat)
    | PurgeLock(i: nat)
    | PurgeAll(i: nat)

  predicate Enabled(s: State, step: Step) {
    match step
    case StartResolve(_) => true
    case StartPurge(_) => true
    case Rediscover(_) => true
    case ReadLock(i) => i < |s.threads| && s.threads[i].Resolving? && s.Free(i)
    case Lookup(i) => i < |s.threads| && s.threads[i].Reading?
    case WriteLock(i) => i < |s.threads| && s.threads[i].Missed? && s.Free(i) && s.Unread(i)
    case Fetch(i) => i < |s.threads| && s.threads[i].Locked?
    case Store(i) => i < |s.threads| && s.threads[i].Fetched?
    case PurgeLock(i) => i < |s.threads| && s.threads[i].Purging? && s.Free(i) && s.Unread(i)
    case PurgeAll(i) => i < |s.threads| && s.threads[i].PurgeLocked?
  }

  function Moved(s: State, i: nat, t: Thread): State
    requires i < |s.threads|
  {
    s.(threads := s.threads[i := t])
  }

  function Apply(s: State, step: Step): State
    requires Enabled(s, step) && |s.past| > 0
  {
    var now := s.past[|s.past| - 1];
    var tick := s.past + [if step.Rediscover? then step.next else now];
    Effect(s, step).(past := tick)
  }

  function Effect(s: State, step: Step): State
    requires Enabled(s, step) && |s.past| > 0
  {
    match step
    case StartResolve(k) => s.(threads := s.threads + [Resolving(k, s.PurgeTime(k.Target()))])
    case StartPurge(gk) => s.(threads := s.threads + [Purging(gk)])
    case Rediscover(_) => s
    case ReadLock(i) => Moved(s, i, Reading(s.threads[i].kind, s.threads[i].since))
    case Lookup(i) =>
      var t := s.threads[i];
      Moved(s, i, if t.kind in s.cache then Answered(t.kind, t.since, s.cache[t.kind]) else Missed(t.kind, t.since))
    case WriteLock(i) => Moved(s, i, Locked(s.threads[i].kind, s.threads[i].since))
    case Fetch(i) =>
      var t := s.threads[i];
      Moved(s, i, Fetched(t.kind, t.since, Entry(s.past[s.Now()](t.kind), s.Now())))
    case Store(i) =>
      var t := s.threads[i];
      Moved(s, i, Answered(t.kind, t.since, t.entry)).(cache := s.cache[t.kind := t.entry])
    case PurgeLock(i) => Moved(s, i, PurgeLocked(s.threads[i].target, s.Now() + 1))
    case PurgeAll(i) =>
      var t := s.threads[i];
      var moved := Moved(s, i, PurgeDone(t.target, t.start));
      moved.(cache := Purged(s.cache, t.target), purged := s.purged[t.target := t.start])
  }

  function Initial(d: Discovery): State {
    State(map[], [], [d], map[])
  }

  /** The steps lead from `s` to `t`. */
  ghost predicate Leads(s: State, steps: seq<Step>, t: State)
    decreases |steps|
  {
    if steps == [] then t == s
    else |s.past| > 0 && Enabled(s, steps[0]) && Leads(Apply(s, steps[0]), steps[1..], t)
  }

  ghost predicate Reachable(s: State) {
    exists d, steps :: Leads(Initial(d), steps, s)
  }

  // ---- Invariant ----

  /** The entry is what discovery answered for this kind at a past time, after the
      lock time `since`. */
  ghost predicate Genuine(s: State, k: Kind, e: Entry, since: nat) {
    since <= e.at < |s.past| && e.answer == s.past[e.at](k)
  }

  /** A thread with the write lock is alone with it. */
  predicate LockRight(s: State, i: nat) {
    i < |s.threads| && s.threads[i].Writes() ==> s.Free(i) && s.Unread(i)
  }

  ghost predicate ThreadRight(s: State, i: nat) {
    i < |s.threads| ==>
      match s.threads[i]
      case Fetched(k, since, e) =>
        since <= s.PurgeTime(k.Target()) && Genuine(s, k, e, s.PurgeTime(k.Target()))
      case Answered(k, since, e) => Genuine(s, k, e, since)
      case Purging(_) => true
      case PurgeLocked(gk, start) => s.PurgeTime(gk) <= start < |s.past|
      case PurgeDone(gk, start) => start <= s.PurgeTime(gk)
      case t => t.since <= s.PurgeTime(t.kind.Target())
  }

  ghost predicate EntryRight(s: State, k: Kind) {
    && s.PurgeTime(k.Target()) < |s.past|
    && (k in s.cache ==> Genuine(s, k, s.cache[k], s.PurgeTime(k.Target())))
  }

  ghost predicate Inv(s: State) {
    && |s.past| > 0
    && (forall i: nat :: LockRight(s, i))
    && (forall i: nat :: ThreadRight(s, i))
    && (forall k: Kind :: EntryRight(s, k))
  }

  lemma PastStays(s: State, step: Step)
    requires Enabled(s, step) && |s.past| > 0
    ensures var t := Apply(s, step);
      |t.past| == |s.past| + 1 && forall n :: 0 <= n < |s.past| ==> t.past[n] == s.past[n]
  {}

  lemma StepKeepsEntry(s: State, step: Step, k: Kind)
    requires Inv(s) && Enabled(s, step)
    ensures EntryRight(Apply(s, step), k)
  {
    PastStays(s, step);
    assert EntryRight(s, k);
    match step
    case Store(i) => assert ThreadRight(s, i);
    case PurgeAll(i) => assert ThreadRight(s, i);
    case _ =>
  }

  /** The thread that takes the step, or none. */
  function Actor(step: Step): Option<nat> {
    match step
    case StartResolve(_) => None
    case StartPurge(_) => None
    case Rediscover(_) => None
    case ReadLock(i) => Some(i)
    case Lookup(i) => Some(i)
    case WriteLock(i) => Some(i)
    case Fetch(i) => Some(i)
    case Store(i) => Some(i)
    case PurgeLock(i) => Some(i)
    case PurgeAll(i) => Some(i)
  }

  lemma OthersStay(s: State, step: Step)
    requires Enabled(s, step) && |s.past| > 0
    ensures var t := Apply(s, step);
      && |s.threads| <= |t.threads|
      && (forall j :: 0 <= j < |s.threads| && Actor(step) != Some(j) ==> t.threads[j] == s.threads[j])
      && (forall j :: |s.threads| <= j < |t.threads| ==> t.threads[j].Resolving? || t.threads[j].Purging?)
  {}

  /** Threads gain a lock only if it is free. */
  lemma LocksGained(s: State, step: Step, j: nat)
    requires Enabled(s, step) && |s.past| > 0 && Actor(step) == Some(j)
    ensures j < |s.threads| && j < |Apply(s, step).threads|
    ensures Apply(s, step).threads[j].Writes() ==> s.threads[j].Writes() || (s.Free(j) && s.Unread(j))
    ensures Apply(s, step).threads[j].ReadsUnderLock() ==> s.Free(j)
  {}

  lemma StepKeepsLock(s: State, step: Step, i: nat)
    requires (forall j: nat :: LockRight(s, j)) && |s.past| > 0 && Enabled(s, step)
    ensures LockRight(Apply(s, step), i)
  {
    var t := Apply(s, step);
    OthersStay(s, step);
    assert LockRight(s, i);
    if Actor(step).Some? {
      LocksGained(s, step, Actor(step).value);
    }
    if i < |t.threads| && t.threads[i].Writes() {
      assert i < |s.threads|;
      forall j | 0 <= j < |t.threads| && j != i ensures !t.threads[j].Writes() && !t.threads[j].ReadsUnderLock() {
        if j < |s.threads| {
          assert LockRight(s, j);
        }
      }
    }
  }

  lemma ActorKeepsThread(s: State, step: Step, i: nat)
    requires Enabled(s, step) && |s.past| > 0 && Actor(step) == Some(i) && ThreadRight(s, i)
    requires i < |s.threads| && !s.threads[i].Purging? && !s.threads[i].PurgeLocked? ==>
      EntryRight(s, s.threads[i].kind)
    requires i < |s.threads| && s.threads[i].Purging? ==> s.PurgeTime(s.threads[i].target) < |s.past|
    ensures ThreadRight(Apply(s, step), i)
  {}

  /** A thread that does not move stays right while no purge ends. */
  lemma FrameKeepsThread(s: State, t: State, i: nat)
    requires ThreadRight(s, i) && i < |s.threads| && i < |t.threads| && t.threads[i] == s.threads[i]
    requires |s.past| <= |t.past| && forall n :: 0 <= n < |s.past| ==> t.past[n] == s.past[n]
    requires t.purged == s.purged
    ensures ThreadRight(t, i)
  {}

  lemma PurgeKeepsThread(s: State, j: nat, i: nat)
    requires |s.past| > 0 && Enabled(s, PurgeAll(j)) && i != j && i < |s.threads| && ThreadRight(s, i)
    requires LockRight(s, j) && ThreadRight(s, j)
    ensures ThreadRight(Apply(s, PurgeAll(j)), i)
  {}

  lemma BystanderKeepsThread(s: State, step: Step, i: nat)
    requires Enabled(s, step) && |s.past| > 0 && Actor(step) != Some(i) && ThreadRight(s, i)
    requires Actor(step).Some? ==> LockRight(s, Actor(step).value) && ThreadRight(s, Actor(step).value)
    ensures ThreadRight(Apply(s, step), i)
  {
    PastStays(s, step);
    OthersStay(s, step);
    if i < |s.threads| {
      if step.PurgeAll? {
        PurgeKeepsThread(s, Actor(step).value, i);
      } else {
        FrameKeepsThread(s, Apply(s, step), i);
      }
    }
  }

  lemma StepKeepsThread(s: State, step: Step, i: nat)
    requires Inv(s) && Enabled(s, step)
    ensures ThreadRight(Apply(s, step), i)
  {
    assert ThreadRight(s, i);
    if Actor(step) == Some(i) {
      var t := s.threads[i];
      if t.Purging? {
        assert EntryRight(s, Kind(t.target.group, "", t.target.kind));
      } else if !t.PurgeLocked? {
        assert EntryRight(s, t.kind);
      }
      ActorKeepsThread(s, step, i);
    } else {
      if Actor(step).Some? {
        assert LockRight(s, Actor(step).value) && ThreadRight(s, Actor(step).value);
      }
      BystanderKeepsThread(s, step, i);
    }
  }

  lemma StepKeepsInv(s: State, step: Step)
    requires Inv(s) && Enabled(s, step)
    ensures Inv(Apply(s, step))
  {
    PastStays(s, step);
    forall i: nat ensures LockRight(Apply(s, step), i) {
      StepKeepsLock(s, step, i);
    }
    forall i: nat ensures ThreadRight(Apply(s, step), i) {
      StepKeepsThread(s, step, i);
    }
    forall k ensures EntryRight(Apply(s, step), k) {
      StepKeepsEntry(s, step, k);
    }
  }

  lemma {:induction false} RunsKeepInv(s: State, steps: seq<Step>, t: State)
    requires Inv(s) && Leads(s, steps, t)
    ensures Inv(t)
    decreases |steps|
  {
    if steps != [] {
      StepKeepsInv(s, steps[0]);
      RunsKeepInv(Apply(s, steps[0]), steps[1..], t);
    }
  }

  lemma ReachableInv(s: State)
    requires Reachable(s)
    ensures Inv(s)
  {
    var d, steps :| Leads(Initial(d), steps, s);
    RunsKeepInv(Initial(d), steps, s);
  }

  // ---- Main results ----

  predicate IsCall(t: Thread, k: Kind, since: nat) {
    !(t.Purging? || t.PurgeLocked? || t.PurgeDone?) && t.kind == k && t.since == since
  }

  lemma CallStaysAtStep(s: State, step: Step, i: nat)
    requires Enabled(s, step) && |s.past| > 0 && i < |s.threads|
    ensures i < |Apply(s, step).threads|
    ensures forall k, since :: IsCall(s.threads[i], k, since) ==> IsCall(Apply(s, step).threads[i], k, since)
  {}

  /** A call keeps its kind and its start. */
  lemma {:induction false} CallStays(s: State, steps: seq<Step>, t: State, i: nat, k: Kind, since: nat)
    requires Leads(s, steps, t) && i < |s.threads| && IsCall(s.threads[i], k, since)
    ensures i < |t.threads| && IsCall(t.threads[i], k, since)
    decreases |steps|
  {
    if steps != [] {
      CallStaysAtStep(s, steps[0], i);
      CallStays(Apply(s, steps[0]), steps[1..], t, i, k, since);
    }
  }

  /** A purge, complete or not, that is of the group and kind of `k`. */
  predicate IsPurgeOf(t: Thread, k: Kind) {
    (t.Purging? || t.PurgeLocked? || t.PurgeDone?) && t.target.group == k.group && t.target.kind == k.kind
  }

  /** Freshness: once a purge is complete, a call for a kind of its group and kind
      that starts later answers what discovery answered, for exactly that kind, at
      a time at which the purge had already taken the lock. */
  lemma AnswersAreFresh(p: State, j: nat, k: Kind, steps: seq<Step>, s: State)
    requires Reachable(p) && j < |p.threads| && p.threads[j].PurgeDone? && IsPurgeOf(p.threads[j], k)
    requires |p.past| > 0 && Leads(Apply(p, StartResolve(k)), steps, s)
    ensures var i := |p.threads|;
      i < |s.threads| && (s.threads[i].Answered? ==>
        var e := s.threads[i].entry;
        s.threads[i].kind == k && p.threads[j].start <= e.at < |s.past| && e.answer == s.past[e.at](k))
  {
    var i, since := |p.threads|, p.PurgeTime(k.Target());
    ReachableInv(p);
    assert ThreadRight(p, j);
    StepKeepsInv(p, StartResolve(k));
    RunsKeepInv(Apply(p, StartResolve(k)), steps, s);
    assert IsCall(Apply(p, StartResolve(k)).threads[i], k, since);
    CallStays(Apply(p, StartResolve(k)), steps, s, i, k, since);
    assert ThreadRight(s, i);
  }

  /** The cache holds no answer older than any complete purge of its group and kind,
      and every entry is what discovery once answered for exactly its key. */
  lemma EntriesAreFresh(s: State, k: Kind)
    requires Reachable(s) && k in s.cache
    ensures var e := s.cache[k]; e.at < |s.past| && e.answer == s.past[e.at](k)
    ensures forall j :: 0 <= j < |s.threads| && s.threads[j].PurgeDone? && IsPurgeOf(s.threads[j], k) ==>
      s.threads[j].start <= s.cache[k].at
  {
    ReachableInv(s);
    assert EntryRight(s, k);
    forall j | 0 <= j < |s.threads| && s.threads[j].PurgeDone? && IsPurgeOf(s.threads[j], k)
      ensures s.threads[j].start <= s.cache[k].at
    {
      assert ThreadRight(s, j);
    }
  }

  // ---- The same, told by the steps of the run ----

  /** Every step takes one tick, and the discovery in force is the one last set. */
  lemma {:induction false} PastIsTold(s: State, steps: seq<Step>, t: State)
    requires Leads(s, steps, t) && |s.past| > 0
    ensures |t.past| == |s.past| + |steps| && t.past[..|s.past|] == s.past
    ensures forall n :: 0 <= n < |steps| ==>
      t.past[|s.past| + n] == if steps[n].Rediscover? then steps[n].next else t.past[|s.past| + n - 1]
    decreases |steps|
  {
    if steps != [] {
      var u := Apply(s, steps[0]);
      PastStays(s, steps[0]);
      PastIsTold(u, steps[1..], t);
      assert u.past[..|s.past|] == s.past;
      assert t.past[..|u.past|][..|s.past|] == t.past[..|s.past|];
      assert t.past[..|u.past|][|s.past|] == u.past[|s.past|];
      assert t.past[..|u.past|][|s.past| - 1] == u.past[|s.past| - 1];
      forall n | 0 < n < |steps| ensures t.past[|s.past| + n] ==
        if steps[n].Rediscover? then steps[n].next else t.past[|s.past| + n - 1]
      {
        assert steps[1..][n - 1] == steps[n];
      }
    }
  }

  predicate IsLockedPurge(t: Thread, gk: GroupKind, start: nat) {
    (t.PurgeLocked? || t.PurgeDone?) && t.target == gk && t.start == start
  }

  lemma {:induction false} PurgeStays(s: State, steps: seq<Step>, t: State, j: nat, gk: GroupKind, start: nat)
    requires Leads(s, steps, t) && j < |s.threads| && IsLockedPurge(s.threads[j], gk, start)
    ensures j < |t.threads| && IsLockedPurge(t.threads[j], gk, start)
    decreases |steps|
  {
    if steps != [] {
      OthersStay(s, steps[0]);
      PurgeStays(Apply(s, steps[0]), steps[1..], t, j, gk, start);
    }
  }

  /** In a run, thread `j` takes the lock to purge the group and kind of `k` in state
      `l`, it is done in `p`, and then a call for `k` starts: if the call has answered in
      `s`, then with what discovery said at a time after `l`. */
  lemma AnswersAreFreshInRuns(
    l: State, j: nat, before: seq<Step>, p: State, k: Kind, after: seq<Step>, s: State)
    requires Reachable(l) && |l.past| > 0 && Enabled(l, PurgeLock(j)) && IsPurgeOf(l.threads[j], k)
    requires Leads(Apply(l, PurgeLock(j)), before, p) && j < |p.threads| && p.threads[j].PurgeDone?
    requires |p.past| > 0 && Leads(Apply(p, StartResolve(k)), after, s)
    ensures var i := |p.threads|;
      i < |s.threads| && (s.threads[i].Answered? ==>
        var e := s.threads[i].entry;
        s.threads[i].kind == k && |l.past| <= e.at < |s.past| && e.answer == s.past[e.at](k))
  {
    var gk := l.threads[j].target;
    PurgeStays(Apply(l, PurgeLock(j)), before, p, j, gk, |l.past|);
    ReachableThrough(l, PurgeLock(j), before, p);
    AnswersAreFresh(p, j, k, after, s);
  }

  lemma ReachableThrough(s: State, step: Step, steps: seq<Step>, t: State)
    requires Reachable(s) && |s.past| > 0 && Enabled(s, step) && Leads(Apply(s, step), steps, t)
    ensures Reachable(t)
  {
    var d, before :| Leads(Initial(d), before, s);
    assert ([step] + steps)[1..] == steps;
    assert Leads(s, [step] + steps, t);
    LeadsAcross(Initial(d), before, s, [step] + steps, t);
  }

  lemma {:induction false} LeadsAcross(s: State, steps: seq<Step>, t: State, more: seq<Step>, u: State)
    requires Leads(s, steps, t) && Leads(t, more, u)
    ensures Leads(s, steps + more, u)
    decreases |steps|
  {
    if steps == [] {
      assert [] + more == more;
    } else {
      LeadsAcross(Apply(s, steps[0]), steps[1..], t, more, u);
      assert (steps + more)[1..] == steps[1..] + more;
    }
  }

  lemma {:induction false} DiscoveryStays(s: State, d: Discovery, steps: seq<Step>, t: State)
    requires Leads(s, steps, t) && forall n :: 0 <= n < |steps| ==> !steps[n].Rediscover?
    requires |s.past| > 0 && forall n :: 0 <= n < |s.past| ==> s.past[n] == d
    ensures forall n :: 0 <= n < |t.past| ==> t.past[n] == d
    decreases |steps|
  {
    if steps != [] {
      PastStays(s, steps[0]);
      DiscoveryStays(Apply(s, steps[0]), d, steps[1..], t);
    }
  }

  /** With a discovery that does not change, every call answers what discovery
      answers, errors included. */
  lemma CacheIsTransparent(d: Discovery, steps: seq<Step>, s: State, i: nat)
    requires Leads(Initial(d), steps, s) && forall n :: 0 <= n < |steps| ==> !steps[n].Rediscover?
    requires i < |s.threads| && s.threads[i].Answered?
    ensures s.threads[i].entry.answer == d(s.threads[i].kind)
  {
    ReachableInv(s);
    DiscoveryStays(Initial(d), d, steps, s);
    assert ThreadRight(s, i);
  }

  /** Two threads never write at once, and none reads while one writes. */
  lemma LockExcludes(s: State, i: nat, j: nat)
    requires Reachable(s) && i < |s.threads| && j < |s.threads| && i != j
    ensures s.threads[i].Writes() ==> !s.threads[j].Writes() && !s.threads[j].ReadsUnderLock()
  {
    ReachableInv(s);
    assert LockRight(s, i);
  }
}
