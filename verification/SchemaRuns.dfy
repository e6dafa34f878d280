/** Which purge makes later answers for a kind fresh: the one of its own group and
    kind, and no other. */
module SchemaRuns {
  import opened Kinds
  import opened Results
  import opened SchemaCache

  /** In the run from `p` to `s`, a call for `k` starts when the purge of `gk` by thread
      `j` is complete. */
  ghost predicate CallAfterPurge(p: State, j: nat, gk: GroupKind, k: Kind, steps: seq<Step>, s: State) {
    && Reachable(p) && |p.past| > 0
    && j < |p.threads| && p.threads[j].PurgeDone? && p.threads[j].target == gk
    && Leads(Apply(p, StartResolve(k)), steps, s)
  }

  /** If the call has answered, then with something that discovery said after the purge
      had taken the lock. */
  predicate AnswersSince(p: State, j: nat, s: State) {
    var i := |p.threads|;
    i < |s.threads| && j < |p.threads| && p.threads[j].PurgeDone?
    && (s.threads[i].Answered? ==> p.threads[j].start <= s.threads[i].entry.at)
  }

  ghost predicate PurgeFreshens(gk: GroupKind, k: Kind) {
    forall p: State, j: nat, steps: seq<Step>, s: State ::
      CallAfterPurge(p, j, gk, k, steps, s) ==> AnswersSince(p, j, s)
  }

  /** A purge makes later answers for a kind fresh in all runs exactly if it is of that
      kind's group and kind. */
  lemma FreshensExactly(gk: GroupKind, k: Kind)
    ensures PurgeFreshens(gk, k) <==> gk.group == k.group && gk.kind == k.kind
  {
    if gk.group == k.group && gk.kind == k.kind {
      forall p: State, j: nat, steps: seq<Step>, s: State | CallAfterPurge(p, j, gk, k, steps, s)
        ensures AnswersSince(p, j, s)
      {
        AnswersAreFresh(p, j, k, steps, s);
      }
    } else {
      var p, s := OtherPurgeLeavesStale(gk, k);
      assert CallAfterPurge(p, 1, gk, k, [ReadLock(2), Lookup(2)], s) && !AnswersSince(p, 1, s);
    }
  }

  const BEFORE: Discovery := _ => Schema("before")
  const AFTER: Discovery := _ => Schema("after")

  /** The definition of a kind changes, its handler purges the definition's own group and
      kind, and a later call still answers the old schema, though discovery has had the
      new one since before the purge began. */
  lemma OtherPurgeLeavesStale(gk: GroupKind, k: Kind) returns (p: State, s: State)
    requires gk.group != k.group || gk.kind != k.kind
    ensures CallAfterPurge(p, 1, gk, k, [ReadLock(2), Lookup(2)], s)
    ensures |p.threads| == 2 && p.threads[1].start < |s.past|
    ensures forall n :: p.threads[1].start <= n < |s.past| ==> s.past[n](k) == Schema("after")
    ensures |s.threads| == 3 && s.threads[2].Answered? && s.threads[2].kind == k
    ensures s.threads[2].entry.at < p.threads[1].start && s.threads[2].entry.answer == Schema("before")
  {
    var a := Looked(k);
    var b := Stored(a, k);
    p := PurgedOther(b, gk, k);
    s := AnsweredFromCache(p, k);
  }

  lemma Go(s: State, step: Step) returns (t: State)
    requires Reachable(s) && |s.past| > 0 && Enabled(s, step)
    ensures Reachable(t) && t == Apply(s, step) && |t.past| == |s.past| + 1
    ensures t.past == s.past + [if step.Rediscover? then step.next else s.past[|s.past| - 1]]
  {
    t := Apply(s, step);
    assert Leads(t, [], t);
    ReachableThrough(s, step, [], t);
  }

  lemma Looked(k: Kind) returns (s: State)
    ensures Reachable(s) && s.threads == [Missed(k, 0)] && s.cache == map[] && s.purged == map[]
    ensures s.past == [BEFORE, BEFORE, BEFORE, BEFORE]
  {
    assert Leads(Initial(BEFORE), [], Initial(BEFORE));
    s := Go(Initial(BEFORE), StartResolve(k));
    assert s.threads == [Resolving(k, 0)];
    s := Go(s, ReadLock(0));
    assert s.threads == [Reading(k, 0)];
    s := Go(s, Lookup(0));
  }

  lemma FetchedOnce(a: State, k: Kind) returns (s: State)
    requires Reachable(a) && a.threads == [Missed(k, 0)] && a.cache == map[] && a.purged == map[]
    requires a.past == [BEFORE, BEFORE, BEFORE, BEFORE]
    ensures Reachable(s) && s.purged == map[] && s.cache == map[] && |s.past| == 6
    ensures s.threads == [Fetched(k, 0, Entry(Schema("before"), 4))]
  {
    s := Go(a, WriteLock(0));
    assert s.threads == [Locked(k, 0)] && s.past[4] == BEFORE;
    s := Go(s, Fetch(0));
  }

  lemma Stored(a: State, k: Kind) returns (s: State)
    requires Reachable(a) && a.threads == [Missed(k, 0)] && a.cache == map[] && a.purged == map[]
    requires a.past == [BEFORE, BEFORE, BEFORE, BEFORE]
    ensures Reachable(s) && s.purged == map[] && |s.past| == 7
    ensures s.cache == map[k := Entry(Schema("before"), 4)] && s.threads == [Answered(k, 0, s.cache[k])]
  {
    s := FetchedOnce(a, k);
    s := Go(s, Store(0));
  }

  /** Discovery changes, and the handler waits for the lock. */
  lemma Changed(a: State, gk: GroupKind) returns (s: State)
    requires Reachable(a) && |a.past| == 7
    ensures Reachable(s) && s.cache == a.cache && s.purged == a.purged && s.threads == a.threads + [Purging(gk)]
    ensures |s.past| == 9 && s.past[7] == AFTER && s.past[8] == AFTER
  {
    s := Go(a, Rediscover(AFTER));
    s := Go(s, StartPurge(gk));
  }

  lemma PurgeBegun(a: State, gk: GroupKind, t: Thread) returns (s: State)
    requires Reachable(a) && |a.past| == 9 && a.threads == [t] + [Purging(gk)] && t.Answered?
    ensures Reachable(s) && s.cache == a.cache && s.purged == a.purged && s.threads == [t, PurgeLocked(gk, 9)]
    ensures |s.past| == 10 && s.past == a.past + [a.past[8]]
  {
    s := Go(a, PurgeLock(1));
  }

  lemma PurgeEnded(a: State, gk: GroupKind, k: Kind, t: Thread) returns (s: State)
    requires Reachable(a) && |a.past| == 10 && a.threads == [t, PurgeLocked(gk, 9)]
    requires a.purged == map[] && a.cache.Keys == {k} && gk != k.Target()
    ensures Reachable(s) && s.cache == a.cache && s.purged == map[gk := 9] && s.threads == [t, PurgeDone(gk, 9)]
    ensures |s.past| == 11 && s.past == a.past + [a.past[9]]
  {
    s := Go(a, PurgeAll(1));
    assert Purged(a.cache, gk) == a.cache;
  }

  lemma PurgedOther(a: State, gk: GroupKind, k: Kind) returns (s: State)
    requires Reachable(a) && a.purged == map[] && |a.past| == 7 && gk != k.Target()
    requires a.cache == map[k := Entry(Schema("before"), 4)] && a.threads == [Answered(k, 0, a.cache[k])]
    ensures Reachable(s) && s.purged == map[gk := 9] && s.cache == a.cache
    ensures s.threads == [a.threads[0], PurgeDone(gk, 9)]
    ensures |s.past| == 11 && forall n :: 9 <= n < 11 ==> s.past[n] == AFTER
  {
    s := Changed(a, gk);
    s := PurgeBegun(s, gk, a.threads[0]);
    s := PurgeEnded(s, gk, k, a.threads[0]);
  }

  lemma Called(p: State, k: Kind) returns (s: State)
    requires Reachable(p) && |p.past| == 11 && p.past[10] == AFTER
    requires |p.threads| == 2 && !p.threads[0].Writes() && !p.threads[1].Writes()
    ensures Reachable(s) && s == Apply(p, StartResolve(k)) && s.cache == p.cache
    ensures |s.threads| == 3 && s.threads[2] == Resolving(k, p.PurgeTime(k.Target())) && s.Free(2)
    ensures |s.past| == 12 && s.past == p.past + [AFTER]
  {
    s := Go(p, StartResolve(k));
  }

  lemma FoundInCache(a: State, k: Kind, since: nat) returns (b: State, s: State)
    requires Reachable(a) && |a.past| == 12 && a.past[11] == AFTER && k in a.cache
    requires |a.threads| == 3 && a.threads[2] == Resolving(k, since) && a.Free(2)
    ensures Enabled(a, ReadLock(2)) && b == Apply(a, ReadLock(2)) && |b.past| == 13
    ensures Enabled(b, Lookup(2)) && s == Apply(b, Lookup(2))
    ensures |s.threads| == 3 && s.threads[2] == Answered(k, since, a.cache[k])
    ensures s.past == a.past + [AFTER] + [AFTER]
  {
    b := Go(a, ReadLock(2));
    s := Go(b, Lookup(2));
  }

  lemma AnsweredFromCache(p: State, k: Kind) returns (s: State)
    requires Reachable(p) && |p.past| == 11 && forall n :: 9 <= n < 11 ==> p.past[n] == AFTER
    requires |p.threads| == 2 && !p.threads[0].Writes() && p.threads[1].PurgeDone? && k in p.cache
    ensures Leads(Apply(p, StartResolve(k)), [ReadLock(2), Lookup(2)], s)
    ensures |s.threads| == 3 && s.threads[2] == Answered(k, p.PurgeTime(k.Target()), p.cache[k])
    ensures |s.past| == 14 && forall n :: 9 <= n < 14 ==> s.past[n] == AFTER
  {
    var a := Called(p, k);
    var b;
    b, s := FoundInCache(a, k, p.PurgeTime(k.Target()));
    TwoSteps(a, ReadLock(2), Lookup(2), b, s);
  }

  lemma TwoSteps(a: State, x: Step, y: Step, b: State, s: State)
    requires |a.past| > 0 && Enabled(a, x) && b == Apply(a, x)
    requires |b.past| > 0 && Enabled(b, y) && s == Apply(b, y)
    ensures Leads(a, [x, y], s)
  {
    assert Leads(s, [], s);
    assert [y][1..] == [] && [x, y][1..] == [y];
    assert Leads(b, [y], s);
  }
}
