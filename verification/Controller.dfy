/** The controller's handlers, its reconcile step and its worker loop, as methods
    that change its queue. */
module Controller {
  import opened Results
  import opened Keys
  import opened WorkQueue
  import opened ControllerProtocol

  /** How `reconcile` ends, before the reconciler's own verdict. */
  datatype Lookup<T> =
    | InvalidKey
    | LookupFailed
    | Call(namespace: string, name: string, found: Option<T>)

  class Controller<T> {
    var q: Queue
    var cache: map<Key, T>

    constructor ()
      ensures q == EMPTY && cache == map[]
    {
      q := EMPTY;
      cache := map[];
    }

    /** The key function fails for objects that carry no metadata. */
    method Enqueue(key: Option<Key>)
      modifies this`q
      ensures q == if key.Some? then old(q).Add(key.value) else old(q)
    {
      if key.None? {
        return;
      }
      q := q.Add(key.value);
    }

    method OnAdd(key: Key)
      modifies this`q
      ensures q == Handle(old(q), Added(key)) == old(q).Add(key)
      ensures !old(q.shuttingDown) ==> key in q.dirty
    {
      Enqueue(Some(key));
    }

    method OnUpdate(key: Key, oldVersion: string, newVersion: string)
      modifies this`q
      ensures q == Handle(old(q), Updated(key, oldVersion, newVersion))
      ensures oldVersion != newVersion ==> q == old(q).Add(key) && (!old(q.shuttingDown) ==> key in q.dirty)
      ensures oldVersion == newVersion ==> q == old(q)
    {
      if oldVersion == newVersion {
        return;
      }
      Enqueue(Some(key));
    }

    method OnDelete(key: Key, tombstone: bool)
      modifies this`q
      ensures q == Handle(old(q), if tombstone then Tombstone(key) else Deleted(key))
      ensures !tombstone ==> q == old(q).Add(key) && (!old(q.shuttingDown) ==> key in q.dirty)
      ensures tombstone ==> q == old(q)
    {
      Enqueue((if tombstone then None else Some(key)));
    }

    /** The lookup part of `reconcile`; the caller hands the result to the
        reconciler. A missing object is passed on as none. */
    method LookUp(key: Key, listerError: bool) returns (r: Lookup<T>)
      ensures r.InvalidKey? <==> LookupKey(key).None?
      ensures r.LookupFailed? <==> (LookupKey(key).Some? && listerError)
      ensures r.Call? ==> SplitKey(key) == Some(NamespacedName(r.namespace, r.name))
      ensures r.Call? ==> MakeKey(NamespacedName(r.namespace, r.name)) == LookupKey(key).value
      ensures r.Call? ==>
        var at := LookupKey(key).value; r.found == if at in cache then Some(cache[at]) else None
    {
      var parts := SplitKey(key);
      if parts.None? {
        return InvalidKey;
      }
      if listerError {
        return LookupFailed;
      }
      var n := parts.value;
      var at := if |n.namespace| > 0 then n.namespace + "/" + n.name else n.name;
      return Call(n.namespace, n.name, if at in cache then Some(cache[at]) else None);
    }

    /** `runWorker` of a lone worker once the queue shuts down: it reconciles the
        keys that are ready, each once and in order, and leaves nothing behind. */
    method RunWorker(succeeds: Key -> bool) returns (done: seq<Key>)
      requires q.Valid() && q.shuttingDown && q.processing == {}
      modifies this`q
      ensures done == old(q.order) && (forall k :: k in done <==> k in old(q.dirty))
      ensures q.order == [] && q.dirty == {} && q.processing == {}
      ensures q.waiting == old(q.waiting) && q.shuttingDown
      ensures forall k :: At(q.failures, k) == FailuresAfter(old(q.failures), done, succeeds, k)
    {
      done := [];
      ghost var ready := q.order;
      while q.order != []
        invariant q.Valid() && q.shuttingDown && q.processing == {}
        invariant q.waiting == old(q.waiting)
        invariant |done| <= |ready| && done == ready[..|done|] && q.order == ready[|done|..]
        invariant forall k :: At(q.failures, k) == FailuresAfter(old(q.failures), done, succeeds, k)
      {
        var key := q.order[0];
        assert key == ready[|done|];
        NotDoneYet(ready, |done|);
        OneByOne(ready, |done|);
        WorkOff(key, succeeds(key));
        done := done + [key];
      }
      assert ready[..|done|] == ready;
    }

    /** One round of the loop of `runWorker`: take the first key, reconcile it,
        settle the outcome with the rate limiter, hand the key back. */
    method WorkOff(key: Key, ok: bool)
      requires q.Valid() && q.order != [] && key == q.order[0]
      modifies this`q
      ensures q == old(q).Round(ok)
      ensures q.Valid() && q.shuttingDown == old(q.shuttingDown)
      ensures q.processing == old(q.processing)
      ensures q.order == old(q.order)[1..] && q.dirty == old(q.dirty) - {key}
      ensures ok || q.shuttingDown ==> q.waiting == old(q.waiting)
      ensures !ok && !q.shuttingDown ==> q.waiting == old(q.waiting) + {key}
      ensures forall k :: At(q.failures, k) ==
                if k != key then At(old(q.failures), k) else if ok then 0 else At(old(q.failures), k) + 1
    {
      q.GetKeeps();
      q := q.Get();
      if ok {
        q := q.Forget(key);
      } else {
        q := q.AddRateLimited(key);
      }
      q.DoneKeeps(key);
      q := q.Done(key);
    }
  }

  /** The steps of one worker that no other step comes between. */
  function RoundSteps(i: nat, ok: bool): seq<Step> {
    [Act(i, Take)] + ([Act(i, Look)] + ([Act(i, Reconcile(ok))] + ([Act(i, Settle)] + ([Act(i, HandBack)] + []))))
  }

  /** In the protocol these steps are a run, and do to the queue what one round of the
      worker loop does. */
  lemma RoundIsARun(s: State, i: nat, ok: bool) returns (t: State)
    requires IsWorker(s, i) && s.workers[i].Idle? && s.q.order != [] && LookupKey(s.q.order[0]).Some?
    ensures Leads(s, RoundSteps(i, ok), t)
    ensures t.q == s.q.Round(ok) && t.workers == s.workers
  {
    var s1, s2, s3, s4;
    s1, s2 := TakeAndLook(s, i);
    s3, s4, t := FinishRound(s2, i, ok);
    assert t.workers == s.workers;
    LeadsBy(s4, Act(i, HandBack), [], t);
    LeadsBy(s3, Act(i, Settle), [Act(i, HandBack)] + [], t);
    LeadsBy(s2, Act(i, Reconcile(ok)), [Act(i, Settle)] + ([Act(i, HandBack)] + []), t);
    LeadsBy(s1, Act(i, Look), [Act(i, Reconcile(ok))] + ([Act(i, Settle)] + ([Act(i, HandBack)] + [])), t);
    LeadsBy(s, Act(i, Take),
            [Act(i, Look)] + ([Act(i, Reconcile(ok))] + ([Act(i, Settle)] + ([Act(i, HandBack)] + []))), t);
  }

  lemma TakeAndLook(s: State, i: nat) returns (s1: State, s2: State)
    requires IsWorker(s, i) && s.workers[i].Idle? && s.q.order != [] && LookupKey(s.q.order[0]).Some?
    ensures Enabled(s, Act(i, Take)) && s1 == Apply(s, Act(i, Take))
    ensures Enabled(s1, Act(i, Look)) && s2 == Apply(s1, Act(i, Look))
    ensures s2.q == s.q.Get() && IsWorker(s2, i) && s2.workers[i].Looked? && s2.workers[i].key == s.q.order[0]
    ensures s2.workers[i := Idle] == s.workers
  {
    s1 := Apply(s, Act(i, Take));
    s2 := Apply(s1, Act(i, Look));
    assert s.workers[i := s1.workers[i]][i := s2.workers[i]][i := Idle] == s.workers;
  }

  lemma FinishRound(s: State, i: nat, ok: bool) returns (s1: State, s2: State, t: State)
    requires IsWorker(s, i) && s.workers[i].Looked?
    ensures Enabled(s, Act(i, Reconcile(ok))) && s1 == Apply(s, Act(i, Reconcile(ok)))
    ensures Enabled(s1, Act(i, Settle)) && s2 == Apply(s1, Act(i, Settle))
    ensures Enabled(s2, Act(i, HandBack)) && t == Apply(s2, Act(i, HandBack)) && t.workers == s.workers[i := Idle]
    ensures var k := s.workers[i].key; t.q == (if ok then s.q.Forget(k) else s.q.AddRateLimited(k)).Done(k)
  {
    s1 := Apply(s, Act(i, Reconcile(ok)));
    s2 := Apply(s1, Act(i, Settle));
    t := Apply(s2, Act(i, HandBack));
  }

  lemma NotDoneYet(ready: seq<Key>, n: nat)
    requires n < |ready| && forall i, j :: 0 <= i < j < |ready| ==> ready[i] != ready[j]
    ensures ready[n] !in ready[..n]
  {}

  lemma OneByOne(ready: seq<Key>, n: nat)
    requires n < |ready|
    ensures ready[..n] + [ready[n]] == ready[..n + 1]
    ensures ready[n..][1..] == ready[n + 1..]
  {}

  /** The limiter's count of a key after one call for each of the keys done. */
  function FailuresAfter(before: map<Key, nat>, done: seq<Key>, succeeds: Key -> bool, k: Key): nat {
    if k !in done then At(before, k) else if succeeds(k) then 0 else At(before, k) + 1
  }
}
