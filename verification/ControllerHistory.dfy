/** The main theorem of the controller told by the steps of a run alone: which changes
    a reconcile has seen is read off the run, not off the state. */
module ControllerHistory {
  import opened ControllerProofs
  import opened ControllerProtocol
  import opened Keys
  import opened WorkQueue

  /** How often the run changes the cache's entry for the key. */
  function Changes(steps: seq<Step>, k: Key): nat {
    if steps == [] then 0
    else
      var n := |steps| - 1;
      Changes(steps[..n], k) + if steps[n].Change? && steps[n].event.key == k then 1 else 0
  }

  /** In the state that the steps lead to, the worker has taken the key and not yet
      looked it up. */
  ghost predicate HasTaken(steps: seq<Step>, i: nat, k: Key) {
    exists p :: Leads(INITIAL, steps, p) && IsWorker(p, i) && p.workers[i].Taken? && p.workers[i].key == k
  }

  /** Step `m` of the run is worker `i` looking up the key that it has taken, and the
      worker does nothing else up to step `n`. */
  ghost predicate LooksUp(steps: seq<Step>, i: nat, k: Key, m: nat, n: nat) {
    && m < n <= |steps| && steps[m] == Act(i, Look) && HasTaken(steps[..m], i, k)
    && forall x :: m < x < n ==> !(steps[x].Act? && steps[x].i == i)
  }

  /** A successful reconcile: the lookup is step `m`, the reconciler returns without an
      error at step `n`. */
  ghost predicate Reconciles(steps: seq<Step>, i: nat, k: Key, m: nat, n: nat) {
    n < |steps| && LooksUp(steps, i, k, m, n) && steps[n] == Act(i, Reconcile(true))
  }

  // ---- Runs, from their ends ----

  lemma {:induction false} LastStep(s: State, steps: seq<Step>, t: State) returns (p: State)
    requires Leads(s, steps, t) && steps != []
    ensures Leads(s, steps[..|steps| - 1], p) && Enabled(p, steps[|steps| - 1]) && t == Apply(p, steps[|steps| - 1])
    decreases |steps|
  {
    var n := |steps| - 1;
    var next := Apply(s, steps[0]);
    if n == 0 {
      p := s;
      assert steps[1..] == [] && steps[..0] == [];
    } else {
      p := LastStep(next, steps[1..], t);
      LeadsBy(s, steps[0], steps[1..][..n - 1], p);
      Front(steps, n);
    }
  }

  lemma Front(steps: seq<Step>, n: nat)
    requires 0 < n == |steps| - 1
    ensures [steps[0]] + steps[1..][..n - 1] == steps[..n]
    ensures |steps[1..]| == n && steps[1..][n - 1] == steps[n]
  {}

  lemma ChangesOn(steps: seq<Step>, step: Step, k: Key)
    ensures Changes(steps + [step], k) ==
      Changes(steps, k) + if step.Change? && step.event.key == k then 1 else 0
  {
    assert (steps + [step])[..|steps|] == steps;
  }

  lemma {:induction false} ChangesGrow(steps: seq<Step>, k: Key, m: nat)
    requires m <= |steps|
    ensures Changes(steps[..m], k) <= Changes(steps, k)
    decreases |steps|
  {
    if m < |steps| {
      var n := |steps| - 1;
      ChangesGrow(steps[..n], k, m);
      assert steps[..n][..m] == steps[..m];
    } else {
      assert steps[..m] == steps;
    }
  }

  // ---- What the workers' steps leave alone ----

  predicate OneWorkerMoved(s: State, t: State, i: nat) {
    i < |s.workers| && i < |t.workers| && t.workers == s.workers[i := t.workers[i]]
  }

  /** Nothing has happened to the cache, and the queue is as much shut down as before. */
  predicate Outside(s: State, t: State) {
    t.version == s.version && t.announced == s.announced && t.owed == s.owed && t.q.shuttingDown == s.q.shuttingDown
  }

  /** Only the worker at `i` has moved, not to where it has looked a key up, and no
      success is recorded. */
  predicate OnlyMoved(s: State, t: State, i: nat) {
    OneWorkerMoved(s, t, i) && !t.workers[i].Looked? && Outside(s, t) && t.reconciled == s.reconciled
  }

  lemma ConcludeMoves(s: State, i: nat, ok: bool)
    requires IsWorker(s, i) && s.workers[i].Reconciling()
    ensures OnlyMoved(s, Conclude(s, i, ok), i)
  {}

  lemma ComeAndGoMoves(s: State, i: nat, action: Action)
    requires Enabled(s, Act(i, action)) && (action.Enter? || action.Skip? || action.Leave?)
    ensures OnlyMoved(s, ApplyAction(s, i, action), i)
  {}

  lemma TakeMoves(s: State, i: nat)
    requires Enabled(s, Act(i, Take))
    ensures OnlyMoved(s, ApplyTake(s, i), i)
  {}

  lemma SettleMoves(s: State, i: nat)
    requires Enabled(s, Act(i, Settle))
    ensures OnlyMoved(s, ApplySettle(s, i), i)
  {}

  lemma HandBackMoves(s: State, i: nat)
    requires Enabled(s, Act(i, HandBack))
    ensures OnlyMoved(s, ApplyHandBack(s, i), i)
  {}

  lemma LookMoves(s: State, i: nat)
    requires Enabled(s, Act(i, Look))
    ensures var t := ApplyLook(s, i);
      && OneWorkerMoved(s, t, i) && Outside(s, t) && t.reconciled == s.reconciled
      && t.workers[i].Looked? && t.workers[i].key == s.workers[i].key
      && t.workers[i].seen == At(s.version, LookupKey(s.workers[i].key).value)
  {}

  lemma ReconcileMoves(s: State, i: nat, ok: bool)
    requires Enabled(s, Act(i, Reconcile(ok)))
    ensures var t := ApplyReconcile(s, i, ok);
      && OneWorkerMoved(s, t, i) && !t.workers[i].Looked? && Outside(s, t)
      && t.reconciled == if ok then s.reconciled[s.workers[i].key := s.workers[i].seen] else s.reconciled
  {
    ConcludeMoves(s, i, ok);
  }

  lemma OtherActionMoves(s: State, i: nat, action: Action)
    requires Enabled(s, Act(i, action)) && !action.Look? && !action.Reconcile?
    ensures OnlyMoved(s, ApplyAction(s, i, action), i)
  {
    match action
    case Take => TakeMoves(s, i);
    case LookError => ConcludeMoves(s, i, false);
    case Reject => ConcludeMoves(s, i, true);
    case Settle => SettleMoves(s, i);
    case HandBack => HandBackMoves(s, i);
    case _ => ComeAndGoMoves(s, i, action);
  }

  lemma ActionMoves(s: State, i: nat, action: Action)
    requires Enabled(s, Act(i, action))
    ensures var t := ApplyAction(s, i, action);
      && OneWorkerMoved(s, t, i) && Outside(s, t)
      && (t.workers[i].Looked? ==> action.Look?)
      && (t.reconciled != s.reconciled ==> action == Reconcile(true))
  {
    match action
    case Look => LookMoves(s, i);
    case Reconcile(ok) => ReconcileMoves(s, i, ok);
    case _ => OtherActionMoves(s, i, action);
  }

  lemma EnvironmentMoves(s: State, step: Step)
    requires Enabled(s, step) && !step.Act?
    ensures var t := Apply(s, step);
      && t.reconciled == s.reconciled
      && (step.Launch? ==> forall i :: 0 <= i < |t.workers| ==> t.workers[i].Launched?)
      && (!step.Launch? ==> t.workers == s.workers)
  {}

  // ---- What the state remembers of the run ----

  /** Versions count changes. */
  lemma VersionTold(s: State, step: Step, k: Key)
    requires Enabled(s, step)
    ensures At(Apply(s, step).version, k) ==
      At(s.version, k) + if step.Change? && step.event.key == k then 1 else 0
  {
    if step.Act? {
      ActionMoves(s, step.i, step.action);
    }
  }

  /** What a worker that has looked a key up stands for. */
  ghost predicate SeenTold(steps: seq<Step>, s: State, i: nat, k: Key) {
    IsWorker(s, i) && s.workers[i].Looked? && s.workers[i].key == k ==>
      exists m: nat :: LooksUp(steps, i, k, m, |steps|) && s.workers[i].seen == Changes(steps[..m], k)
  }

  ghost predicate ReconcilesVersion(steps: seq<Step>, i: nat, k: Key, m: nat, n: nat, v: nat) {
    Reconciles(steps, i, k, m, n) && v == Changes(steps[..m], k)
  }

  /** What the record of the last success stands for. */
  ghost predicate SuccessTold(steps: seq<Step>, s: State, k: Key) {
    At(s.reconciled, k) > 0 ==>
      exists i: nat, m: nat, n: nat :: ReconcilesVersion(steps, i, k, m, n, At(s.reconciled, k))
  }

  // ---- Every step keeps that ----

  lemma LooksUpOn(steps: seq<Step>, step: Step, i: nat, k: Key, m: nat, n: nat)
    requires LooksUp(steps, i, k, m, n)
    ensures LooksUp(steps + [step], i, k, m, n)
    ensures (steps + [step])[..m] == steps[..m]
  {
    assert (steps + [step])[..m] == steps[..m];
  }

  lemma LooksUpFurther(steps: seq<Step>, step: Step, i: nat, k: Key, m: nat)
    requires LooksUp(steps, i, k, m, |steps|) && !(step.Act? && step.i == i)
    ensures LooksUp(steps + [step], i, k, m, |steps| + 1)
    ensures (steps + [step])[..m] == steps[..m]
  {
    LooksUpOn(steps, step, i, k, m, |steps|);
  }

  /** A worker that has looked a key up and does not step has done so before. */
  lemma LookedBefore(s: State, step: Step, i: nat)
    requires Enabled(s, step) && IsWorker(Apply(s, step), i) && Apply(s, step).workers[i].Looked?
    requires !(step.Act? && step.i == i)
    ensures IsWorker(s, i) && s.workers[i] == Apply(s, step).workers[i]
  {
    if step.Act? {
      ActionMoves(s, step.i, step.action);
    } else {
      EnvironmentMoves(s, step);
    }
  }

  lemma LookIsTold(steps: seq<Step>, s: State, i: nat, k: Key)
    requires Leads(INITIAL, steps, s) && Enabled(s, Act(i, Look)) && s.workers[i].key == k
    ensures LooksUp(steps + [Act(i, Look)], i, k, |steps|, |steps| + 1)
    ensures (steps + [Act(i, Look)])[..|steps|] == steps
  {
    assert (steps + [Act(i, Look)])[..|steps|] == steps;
    assert HasTaken(steps, i, k);
  }

  lemma SeenStaysTold(steps: seq<Step>, s: State, step: Step, i: nat, k: Key)
    requires Leads(INITIAL, steps, s) && Proper(k) && At(s.version, k) == Changes(steps, k)
    requires SeenTold(steps, s, i, k) && Enabled(s, step)
    ensures SeenTold(steps + [step], Apply(s, step), i, k)
  {
    var t := Apply(s, step);
    if IsWorker(t, i) && t.workers[i].Looked? && t.workers[i].key == k {
      if step.Act? && step.i == i {
        ActionMoves(s, i, step.action);
        LookMoves(s, i);
        LookIsTold(steps, s, i, k);
      } else {
        LookedBefore(s, step, i);
        var m: nat :| LooksUp(steps, i, k, m, |steps|) && s.workers[i].seen == Changes(steps[..m], k);
        LooksUpFurther(steps, step, i, k, m);
      }
    }
  }

  lemma SuccessIsTold(steps: seq<Step>, s: State, i: nat, k: Key)
    requires Enabled(s, Act(i, Reconcile(true))) && s.workers[i].key == k && SeenTold(steps, s, i, k)
    ensures SuccessTold(steps + [Act(i, Reconcile(true))], Apply(s, Act(i, Reconcile(true))), k)
  {
    var step := Act(i, Reconcile(true));
    ReconcileMoves(s, i, true);
    var m: nat :| LooksUp(steps, i, k, m, |steps|) && s.workers[i].seen == Changes(steps[..m], k);
    LooksUpOn(steps, step, i, k, m, |steps|);
    assert ReconcilesVersion(steps + [step], i, k, m, |steps|, s.workers[i].seen);
  }

  lemma SuccessStaysTold(steps: seq<Step>, s: State, step: Step, k: Key)
    requires SuccessTold(steps, s, k) && Enabled(s, step) && At(Apply(s, step).reconciled, k) == At(s.reconciled, k)
    ensures SuccessTold(steps + [step], Apply(s, step), k)
  {
    if At(s.reconciled, k) > 0 {
      var i: nat, m: nat, n: nat :| ReconcilesVersion(steps, i, k, m, n, At(s.reconciled, k));
      LooksUpOn(steps, step, i, k, m, n);
      assert ReconcilesVersion(steps + [step], i, k, m, n, At(s.reconciled, k));
    }
  }

  lemma SuccessToldAtStep(steps: seq<Step>, s: State, step: Step, k: Key)
    requires SuccessTold(steps, s, k) && (forall i: nat :: SeenTold(steps, s, i, k)) && Enabled(s, step)
    ensures SuccessTold(steps + [step], Apply(s, step), k)
  {
    if step.Act? {
      ActionMoves(s, step.i, step.action);
      if step.action == Reconcile(true) {
        ReconcileMoves(s, step.i, true);
        if s.workers[step.i].key == k {
          assert SeenTold(steps, s, step.i, k);
          SuccessIsTold(steps, s, step.i, k);
          return;
        }
      }
    } else {
      EnvironmentMoves(s, step);
    }
    SuccessStaysTold(steps, s, step, k);
  }

  ghost predicate Told(steps: seq<Step>, s: State, k: Key) {
    At(s.version, k) == Changes(steps, k) && (forall i: nat :: SeenTold(steps, s, i, k)) && SuccessTold(steps, s, k)
  }

  lemma ToldAtStep(steps: seq<Step>, s: State, step: Step, k: Key)
    requires Leads(INITIAL, steps, s) && Proper(k) && Told(steps, s, k) && Enabled(s, step)
    ensures Told(steps + [step], Apply(s, step), k)
  {
    VersionTold(s, step, k);
    ChangesOn(steps, step, k);
    forall i: nat ensures SeenTold(steps + [step], Apply(s, step), i, k) {
      SeenStaysTold(steps, s, step, i, k);
    }
    SuccessToldAtStep(steps, s, step, k);
  }

  lemma {:induction false} AllTold(steps: seq<Step>, s: State, k: Key)
    requires Leads(INITIAL, steps, s) && Proper(k)
    ensures Told(steps, s, k)
    decreases |steps|
  {
    if steps != [] {
      var n := |steps| - 1;
      var p := LastStep(INITIAL, steps, s);
      AllTold(steps[..n], p, k);
      ToldAtStep(steps[..n], p, steps[n], k);
      assert steps == steps[..n] + [steps[n]];
    }
  }

  // ---- Announced changes ----

  /** An addition, a deletion that is no tombstone, or an update to another version. */
  predicate MustBeSeen(step: Step, k: Key) {
    && step.Change? && step.event.key == k
    && (step.event.Added? || step.event.Deleted?
        || (step.event.Updated? && step.event.oldVersion != step.event.newVersion))
  }

  lemma AnnouncedGrows(s: State, step: Step, k: Key)
    requires Inv(s) && Proper(k) && Enabled(s, step)
    ensures At(Apply(s, step).announced, k) >= At(s.announced, k)
    ensures MustBeSeen(step, k) ==> At(Apply(s, step).announced, k) == At(s.version, k) + 1
  {
    assert KeyRight(s, k);
    if step.Act? {
      ActionMoves(s, step.i, step.action);
    }
  }

  lemma {:induction false} AnnouncedCounts(steps: seq<Step>, s: State, k: Key, n: nat)
    requires Leads(INITIAL, steps, s) && Proper(k) && n < |steps| && MustBeSeen(steps[n], k)
    ensures At(s.announced, k) > Changes(steps[..n], k)
    decreases |steps|
  {
    var last := |steps| - 1;
    var p := LastStep(INITIAL, steps, s);
    AllTold(steps[..last], p, k);
    assert Reachable(p);
    ReachableInv(p);
    AnnouncedGrows(p, steps[last], k);
    if n < last {
      AnnouncedCounts(steps[..last], p, k, n);
      assert steps[..last][..n] == steps[..n];
    }
  }

  lemma ChangesOrdered(steps: seq<Step>, k: Key, m: nat, n: nat)
    requires m <= n <= |steps|
    ensures Changes(steps[..m], k) <= Changes(steps[..n], k)
  {
    ChangesGrow(steps[..n], k, m);
    assert steps[..n][..m] == steps[..m];
  }

  /** A lookup that counts more changes than came before step `n` came after it. */
  lemma LaterThan(steps: seq<Step>, k: Key, n: nat, m: nat)
    requires n < |steps| && m <= |steps| && Changes(steps[..m], k) > Changes(steps[..n], k)
    ensures n < m
  {
    if m <= n {
      ChangesOrdered(steps, k, m, n);
    }
  }

  /** Step `n` has been followed by a successful reconcile of the key, whose lookup came
      after the step. */
  ghost predicate SeenAfter(steps: seq<Step>, k: Key, n: nat) {
    exists i: nat, m: nat, x: nat :: n < m && Reconciles(steps, i, k, m, x)
  }

  lemma SuccessIsLater(steps: seq<Step>, s: State, k: Key, n: nat)
    requires SuccessTold(steps, s, k) && n < |steps| && At(s.reconciled, k) > Changes(steps[..n], k)
    ensures SeenAfter(steps, k, n)
  {
    var i: nat, m: nat, x: nat :| ReconcilesVersion(steps, i, k, m, x, At(s.reconciled, k));
    LaterThan(steps, k, n, m);
  }

  /** No lost update, told by the run: before shutdown, every addition, deletion that is
      no tombstone, or update to another version in the run has been followed by a
      successful reconcile of its key whose lookup came after it, or is covered: an
      event for the key will be delivered, the key is dirty or awaits a retry, or its
      holder will see the change or have the key retried. */
  lemma NoLostUpdateInRuns(steps: seq<Step>, s: State, k: Key, n: nat)
    requires Leads(INITIAL, steps, s) && !s.q.shuttingDown && Proper(k)
    requires n < |steps| && MustBeSeen(steps[n], k)
    ensures Covered(s, k) || SeenAfter(steps, k, n)
  {
    assert Reachable(s);
    AnnouncedCounts(steps, s, k, n);
    if At(s.reconciled, k) < At(s.announced, k) {
      NoLostUpdate(s, k);
    } else {
      AllTold(steps, s, k);
      SuccessIsLater(steps, s, k, n);
    }
  }

  /** In particular, when nothing is left to do, every such change has been followed by
      a successful reconcile whose lookup came after it. */
  lemma QuiescentHasSeenAll(steps: seq<Step>, s: State, k: Key, n: nat)
    requires Leads(INITIAL, steps, s) && !s.q.shuttingDown && Proper(k)
    requires s.pending == [] && s.q.dirty == {} && s.q.waiting == {} && s.q.processing == {}
    requires n < |steps| && MustBeSeen(steps[n], k)
    ensures SeenAfter(steps, k, n)
  {
    assert Reachable(s);
    ReachableInv(s);
    assert KeyRight(s, k);
    NoLostUpdateInRuns(steps, s, k, n);
  }
}
