/** The drain told by the steps of a run: every key dirty at the shutdown is taken after
    it and reconciled, before `Run` returns. */
module ControllerDrain {
  import opened ControllerHistory
  import opened ControllerProofs
  import opened ControllerProtocol
  import opened Keys
  import opened WorkQueue

  /** Step `m` of the run is worker `i` taking the key, while the queue shuts down. */
  ghost predicate TakesLate(steps: seq<Step>, i: nat, k: Key, m: nat) {
    && m < |steps| && steps[m] == Act(i, Take)
    && exists p :: Leads(INITIAL, steps[..m], p) && p.q.shuttingDown && p.q.order != [] && p.q.order[0] == k
  }

  /** Between steps `m` and `n` the worker does nothing but look up its key. */
  ghost predicate OnlyLooks(steps: seq<Step>, i: nat, m: nat, n: nat) {
    n <= |steps| && forall x :: m < x < n && steps[x].Act? && steps[x].i == i ==> steps[x].action.Look?
  }

  predicate EndsReconcile(action: Action) {
    action.Reconcile? || action.LookError? || action.Reject?
  }

  /** The key is taken at step `m`, and its reconcile ends at step `n`. */
  ghost predicate ReconciledLate(steps: seq<Step>, i: nat, k: Key, m: nat, n: nat) {
    && m < n < |steps| && TakesLate(steps, i, k, m) && OnlyLooks(steps, i, m, n)
    && steps[n].Act? && steps[n].i == i && EndsReconcile(steps[n].action)
  }

  // ---- What the workers' steps record ----

  /** The worker at `i` is reconciling a key that it took late. */
  predicate IsLate(s: State, i: nat) {
    IsWorker(s, i) && s.workers[i].Reconciling() && s.workers[i].late
  }

  lemma ConcludeServes(s: State, i: nat, ok: bool)
    requires IsWorker(s, i) && s.workers[i].Reconciling()
    ensures var t := Conclude(s, i, ok);
      && !IsLate(t, i) && t.served == if s.workers[i].late then s.served + {s.workers[i].key} else s.served
  {}

  lemma ReconcileServes(s: State, i: nat, ok: bool)
    requires Enabled(s, Act(i, Reconcile(ok)))
    ensures var t := ApplyReconcile(s, i, ok);
      && !IsLate(t, i) && t.served == if s.workers[i].late then s.served + {s.workers[i].key} else s.served
  {
    ConcludeServes(s, i, ok);
  }

  lemma TakeServes(s: State, i: nat)
    requires Enabled(s, Act(i, Take))
    ensures var t := ApplyTake(s, i);
      && t.served == s.served && i < |t.workers|
      && (IsLate(t, i) ==> s.q.shuttingDown && t.workers[i].key == s.q.order[0])
  {}

  lemma LookServes(s: State, i: nat)
    requires Enabled(s, Act(i, Look))
    ensures var t := ApplyLook(s, i);
      && t.served == s.served && i < |t.workers|
      && (IsLate(t, i) ==> IsLate(s, i) && t.workers[i].key == s.workers[i].key)
  {}

  lemma SettleServes(s: State, i: nat)
    requires Enabled(s, Act(i, Settle))
    ensures ApplySettle(s, i).served == s.served && !IsLate(ApplySettle(s, i), i)
  {}

  lemma HandBackServes(s: State, i: nat)
    requires Enabled(s, Act(i, HandBack))
    ensures ApplyHandBack(s, i).served == s.served && !IsLate(ApplyHandBack(s, i), i)
  {}

  lemma ComeAndGoServes(s: State, i: nat, action: Action)
    requires Enabled(s, Act(i, action)) && (action.Enter? || action.Skip? || action.Leave?)
    ensures var t := ApplyAction(s, i, action); t.served == s.served && !IsLate(t, i)
  {}

  lemma ActionServes(s: State, i: nat, action: Action)
    requires Enabled(s, Act(i, action))
    ensures var t := ApplyAction(s, i, action);
      && (!EndsReconcile(action) ==> t.served == s.served)
      && (EndsReconcile(action) ==>
            t.served == if s.workers[i].late then s.served + {s.workers[i].key} else s.served)
      && (IsLate(t, i) ==> action.Take? || action.Look?)
  {
    match action
    case Take => TakeServes(s, i);
    case Look => LookServes(s, i);
    case LookError => ConcludeServes(s, i, false);
    case Reject => ConcludeServes(s, i, true);
    case Reconcile(ok) => ReconcileServes(s, i, ok);
    case Settle => SettleServes(s, i);
    case HandBack => HandBackServes(s, i);
    case _ => ComeAndGoServes(s, i, action);
  }

  lemma EnvironmentServes(s: State, step: Step)
    requires Enabled(s, step) && !step.Act?
    ensures Apply(s, step).served == s.served
    ensures Apply(s, step).owed == if step.BeginShutDown? then s.q.dirty else s.owed
  {}

  // ---- What the state remembers of the run ----

  ghost predicate LateTold(steps: seq<Step>, s: State, i: nat) {
    IsLate(s, i) ==>
      exists m: nat :: TakesLate(steps, i, s.workers[i].key, m) && OnlyLooks(steps, i, m, |steps|)
  }

  ghost predicate ServedTold(steps: seq<Step>, s: State, k: Key) {
    k in s.served ==> exists i: nat, m: nat, n: nat :: ReconciledLate(steps, i, k, m, n)
  }

  lemma TakesLateOn(steps: seq<Step>, step: Step, i: nat, k: Key, m: nat)
    requires TakesLate(steps, i, k, m)
    ensures TakesLate(steps + [step], i, k, m)
  {
    assert (steps + [step])[..m] == steps[..m];
  }

  lemma TakeIsTold(steps: seq<Step>, s: State, i: nat)
    requires Leads(INITIAL, steps, s) && Enabled(s, Act(i, Take)) && s.q.shuttingDown
    ensures TakesLate(steps + [Act(i, Take)], i, s.q.order[0], |steps|)
  {
    assert (steps + [Act(i, Take)])[..|steps|] == steps;
  }

  /** A worker that goes on being late, without a step or by looking its key up. */
  lemma LateStaysTold(steps: seq<Step>, s: State, step: Step, i: nat)
    requires LateTold(steps, s, i) && Enabled(s, step) && IsLate(s, i)
    requires IsLate(Apply(s, step), i) && Apply(s, step).workers[i].key == s.workers[i].key
    requires step.Act? && step.i == i ==> step.action.Look?
    ensures LateTold(steps + [step], Apply(s, step), i)
  {
    var m: nat :| TakesLate(steps, i, s.workers[i].key, m) && OnlyLooks(steps, i, m, |steps|);
    TakesLateOn(steps, step, i, s.workers[i].key, m);
    assert OnlyLooks(steps + [step], i, m, |steps| + 1);
  }

  lemma OthersStayLate(s: State, step: Step, i: nat)
    requires Enabled(s, step) && !(step.Act? && step.i == i) && IsLate(Apply(s, step), i)
    ensures IsLate(s, i) && Apply(s, step).workers[i] == s.workers[i]
  {
    if step.Act? {
      ActionMoves(s, step.i, step.action);
    } else {
      EnvironmentMoves(s, step);
    }
  }

  lemma LateToldAtStep(steps: seq<Step>, s: State, step: Step, i: nat)
    requires Leads(INITIAL, steps, s) && LateTold(steps, s, i) && Enabled(s, step)
    ensures LateTold(steps + [step], Apply(s, step), i)
  {
    if IsLate(Apply(s, step), i) {
      if step.Act? && step.i == i {
        ActionServes(s, i, step.action);
        if step.action.Take? {
          TakeServes(s, i);
          TakeIsTold(steps, s, i);
          assert OnlyLooks(steps + [step], i, |steps|, |steps| + 1);
        } else {
          LookServes(s, i);
          LateStaysTold(steps, s, step, i);
        }
      } else {
        OthersStayLate(s, step, i);
        LateStaysTold(steps, s, step, i);
      }
    }
  }

  lemma EndIsTold(steps: seq<Step>, s: State, i: nat, action: Action)
    requires LateTold(steps, s, i) && IsLate(s, i) && EndsReconcile(action)
    ensures exists m: nat :: ReconciledLate(steps + [Act(i, action)], i, s.workers[i].key, m, |steps|)
  {
    var step, k := Act(i, action), s.workers[i].key;
    var m: nat :| TakesLate(steps, i, k, m) && OnlyLooks(steps, i, m, |steps|);
    TakesLateOn(steps, step, i, k, m);
    assert ReconciledLate(steps + [step], i, k, m, |steps|);
  }

  lemma ServedStaysTold(steps: seq<Step>, step: Step, k: Key, i: nat, m: nat, n: nat)
    requires ReconciledLate(steps, i, k, m, n)
    ensures ReconciledLate(steps + [step], i, k, m, n)
  {
    TakesLateOn(steps, step, i, k, m);
  }

  lemma EndsReconciling(s: State, i: nat, action: Action)
    requires Enabled(s, Act(i, action)) && EndsReconcile(action)
    ensures s.workers[i].Reconciling()
  {}

  lemma NewlyServed(s: State, i: nat, action: Action, k: Key)
    requires Enabled(s, Act(i, action)) && k !in s.served && k in ApplyAction(s, i, action).served
    ensures EndsReconcile(action) && IsLate(s, i) && s.workers[i].key == k
  {
    ActionServes(s, i, action);
    EndsReconciling(s, i, action);
  }

  lemma ServedByWorker(s: State, step: Step, k: Key)
    requires Enabled(s, step) && k !in s.served && k in Apply(s, step).served
    ensures step.Act?
  {
    if !step.Act? {
      EnvironmentServes(s, step);
    }
  }

  lemma ServedToldAtStep(steps: seq<Step>, s: State, step: Step, k: Key)
    requires ServedTold(steps, s, k) && (forall i: nat :: LateTold(steps, s, i)) && Enabled(s, step)
    ensures ServedTold(steps + [step], Apply(s, step), k)
  {
    if k in Apply(s, step).served {
      if k in s.served {
        var i: nat, m: nat, n: nat :| ReconciledLate(steps, i, k, m, n);
        ServedStaysTold(steps, step, k, i, m, n);
      } else {
        ServedByWorker(s, step, k);
        NewlyServed(s, step.i, step.action, k);
        assert LateTold(steps, s, step.i);
        EndIsTold(steps, s, step.i, step.action);
      }
    }
  }

  lemma {:induction false} AllServedTold(steps: seq<Step>, s: State)
    requires Leads(INITIAL, steps, s)
    ensures forall i: nat :: LateTold(steps, s, i)
    ensures forall k: Key :: ServedTold(steps, s, k)
    decreases |steps|
  {
    if steps != [] {
      var n := |steps| - 1;
      var p := LastStep(INITIAL, steps, s);
      AllServedTold(steps[..n], p);
      assert steps == steps[..n] + [steps[n]];
      forall i: nat ensures LateTold(steps, s, i) {
        LateToldAtStep(steps[..n], p, steps[n], i);
      }
      forall k: Key ensures ServedTold(steps, s, k) {
        ServedToldAtStep(steps[..n], p, steps[n], k);
      }
    }
  }

  // ---- The theorem ----

  lemma EnvironmentKeepsShutDown(s: State, step: Step)
    requires PhaseRight(s) && s.q.shuttingDown && Enabled(s, step) && !step.Act?
    ensures Apply(s, step).q.shuttingDown && !step.BeginShutDown?
  {}

  lemma ShutDownStaysAtStep(s: State, step: Step)
    requires Inv(s) && s.q.shuttingDown && Enabled(s, step)
    ensures Apply(s, step).q.shuttingDown && Apply(s, step).owed == s.owed
  {
    if step.Act? {
      ActionMoves(s, step.i, step.action);
    } else {
      EnvironmentServes(s, step);
      EnvironmentKeepsShutDown(s, step);
    }
  }

  lemma {:induction false} OwedIsTold(s: State, steps: seq<Step>, t: State)
    requires Inv(s) && s.q.shuttingDown && Leads(s, steps, t)
    ensures t.owed == s.owed && t.q.shuttingDown
    decreases |steps|
  {
    if steps != [] {
      ShutDownStaysAtStep(s, steps[0]);
      StepKeepsInv(s, steps[0]);
      OwedIsTold(Apply(s, steps[0]), steps[1..], t);
    }
  }

  /** Some worker came to its loop in the run. */
  predicate SomeEntered(steps: seq<Step>) {
    exists x :: 0 <= x < |steps| && steps[x].Act? && steps[x].action.Enter?
  }

  lemma EnteredAtStep(s: State, step: Step)
    requires Enabled(s, step)
    ensures Apply(s, step).entered == (s.entered || (step.Act? && step.action.Enter?))
  {
    if step.Act? {
      EnteredByAction(s, step.i, step.action);
    }
  }

  lemma EnteredByAction(s: State, i: nat, action: Action)
    requires Enabled(s, Act(i, action))
    ensures ApplyAction(s, i, action).entered == (s.entered || action.Enter?)
  {
    match action
    case Enter =>
    case Skip =>
    case Leave =>
    case Take =>
    case Look =>
    case LookError => ConcludeKeepsEntered(s, i, false);
    case Reject => ConcludeKeepsEntered(s, i, true);
    case Reconcile(ok) => ConcludeKeepsEntered(s, i, ok);
    case Settle =>
    case HandBack =>
  }

  lemma ConcludeKeepsEntered(s: State, i: nat, ok: bool)
    requires IsWorker(s, i) && s.workers[i].Reconciling()
    ensures Conclude(s, i, ok).entered == s.entered
  {}

  lemma {:induction false} EnteredIsTold(s: State, steps: seq<Step>, t: State)
    requires Leads(s, steps, t)
    ensures t.entered == (s.entered || SomeEntered(steps))
    decreases |steps|
  {
    if steps != [] {
      EnteredAtStep(s, steps[0]);
      EnteredIsTold(Apply(s, steps[0]), steps[1..], t);
      if SomeEntered(steps[1..]) {
        var x :| 0 <= x < |steps[1..]| && steps[1..][x].Act? && steps[1..][x].action.Enter?;
        assert steps[x + 1].Act? && steps[x + 1].action.Enter?;
      }
      if x :| 0 < x < |steps| && steps[x].Act? && steps[x].action.Enter? {
        assert steps[1..][x - 1].Act? && steps[1..][x - 1].action.Enter?;
      }
    }
  }

  /** In every run that shuts down in state `p` and returns: if some worker came to its
      loop, every key dirty in `p` is taken after the shutdown began, and reconciled. */
  lemma DrainServesInRuns(before: seq<Step>, p: State, after: seq<Step>, s: State, k: Key)
    requires Leads(INITIAL, before, p) && Enabled(p, BeginShutDown) && k in p.q.dirty
    requires Leads(Apply(p, BeginShutDown), after, s) && s.phase.Returned?
    requires SomeEntered(before + [BeginShutDown] + after)
    ensures exists i: nat, m: nat, n: nat :: ReconciledLate(before + [BeginShutDown] + after, i, k, m, n)
  {
    var steps := before + [BeginShutDown] + after;
    LeadsOn(INITIAL, before, p, BeginShutDown);
    LeadsAcross(INITIAL, before + [BeginShutDown], Apply(p, BeginShutDown), after, s);
    assert Reachable(s) && Reachable(Apply(p, BeginShutDown));
    ReachableInv(Apply(p, BeginShutDown));
    OwedIsTold(Apply(p, BeginShutDown), after, s);
    EnteredIsTold(INITIAL, steps, s);
    DrainExactly(s);
    AllServedTold(steps, s);
    assert ServedTold(steps, s, k);
  }

  lemma {:induction false} LeadsAcross(s: State, steps: seq<Step>, t: State, more: seq<Step>, u: State)
    requires Leads(s, steps, t) && Leads(t, more, u)
    ensures Leads(s, steps + more, u)
    decreases |more|
  {
    if more == [] {
      assert steps + [] == steps;
    } else {
      var n := |more| - 1;
      var p := LastStep(t, more, u);
      LeadsAcross(s, steps, t, more[..n], p);
      LeadsOn(s, steps + more[..n], p, more[n]);
      assert steps + more[..n] + [more[n]] == steps + more;
    }
  }
}
