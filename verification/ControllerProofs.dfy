/** Every step of the controller protocol keeps the invariant, and what the
    invariant means for whole runs. */
module ControllerProofs {
  import opened Keys
  import opened WorkQueue
  import opened ControllerProtocol

  // ---- Frame: keys that a step does not concern ----

  /** For this key nothing got worse: whoever held it still holds it in the same
      place, and what was to come is still to come. */
  predicate NoWorse(s: State, t: State, k: Key) {
    && t.q.shuttingDown == s.q.shuttingDown
    && (InEvents(s.pending, k) ==> InEvents(t.pending, k))
    && (k in s.q.dirty ==> k in t.q.dirty)
    && (k in s.q.waiting ==> k in t.q.waiting || k in t.q.dirty || t.q.shuttingDown)
    && (k in s.q.processing <==> k in t.q.processing)
    && At(s.q.failures, k) == At(t.q.failures, k)
    && At(s.version, k) == At(t.version, k) && At(s.announced, k) == At(t.announced, k)
    && At(s.reconciled, k) == At(t.reconciled, k) && At(s.streak, k) == At(t.streak, k)
    && At(s.taken, k) == At(t.taken, k) && At(s.handedBack, k) == At(t.handedBack, k)
    && (k in s.holder <==> k in t.holder)
    && (k in s.holder && IsWorker(s, s.holder[k]) ==>
          t.holder[k] == s.holder[k] && IsWorker(t, t.holder[k])
          && t.workers[t.holder[k]] == s.workers[s.holder[k]])
    && (k in t.owed ==> k in s.owed)
    && (k in s.served ==> k in t.served)
  }

  lemma FrameKeeps(s: State, t: State, k: Key)
    requires KeyRight(s, k) && NoWorse(s, t, k)
    ensures KeyRight(t, k)
  {}

  // ---- What each step does to a key ----

  lemma ChangeKeepsKey(s: State, e: Event, k: Key)
    requires KeyRight(s, k)
    ensures KeyRight(ApplyChange(s, e), k)
  {}

  lemma DeliverKeepsKey(s: State, k: Key)
    requires Enabled(s, Deliver) && KeyRight(s, k)
    ensures KeyRight(Apply(s, Deliver), k)
  {}

  lemma EnvironmentKeepsKey(s: State, step: Step, k: Key)
    requires KeyRight(s, k) && PhaseRight(s) && Enabled(s, step)
    requires !step.Change? && !step.Deliver? && !step.Act?
    ensures KeyRight(Apply(s, step), k)
  {
    if !step.BeginShutDown? {
      FrameKeeps(s, Apply(s, step), k);
    }
  }

  lemma ComeAndGoKeepsKey(s: State, i: nat, action: Action, k: Key)
    requires KeyRight(s, k) && Enabled(s, Act(i, action))
    requires action.Enter? || action.Skip? || action.Leave?
    ensures KeyRight(ApplyAction(s, i, action), k)
  {}

  lemma TakeKeepsKey(s: State, i: nat, k: Key)
    requires Enabled(s, Act(i, Take)) && KeyRight(s, k) && PhaseRight(s)
    requires s.q.order[0] !in s.q.processing
    ensures KeyRight(ApplyTake(s, i), k)
  {}

  /** The worker at `i` is busy with a key that it alone holds. */
  predicate Holds(s: State, i: nat) {
    && IsWorker(s, i) && WorkerRight(s, i) && s.workers[i].Busy()
  }

  lemma LookKeepsKey(s: State, i: nat, k: Key)
    requires Enabled(s, Act(i, Look)) && Holds(s, i) && KeyRight(s, k)
    ensures KeyRight(ApplyLook(s, i), k)
  {}

  lemma ConcludeKeepsKey(s: State, i: nat, ok: bool, k: Key)
    requires Holds(s, i) && s.workers[i].Reconciling() && KeyRight(s, k)
    requires ok ==> !Proper(s.workers[i].key)
    ensures KeyRight(Conclude(s, i, ok), k)
  {}

  lemma ReconcileKeepsKey(s: State, i: nat, ok: bool, k: Key)
    requires Enabled(s, Act(i, Reconcile(ok))) && Holds(s, i) && KeyRight(s, k)
    ensures KeyRight(ApplyReconcile(s, i, ok), k)
  {}

  lemma SettleKeepsKey(s: State, i: nat, k: Key)
    requires Enabled(s, Act(i, Settle)) && Holds(s, i) && KeyRight(s, k)
    ensures KeyRight(ApplySettle(s, i), k)
  {}

  lemma HandBackKeepsKey(s: State, i: nat, k: Key)
    requires Enabled(s, Act(i, HandBack)) && Holds(s, i) && KeyRight(s, k)
    ensures KeyRight(ApplyHandBack(s, i), k)
  {}

  lemma StepKeepsKey(s: State, step: Step, k: Key)
    requires Inv(s) && Enabled(s, step)
    ensures KeyRight(Apply(s, step), k)
  {
    assert KeyRight(s, k);
    match step
    case Change(e) => ChangeKeepsKey(s, e, k);
    case Deliver => DeliverKeepsKey(s, k);
    case Act(i, action) =>
      assert WorkerRight(s, i);
      ActionKeepsKey(s, i, action, k);
    case _ => EnvironmentKeepsKey(s, step, k);
  }

  lemma ActionKeepsKey(s: State, i: nat, action: Action, k: Key)
    requires Enabled(s, Act(i, action)) && KeyRight(s, k) && PhaseRight(s) && WorkerRight(s, i) && s.q.Valid()
    ensures KeyRight(ApplyAction(s, i, action), k)
  {
    match action
    case Take =>
      s.q.GetKeeps();
      TakeKeepsKey(s, i, k);
    case Look => LookKeepsKey(s, i, k);
    case LookError => ConcludeKeepsKey(s, i, false, k);
    case Reject => ConcludeKeepsKey(s, i, true, k);
    case Reconcile(ok) => ReconcileKeepsKey(s, i, ok, k);
    case Settle => SettleKeepsKey(s, i, k);
    case HandBack => HandBackKeepsKey(s, i, k);
    case _ => ComeAndGoKeepsKey(s, i, action, k);
  }

  // ---- Workers ----

  lemma TakeKeepsWorker(s: State, i: nat, j: nat)
    requires Enabled(s, Act(i, Take)) && WorkerRight(s, i) && WorkerRight(s, j)
    requires s.q.order[0] !in s.holder
    ensures WorkerRight(ApplyTake(s, i), j)
  {}

  lemma HandBackKeepsWorker(s: State, i: nat, j: nat)
    requires Enabled(s, Act(i, HandBack)) && WorkerRight(s, i) && WorkerRight(s, j)
    ensures WorkerRight(ApplyHandBack(s, i), j)
  {}

  lemma OtherActionKeepsWorker(s: State, i: nat, action: Action, j: nat)
    requires Enabled(s, Act(i, action)) && !action.Take? && !action.HandBack?
    requires WorkerRight(s, i) && WorkerRight(s, j)
    ensures WorkerRight(ApplyAction(s, i, action), j)
  {
    match action
    case Enter =>
    case Skip =>
    case Leave =>
    case Look =>
    case Settle =>
    case Reconcile(ok) => ConcludeKeepsWorker(s, i, ok, j);
    case Reject => ConcludeKeepsWorker(s, i, true, j);
    case LookError => ConcludeKeepsWorker(s, i, false, j);
  }

  lemma ConcludeKeepsWorker(s: State, i: nat, ok: bool, j: nat)
    requires IsWorker(s, i) && s.workers[i].Reconciling()
    requires WorkerRight(s, i) && WorkerRight(s, j)
    ensures WorkerRight(Conclude(s, i, ok), j)
  {}

  lemma EnvironmentKeepsWorker(s: State, step: Step, j: nat)
    requires Enabled(s, step) && !step.Act? && WorkerRight(s, j)
    ensures WorkerRight(Apply(s, step), j)
  {}

  lemma StepKeepsWorker(s: State, step: Step, j: nat)
    requires Inv(s) && Enabled(s, step)
    ensures WorkerRight(Apply(s, step), j)
  {
    assert WorkerRight(s, j);
    if !step.Act? {
      EnvironmentKeepsWorker(s, step, j);
    } else {
      var i := step.i;
      assert WorkerRight(s, i);
      if step.action.Take? {
        s.q.GetKeeps();
        assert KeyRight(s, s.q.order[0]);
        TakeKeepsWorker(s, i, j);
      } else if step.action.HandBack? {
        HandBackKeepsWorker(s, i, j);
      } else {
        OtherActionKeepsWorker(s, i, step.action, j);
      }
    }
  }

  // ---- Queue and phases ----

  lemma EnvironmentKeepsQueue(s: State, step: Step)
    requires s.q.Valid() && Enabled(s, step) && !step.Act?
    ensures Apply(s, step).q.Valid()
  {}

  lemma ActionKeepsQueue(s: State, i: nat, action: Action)
    requires s.q.Valid() && Enabled(s, Act(i, action)) && WorkerRight(s, i)
    requires s.workers[i].Busy() ==> HeldRight(s, s.workers[i].key)
    ensures ApplyAction(s, i, action).q.Valid()
  {
    if action.Take? {
      s.q.GetKeeps();
    } else if action.HandBack? {
      s.q.DoneKeeps(s.workers[i].key);
    } else {
      assert ApplyAction(s, i, action).q.order == s.q.order;
      assert ApplyAction(s, i, action).q.dirty == s.q.dirty;
      assert ApplyAction(s, i, action).q.processing == s.q.processing;
    }
  }

  lemma StepKeepsQueue(s: State, step: Step)
    requires Inv(s) && Enabled(s, step)
    ensures Apply(s, step).q.Valid()
  {
    if step.Act? {
      assert WorkerRight(s, step.i);
      if s.workers[step.i].Busy() {
        assert KeyRight(s, s.workers[step.i].key);
      }
      ActionKeepsQueue(s, step.i, step.action);
    } else {
      EnvironmentKeepsQueue(s, step);
    }
  }

  lemma ConcludeKeepsPhase(s: State, i: nat, ok: bool)
    requires PhaseRight(s) && IsWorker(s, i) && s.workers[i].Reconciling() && s.entered
    ensures PhaseRight(Conclude(s, i, ok)) && Conclude(s, i, ok).workers[i].Active()
  {}

  lemma QueueActionKeepsPhase(s: State, i: nat, action: Action)
    requires PhaseRight(s) && Enabled(s, Act(i, action)) && s.entered
    requires action.Take? || action.Settle? || action.HandBack?
    ensures PhaseRight(ApplyAction(s, i, action)) && ApplyAction(s, i, action).workers[i].Active()
  {}

  lemma ActionKeepsPhase(s: State, i: nat, action: Action)
    requires PhaseRight(s) && Enabled(s, Act(i, action)) && WorkerRight(s, i)
    ensures var t := ApplyAction(s, i, action);
      PhaseRight(t) && i < |t.workers| && (action.Skip? || action.Leave? || t.workers[i].Active())
  {
    match action
    case Enter =>
    case Skip =>
    case Leave =>
    case Look =>
    case LookError => ConcludeKeepsPhase(s, i, false);
    case Reject => ConcludeKeepsPhase(s, i, true);
    case Reconcile(ok) => ConcludeKeepsPhase(s, i, ok);
    case _ => QueueActionKeepsPhase(s, i, action);
  }

  /** A worker that does not leave is active after its step. */
  lemma ActionKeepsLeft(s: State, i: nat, action: Action)
    requires LeftRight(s) && PhaseRight(s) && Enabled(s, Act(i, action)) && WorkerRight(s, i)
    ensures LeftRight(ApplyAction(s, i, action))
  {
    var t := ApplyAction(s, i, action);
    ActionKeepsPhase(s, i, action);
    if action.Skip? {
      if NoneActive(t) {
        forall j | 0 <= j < |s.workers| ensures !s.workers[j].Active() {
          assert j != i ==> !t.workers[j].Active();
        }
      }
    }
  }

  lemma EnvironmentKeepsLeft(s: State, step: Step)
    requires LeftRight(s) && PhaseRight(s) && Enabled(s, step) && !step.Act?
    ensures LeftRight(Apply(s, step))
  {}

  lemma StepKeepsPhase(s: State, step: Step)
    requires Inv(s) && Enabled(s, step)
    ensures PhaseRight(Apply(s, step)) && LeftRight(Apply(s, step))
  {
    if step.Act? {
      assert WorkerRight(s, step.i);
      ActionKeepsPhase(s, step.i, step.action);
      ActionKeepsLeft(s, step.i, step.action);
    } else {
      EnvironmentKeepsLeft(s, step);
    }
  }

  lemma StepKeepsInv(s: State, step: Step)
    requires Inv(s) && Enabled(s, step)
    ensures Inv(Apply(s, step))
  {
    StepKeepsQueue(s, step);
    StepKeepsPhase(s, step);
    forall i: nat ensures WorkerRight(Apply(s, step), i) {
      StepKeepsWorker(s, step, i);
    }
    forall k: Key ensures KeyRight(Apply(s, step), k) {
      StepKeepsKey(s, step, k);
    }
  }

  lemma {:induction false} RunsKeepInv(s: State, steps: seq<Step>, t: State)
    requires Inv(s) && Leads(s, steps, t)
    ensures Inv(t)
    decreases |steps|
  {
    if steps != [] {
      StepKeepsInv(s, steps[0]);
      RunsKeepInv(Apply(s, steps[0]), steps[1..], t);
    }
  }

  lemma ReachableInv(s: State)
    requires Reachable(s)
    ensures Inv(s)
  {
    var steps :| Leads(INITIAL, steps, s);
    RunsKeepInv(INITIAL, steps, s);
  }

  // ---- Main results ----

  /** No lost update: before shutdown, an announced change that the key's last
      successful reconcile did not see is covered: an event will be delivered, the
      key is dirty or awaits a retry, or its holder will see the change or retry. */
  lemma NoLostUpdate(s: State, k: Key)
    requires Reachable(s) && !s.q.shuttingDown && Proper(k)
    requires At(s.reconciled, k) < At(s.announced, k)
    ensures Covered(s, k)
  {
    ReachableInv(s);
    assert KeyRight(s, k);
  }

  /** When nothing is left to do, every key's last successful reconcile has seen
      its last announced change, and the cache itself if that change was its last. */
  lemma QuiescentIsUpToDate(s: State, k: Key)
    requires Reachable(s) && !s.q.shuttingDown && Proper(k)
    requires s.pending == [] && s.q.dirty == {} && s.q.waiting == {} && s.q.processing == {}
    ensures At(s.announced, k) <= At(s.reconciled, k) <= At(s.version, k)
    ensures At(s.announced, k) == At(s.version, k) ==> At(s.reconciled, k) == At(s.version, k)
  {
    ReachableInv(s);
    assert KeyRight(s, k);
    if At(s.reconciled, k) < At(s.announced, k) {
      NoLostUpdate(s, k);
    }
  }

  /** Delivering an event makes its key dirty exactly if it is an addition, a deletion
      that is no tombstone, or an update to another resource version. */
  lemma HandlerEnqueuesExactly(q: Queue, e: Event, k: Key)
    requires !q.shuttingDown
    ensures k in Handle(q, e).dirty <==>
      k in q.dirty || (e.key == k && (e.Added? || e.Deleted? || (e.Updated? && e.oldVersion != e.newVersion)))
  {}

  lemma HolderIsWorker(s: State, i: nat)
    requires Inv(s) && IsWorker(s, i) && s.workers[i].Busy()
    ensures var k := s.workers[i].key; k in s.q.processing && k in s.holder && s.holder[k] == i
  {
    assert WorkerRight(s, i) && KeyRight(s, s.workers[i].key);
  }

  /** No key is held by two workers; a key is processing while a worker holds it;
      it was handed back as often as it was taken, up to the worker that holds it. */
  lemma MutualExclusion(s: State, i: nat, j: nat, k: Key)
    requires Reachable(s)
    ensures i < j && IsWorker(s, i) && IsWorker(s, j) && s.workers[i].Busy() && s.workers[j].Busy() ==>
      s.workers[i].key != s.workers[j].key
    ensures k in s.q.processing <==> exists w :: w in s.workers && w.Busy() && w.key == k
    ensures At(s.taken, k) == At(s.handedBack, k) + (if k in s.q.processing then 1 else 0)
  {
    ReachableInv(s);
    assert KeyRight(s, k);
    if IsWorker(s, i) && IsWorker(s, j) && s.workers[i].Busy() && s.workers[j].Busy() {
      HolderIsWorker(s, i);
      HolderIsWorker(s, j);
    }
    if w :| w in s.workers && w.Busy() && w.key == k {
      var n: nat :| n < |s.workers| && s.workers[n] == w;
      HolderIsWorker(s, n);
    }
  }

  /** While nobody holds a key, the limiter's count is the number of its failures
      in a row. */
  lemma RetryAccounting(s: State, k: Key)
    requires Reachable(s) && k !in s.q.processing
    ensures At(s.q.failures, k) == At(s.streak, k)
  {
    ReachableInv(s);
    assert KeyRight(s, k);
  }

  /** When `Run` returns after the shutdown, its context was cancelled, all its
      workers are gone, and no key is held. If any worker came to `runWorker`, the
      queue is empty; if none did, the keys dirty at shutdown are dirty still. So
      exactly then every key dirty at shutdown has been reconciled since. */
  lemma DrainExactly(s: State)
    requires Reachable(s) && s.phase.Returned?
    ensures s.cancelled && s.q.processing == {}
    ensures s.entered ==> s.q.dirty == {} && s.q.order == []
    ensures !s.entered ==> s.q.dirty == s.owed && s.served == {}
    ensures s.owed <= s.served <==> s.entered || s.owed == {}
  {
    ReachableInv(s);
    forall k ensures k !in s.q.processing && k !in s.holder {
      assert KeyRight(s, k);
    }
    if s.entered {
      assert NoneActive(s);
      forall k ensures k !in s.q.dirty {
        assert k !in s.q.order;
      }
      forall k | k in s.owed ensures k in s.served {
        assert KeyRight(s, k);
      }
    }
  }
}
