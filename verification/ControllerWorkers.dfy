/** What becomes of keys and workers in every run: keys that cannot be split are dropped,
    failures come back, workers stay until they may leave, and keys and events keep
    their order. */
module ControllerWorkers {
  import opened ControllerHistory
  import opened ControllerProofs
  import opened ControllerProtocol
  import opened Keys
  import opened WorkQueue

  // ---- Keys that cannot be split ----

  /** No failure is recorded of the key, and it does not await a retry. */
  predicate NeverFailed(s: State, k: Key) {
    && k !in s.q.waiting && k !in s.q.failures
    && forall i :: 0 <= i < |s.workers| ==>
        s.workers[i] != Failed(k) && !(s.workers[i].Looked? && s.workers[i].key == k)
  }

  lemma TakeDropsInvalid(s: State, i: nat, k: Key)
    requires NeverFailed(s, k) && Enabled(s, Act(i, Take))
    ensures NeverFailed(ApplyTake(s, i), k)
  {}

  lemma LookDropsInvalid(s: State, i: nat, k: Key)
    requires NeverFailed(s, k) && LookupKey(k).None? && Enabled(s, Act(i, Look))
    ensures NeverFailed(ApplyLook(s, i), k)
  {}

  lemma ConcludeDropsInvalid(s: State, i: nat, ok: bool, k: Key)
    requires NeverFailed(s, k) && IsWorker(s, i) && s.workers[i].Reconciling() && (s.workers[i].key == k ==> ok)
    ensures NeverFailed(Conclude(s, i, ok), k)
  {}

  lemma ReconcileDropsInvalid(s: State, i: nat, ok: bool, k: Key)
    requires NeverFailed(s, k) && Enabled(s, Act(i, Reconcile(ok)))
    ensures NeverFailed(ApplyReconcile(s, i, ok), k)
  {
    ConcludeDropsInvalid(s, i, ok, k);
  }

  lemma SettleDropsInvalid(s: State, i: nat, k: Key)
    requires NeverFailed(s, k) && Enabled(s, Act(i, Settle))
    ensures NeverFailed(ApplySettle(s, i), k)
  {
    assert s.workers[i] != Failed(k);
  }

  lemma HandBackDropsInvalid(s: State, i: nat, k: Key)
    requires NeverFailed(s, k) && Enabled(s, Act(i, HandBack))
    ensures NeverFailed(ApplyHandBack(s, i), k)
  {}

  lemma ComeAndGoDropsInvalid(s: State, i: nat, action: Action, k: Key)
    requires NeverFailed(s, k) && Enabled(s, Act(i, action)) && (action.Enter? || action.Skip? || action.Leave?)
    ensures NeverFailed(ApplyAction(s, i, action), k)
  {}

  lemma ActionDropsInvalid(s: State, i: nat, action: Action, k: Key)
    requires NeverFailed(s, k) && LookupKey(k).None? && Enabled(s, Act(i, action))
    ensures NeverFailed(ApplyAction(s, i, action), k)
  {
    match action
    case Take => TakeDropsInvalid(s, i, k);
    case Look => LookDropsInvalid(s, i, k);
    case LookError => ConcludeDropsInvalid(s, i, false, k);
    case Reject => ConcludeDropsInvalid(s, i, true, k);
    case Reconcile(ok) => ReconcileDropsInvalid(s, i, ok, k);
    case Settle => SettleDropsInvalid(s, i, k);
    case HandBack => HandBackDropsInvalid(s, i, k);
    case _ => ComeAndGoDropsInvalid(s, i, action, k);
  }

  lemma EnvironmentDropsInvalid(s: State, step: Step, k: Key)
    requires NeverFailed(s, k) && Enabled(s, step) && !step.Act?
    ensures NeverFailed(Apply(s, step), k)
  {}

  /** An invalid key is reconciled without an error: it never counts as failed, and is
      never retried. */
  lemma {:induction false} InvalidIsDropped(s: State, steps: seq<Step>, t: State, k: Key)
    requires LookupKey(k).None? && NeverFailed(s, k) && Leads(s, steps, t)
    ensures NeverFailed(t, k)
    decreases |steps|
  {
    if steps != [] {
      if steps[0].Act? {
        ActionDropsInvalid(s, steps[0].i, steps[0].action, k);
      } else {
        EnvironmentDropsInvalid(s, steps[0], k);
      }
      InvalidIsDropped(Apply(s, steps[0]), steps[1..], t, k);
    }
  }

  /** So in every reachable state, an invalid key awaits no retry and has no failures. */
  lemma InvalidKeysNeverFail(s: State, k: Key)
    requires Reachable(s) && LookupKey(k).None?
    ensures k !in s.q.waiting && At(s.q.failures, k) == 0
  {
    var steps :| Leads(INITIAL, steps, s);
    InvalidIsDropped(INITIAL, steps, s, k);
  }

  // ---- Retries ----

  /** How often a delay of the key ends. */
  function Fires(steps: seq<Step>, k: Key): nat {
    if steps == [] then 0 else (if steps[0] == Fire(k) then 1 else 0) + Fires(steps[1..], k)
  }

  predicate SettlesFailure(s: State, step: Step, k: Key) {
    step.Act? && step.action.Settle? && IsWorker(s, step.i) && s.workers[step.i] == Failed(k)
  }

  /** How often a worker that has failed with the key hands it to the limiter. */
  ghost function FailuresSettled(s: State, steps: seq<Step>, k: Key): nat
    decreases |steps|
  {
    if steps == [] || !Enabled(s, steps[0]) then 0
    else (if SettlesFailure(s, steps[0], k) then 1 else 0) + FailuresSettled(Apply(s, steps[0]), steps[1..], k)
  }

  lemma SettleWaits(s: State, i: nat, k: Key)
    requires Enabled(s, Act(i, Settle)) && k !in s.q.waiting
    ensures k in ApplySettle(s, i).q.waiting <==> s.workers[i] == Failed(k) && !s.q.shuttingDown
  {}

  lemma OthersKeepWaiting(s: State, i: nat, action: Action)
    requires Enabled(s, Act(i, action)) && !action.Settle?
    ensures ApplyAction(s, i, action).q.waiting == s.q.waiting
  {
    match action
    case LookError => ConcludeMoves(s, i, false);
    case Reject => ConcludeMoves(s, i, true);
    case Reconcile(ok) => ConcludeMoves(s, i, ok);
    case _ =>
  }

  lemma EnvironmentWaits(s: State, step: Step, k: Key)
    requires Enabled(s, step) && !step.Act?
    ensures k in Apply(s, step).q.waiting <==> k in s.q.waiting && step != Fire(k)
  {}

  lemma RetryAtStep(s: State, step: Step, k: Key)
    requires Enabled(s, step) && k in Apply(s, step).q.waiting && k !in s.q.waiting
    ensures SettlesFailure(s, step, k)
  {
    if !step.Act? {
      EnvironmentWaits(s, step, k);
    } else if step.action.Settle? {
      SettleWaits(s, step.i, k);
    } else {
      OthersKeepWaiting(s, step.i, step.action);
    }
  }

  /** Retries are conserved: in every run, a key comes back after a delay at most once for
      every failure with it that was handed to the limiter. */
  lemma {:induction false} RetriesAreEarned(s: State, steps: seq<Step>, t: State, k: Key)
    requires Leads(s, steps, t)
    ensures Fires(steps, k) + (if k in t.q.waiting then 1 else 0)
      <= FailuresSettled(s, steps, k) + (if k in s.q.waiting then 1 else 0)
    decreases |steps|
  {
    if steps != [] {
      var u := Apply(s, steps[0]);
      if k in u.q.waiting && k !in s.q.waiting {
        RetryAtStep(s, steps[0], k);
      }
      if steps[0] == Fire(k) {
        EnvironmentWaits(s, steps[0], k);
      }
      RetriesAreEarned(u, steps[1..], t, k);
    }
  }

  /** And a failure that is handed to the limiter before shutdown makes the key wait, from
      where nothing but the end of its delay takes it. */
  lemma FailureWaits(s: State, step: Step, k: Key)
    requires Enabled(s, step)
    ensures SettlesFailure(s, step, k) && !s.q.shuttingDown ==> k in Apply(s, step).q.waiting
    ensures k in s.q.waiting && step != Fire(k) ==> k in Apply(s, step).q.waiting
    ensures step == Fire(k) && !s.q.shuttingDown ==> k in Apply(s, step).q.dirty
  {
    if !step.Act? {
      EnvironmentWaits(s, step, k);
    } else if step.action.Settle? {
      SettleAddsOnly(s, step.i, k);
    } else {
      OthersKeepWaiting(s, step.i, step.action);
    }
  }

  lemma SettleAddsOnly(s: State, i: nat, k: Key)
    requires Enabled(s, Act(i, Settle))
    ensures k in s.q.waiting ==> k in ApplySettle(s, i).q.waiting
    ensures s.workers[i] == Failed(k) && !s.q.shuttingDown ==> k in ApplySettle(s, i).q.waiting
  {}

  // ---- When workers leave ----

  /** Once launched there are workers, and none has left before the context is done. */
  predicate CrewRight(s: State) {
    && (s.phase.Syncing? || s.phase.GaveUp? || s.workers != [])
    && forall i :: 0 <= i < |s.workers| && s.workers[i].Exited? ==> s.cancelled
  }

  predicate HasLeft(s: State, i: nat) {
    IsWorker(s, i) && s.workers[i].Exited?
  }

  predicate MayLeave(s: State, i: nat) {
    && IsWorker(s, i)
    && ((s.workers[i].Launched? && s.cancelled) || (s.workers[i].Idle? && s.q.shuttingDown && s.q.order == []))
  }

  predicate SameCrew(s: State, t: State, i: nat) {
    && i < |s.workers| && |t.workers| == |s.workers| && t.workers == s.workers[i := t.workers[i]]
    && t.phase == s.phase && t.cancelled == s.cancelled
  }

  lemma ConcludeKeepsCrew(s: State, i: nat, ok: bool)
    requires IsWorker(s, i) && s.workers[i].Reconciling()
    ensures SameCrew(s, Conclude(s, i, ok), i) && !HasLeft(Conclude(s, i, ok), i)
  {}

  /** A worker leaves only before its loop, when the context is done, or from its loop,
      with no key in hand, when the queue is shutting down and empty. */
  lemma LeavesOnly(s: State, i: nat, action: Action)
    requires Enabled(s, Act(i, action))
    ensures HasLeft(ApplyAction(s, i, action), i) ==> MayLeave(s, i)
    ensures SameCrew(s, ApplyAction(s, i, action), i)
  {
    match action
    case LookError => ConcludeKeepsCrew(s, i, false);
    case Reject => ConcludeKeepsCrew(s, i, true);
    case Reconcile(ok) => ConcludeKeepsCrew(s, i, ok);
    case _ =>
  }

  lemma ActionKeepsCrew(s: State, i: nat, action: Action)
    requires PhaseRight(s) && CrewRight(s) && Enabled(s, Act(i, action))
    ensures CrewRight(ApplyAction(s, i, action))
  {
    LeavesOnly(s, i, action);
    assert HasLeft(ApplyAction(s, i, action), i) ==> s.cancelled;
  }

  lemma EnvironmentKeepsCrew(s: State, step: Step)
    requires CrewRight(s) && Enabled(s, step) && !step.Act?
    ensures CrewRight(Apply(s, step))
  {}

  lemma {:induction false} CrewStaysRight(s: State, steps: seq<Step>, t: State)
    requires Inv(s) && CrewRight(s) && Leads(s, steps, t)
    ensures CrewRight(t)
    decreases |steps|
  {
    if steps != [] {
      if steps[0].Act? {
        ActionKeepsCrew(s, steps[0].i, steps[0].action);
      } else {
        EnvironmentKeepsCrew(s, steps[0]);
      }
      StepKeepsInv(s, steps[0]);
      CrewStaysRight(Apply(s, steps[0]), steps[1..], t);
    }
  }

  /** Before the context is done, all workers that were launched are there, and while
      the controller works, drains or waits for them there is at least one. */
  lemma WorkersStay(s: State)
    requires Reachable(s)
    ensures s.phase.Working? || s.phase.Draining? || s.phase.Joining? || s.phase.Returned? ==> s.workers != []
    ensures !s.cancelled ==> forall i :: 0 <= i < |s.workers| ==> !s.workers[i].Exited?
  {
    var steps :| Leads(INITIAL, steps, s);
    ReachableInv(INITIAL) by {
      InitialIsReachable();
    }
    CrewStaysRight(INITIAL, steps, s);
  }

  // ---- Order ----

  predicate IsTake(step: Step) {
    step.Act? && step.action.Take?
  }

  function Takes(steps: seq<Step>): nat {
    if steps == [] then 0 else (if IsTake(steps[0]) then 1 else 0) + Takes(steps[1..])
  }

  /** What a step does to the ready keys, and to how often a key was taken. */
  predicate InOrder(s: State, t: State) {
    s.q.order <= t.q.order && t.taken == s.taken
  }

  lemma ConcludeInOrder(s: State, i: nat, ok: bool)
    requires IsWorker(s, i) && s.workers[i].Reconciling()
    ensures InOrder(s, Conclude(s, i, ok))
  {}

  lemma ActionInOrder(s: State, i: nat, action: Action)
    requires Enabled(s, Act(i, action)) && !action.Take?
    ensures InOrder(s, ApplyAction(s, i, action))
  {
    match action
    case LookError => ConcludeInOrder(s, i, false);
    case Reject => ConcludeInOrder(s, i, true);
    case Reconcile(ok) => ConcludeInOrder(s, i, ok);
    case _ =>
  }

  lemma EnvironmentInOrder(s: State, step: Step)
    requires Enabled(s, step) && !step.Act?
    ensures InOrder(s, Apply(s, step))
  {}

  lemma TakeInOrder(s: State, i: nat)
    requires Enabled(s, Act(i, Take))
    ensures var t := ApplyTake(s, i); t.q.order == s.q.order[1..] && t.taken == Bump(s.taken, s.q.order[0])
  {}

  predicate Advanced(s: State, t: State) {
    s.q.order != [] && t.q.order == s.q.order[1..] && t.taken == Bump(s.taken, s.q.order[0])
  }

  lemma StepInOrder(s: State, step: Step)
    requires Enabled(s, step)
    ensures if IsTake(step) then Advanced(s, Apply(s, step)) else InOrder(s, Apply(s, step))
  {
    if !step.Act? {
      EnvironmentInOrder(s, step);
    } else if step.action.Take? {
      TakeInOrder(s, step.i);
    } else {
      ActionInOrder(s, step.i, step.action);
    }
  }

  lemma {:induction false} TakenGrows(s: State, steps: seq<Step>, t: State, k: Key)
    requires Leads(s, steps, t)
    ensures At(s.taken, k) <= At(t.taken, k)
    decreases |steps|
  {
    if steps != [] {
      StepInOrder(s, steps[0]);
      TakenGrows(Apply(s, steps[0]), steps[1..], t, k);
    }
  }

  /** No overtaking: in every run, a key with `n` ready keys before it moves up by one
      with every key that is taken, and is taken itself as the one after these. */
  lemma {:induction false} NoOvertaking(s: State, steps: seq<Step>, t: State, n: nat)
    requires Leads(s, steps, t) && n < |s.q.order|
    ensures var k, taken := s.q.order[n], Takes(steps);
      if taken <= n then n - taken < |t.q.order| && t.q.order[n - taken] == k
      else At(t.taken, k) > At(s.taken, k)
    decreases |steps|
  {
    if steps != [] {
      var u := Apply(s, steps[0]);
      StepInOrder(s, steps[0]);
      if !IsTake(steps[0]) {
        NoOvertaking(u, steps[1..], t, n);
      } else if n > 0 {
        NoOvertaking(u, steps[1..], t, n - 1);
      } else {
        TakenGrows(u, steps[1..], t, s.q.order[0]);
      }
    }
  }

  /** The events of a run, in the order of the changes. */
  function Events(steps: seq<Step>): seq<Event> {
    if steps == [] then []
    else
      var n := |steps| - 1;
      Events(steps[..n]) + if steps[n].Change? then [steps[n].event] else []
  }

  function Deliveries(steps: seq<Step>): nat {
    if steps == [] then 0
    else
      var n := |steps| - 1;
      Deliveries(steps[..n]) + if steps[n].Deliver? then 1 else 0
  }

  predicate PendingTold(steps: seq<Step>, s: State) {
    Deliveries(steps) <= |Events(steps)| && s.pending == Events(steps)[Deliveries(steps)..]
  }

  lemma ActionKeepsPending(s: State, i: nat, action: Action)
    requires Enabled(s, Act(i, action))
    ensures ApplyAction(s, i, action).pending == s.pending
  {
    match action
    case LookError => ConcludeMoves(s, i, false);
    case Reject => ConcludeMoves(s, i, true);
    case Reconcile(ok) => ConcludeMoves(s, i, ok);
    case _ =>
  }

  lemma PendingToldAtStep(steps: seq<Step>, s: State, step: Step)
    requires PendingTold(steps, s) && Enabled(s, step)
    ensures PendingTold(steps + [step], Apply(s, step))
  {
    assert (steps + [step])[..|steps|] == steps;
    if step.Act? {
      ActionKeepsPending(s, step.i, step.action);
    }
  }

  lemma {:induction false} AllPendingTold(steps: seq<Step>, s: State)
    requires Leads(INITIAL, steps, s)
    ensures PendingTold(steps, s)
    decreases |steps|
  {
    if steps != [] {
      var n := |steps| - 1;
      var p := LastStep(INITIAL, steps, s);
      AllPendingTold(steps[..n], p);
      PendingToldAtStep(steps[..n], p, steps[n]);
      assert steps == steps[..n] + [steps[n]];
    }
  }

  /** The handlers get the events in the order of the changes, each once: the delivery
      after `n` others is that of the event of change `n`. */
  lemma DeliversInOrder(steps: seq<Step>, s: State)
    requires Leads(INITIAL, steps, s) && Enabled(s, Deliver)
    ensures Deliveries(steps) < |Events(steps)|
    ensures var e := Events(steps)[Deliveries(steps)]; Apply(s, Deliver).q == Handle(s.q, e)
  {
    AllPendingTold(steps, s);
  }
}
