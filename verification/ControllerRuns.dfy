/** Runs of the controller: what becomes of changes that no event announces, and how
    the drain ends. */
module ControllerRuns {
  import opened ControllerProofs
  import opened ControllerProtocol
  import opened Keys
  import opened WorkQueue

  // ---- Changes that are not announced ----

  predicate NothingToDo(s: State) {
    !s.q.shuttingDown && s.pending == [] && s.q.dirty == {} && s.q.waiting == {} && s.q.processing == {}
  }

  /** A change that finds the controller with nothing to do is taken up exactly if it is
      an addition, a deletion that is no tombstone, or an update to another resource
      version. In any case it has not been reconciled yet. */
  lemma TakenUpExactly(s: State, e: Event)
    requires Reachable(s) && NothingToDo(s)
    ensures var t := Apply(Apply(s, Change(e)), Deliver);
      && (Covered(t, e.key) <==> e.Added? || e.Deleted? || (e.Updated? && e.oldVersion != e.newVersion))
      && (Proper(e.key) ==> At(t.reconciled, e.key) < At(t.version, e.key))
  {
    ReachableInv(s);
    assert KeyRight(s, e.key);
  }

  /** Whoever holds the key has not yet looked it up, or may fail with it, or has. */
  predicate HolderMayLook(s: State, k: Key) {
    && k in s.holder && IsWorker(s, s.holder[k])
    && var w := s.workers[s.holder[k]]; w.Taken? || w.Looked? || w.Failed?
  }

  /** Nothing is under way that would have the key reconciled. */
  predicate Forgotten(s: State, k: Key) {
    k !in s.q.dirty && k !in s.q.waiting && !InEvents(s.pending, k) && !HolderMayLook(s, k)
  }

  predicate AnnouncesKey(step: Step, k: Key) {
    step.Change? && step.event.key == k && Announces(step.event)
  }

  lemma StaysForgottenAtStep(s: State, step: Step, k: Key)
    requires Inv(s) && Forgotten(s, k) && Enabled(s, step) && !AnnouncesKey(step, k)
    ensures Forgotten(Apply(s, step), k) && At(Apply(s, step).reconciled, k) == At(s.reconciled, k)
  {
    assert KeyRight(s, k);
    match step
    case Act(i, action) =>
      assert WorkerRight(s, i);
      ActionForgets(s, i, action, k);
    case _ =>
  }

  lemma ActionForgets(s: State, i: nat, action: Action, k: Key)
    requires Forgotten(s, k) && Enabled(s, Act(i, action)) && WorkerRight(s, i) && HeldRight(s, k) && s.q.Valid()
    ensures var t := ApplyAction(s, i, action);
      Forgotten(t, k) && At(t.reconciled, k) == At(s.reconciled, k)
  {
    assert k !in s.q.order;
    match action
    case Enter => ComeAndGoForgets(s, i, action, k);
    case Skip => ComeAndGoForgets(s, i, action, k);
    case Leave => ComeAndGoForgets(s, i, action, k);
    case Take => TakeForgets(s, i, k);
    case Look => LookForgets(s, i, k);
    case LookError => ConcludeForgets(s, i, false, k);
    case Reject => ConcludeForgets(s, i, true, k);
    case Reconcile(ok) => ReconcileForgets(s, i, ok, k);
    case Settle => SettleForgets(s, i, k);
    case HandBack => HandBackForgets(s, i, k);
  }

  predicate StillForgotten(s: State, t: State, k: Key) {
    Forgotten(t, k) && At(t.reconciled, k) == At(s.reconciled, k)
  }

  lemma ComeAndGoForgets(s: State, i: nat, action: Action, k: Key)
    requires Forgotten(s, k) && Enabled(s, Act(i, action)) && HeldRight(s, k)
    requires action.Enter? || action.Skip? || action.Leave?
    ensures StillForgotten(s, ApplyAction(s, i, action), k)
  {}

  lemma TakeForgets(s: State, i: nat, k: Key)
    requires Forgotten(s, k) && Enabled(s, Act(i, Take)) && k !in s.q.order && HeldRight(s, k)
    ensures StillForgotten(s, ApplyTake(s, i), k)
  {}

  lemma LookForgets(s: State, i: nat, k: Key)
    requires Forgotten(s, k) && Enabled(s, Act(i, Look)) && WorkerRight(s, i) && HeldRight(s, k)
    ensures StillForgotten(s, ApplyLook(s, i), k)
  {}

  lemma ConcludeForgets(s: State, i: nat, ok: bool, k: Key)
    requires Forgotten(s, k) && IsWorker(s, i) && s.workers[i].Reconciling() && WorkerRight(s, i) && HeldRight(s, k)
    ensures StillForgotten(s, Conclude(s, i, ok), k)
  {}

  lemma ReconcileForgets(s: State, i: nat, ok: bool, k: Key)
    requires Forgotten(s, k) && Enabled(s, Act(i, Reconcile(ok))) && WorkerRight(s, i) && HeldRight(s, k)
    ensures StillForgotten(s, ApplyReconcile(s, i, ok), k)
  {
    ConcludeForgets(s, i, ok, k);
  }

  lemma SettleForgets(s: State, i: nat, k: Key)
    requires Forgotten(s, k) && Enabled(s, Act(i, Settle)) && WorkerRight(s, i) && HeldRight(s, k)
    ensures StillForgotten(s, ApplySettle(s, i), k)
  {}

  lemma HandBackForgets(s: State, i: nat, k: Key)
    requires Forgotten(s, k) && Enabled(s, Act(i, HandBack)) && WorkerRight(s, i) && HeldRight(s, k)
    ensures StillForgotten(s, ApplyHandBack(s, i), k)
  {}

  /** In every run in which no event announces it, a forgotten key stays forgotten, and
      its changes stay without a reconcile. */
  lemma {:induction false} StaysForgotten(s: State, steps: seq<Step>, t: State, k: Key)
    requires Inv(s) && Forgotten(s, k) && Leads(s, steps, t)
    requires forall n :: 0 <= n < |steps| ==> !AnnouncesKey(steps[n], k)
    ensures Forgotten(t, k) && At(t.reconciled, k) == At(s.reconciled, k)
    decreases |steps|
  {
    if steps != [] {
      StaysForgottenAtStep(s, steps[0], k);
      StepKeepsInv(s, steps[0]);
      StaysForgotten(Apply(s, steps[0]), steps[1..], t, k);
    }
  }

  /** A run in which a worker has reconciled an object, and then its deletion arrives as
      a tombstone: nothing is left to do, and the deletion is never reconciled, however
      the run goes on, until another event announces the key. */
  lemma TombstoneIsLost(k: Key) returns (s: State)
    requires Proper(k)
    ensures Reachable(s) && !s.q.shuttingDown && s.workers == [Idle]
    ensures At(s.reconciled, k) == 1 && At(s.version, k) == 2 && Forgotten(s, k) && !Covered(s, k)
    ensures forall steps, t ::
      Leads(s, steps, t) && (forall n :: 0 <= n < |steps| ==> !AnnouncesKey(steps[n], k)) ==>
        At(t.reconciled, k) == 1
  {
    s := ReconciledAndDeleted(k);
    ReachableInv(s);
    forall steps, t |
      Leads(s, steps, t) && (forall n :: 0 <= n < |steps| ==> !AnnouncesKey(steps[n], k))
      ensures At(t.reconciled, k) == 1
    {
      StaysForgotten(s, steps, t, k);
    }
  }

  lemma ReconciledAndDeleted(k: Key) returns (s: State)
    requires Proper(k)
    ensures Reachable(s) && !s.q.shuttingDown && s.workers == [Idle]
    ensures At(s.reconciled, k) == 1 && At(s.version, k) == 2 && Forgotten(s, k) && !Covered(s, k)
  {
    var a := LaunchedAndAdded(k);
    var b := TakenAndLooked(a, k);
    var c := ReconciledOnce(b, k);
    s := DeletedUnseen(c, k);
  }

  /** The object is added. */
  lemma AddedFirst(k: Key) returns (s: State)
    ensures Reachable(s) && s.phase.Syncing? && !s.cancelled && !s.entered && s.served == {}
    ensures s.version == map[k := 1] && s.reconciled == map[] && s.pending == []
    ensures s.q == Queue([k], {k}, {}, {}, map[], false)
  {
    InitialIsReachable();
    s := Go(INITIAL, Change(Added(k)));
    s := Go(s, Deliver);
  }

  lemma AddedAndLaunched(k: Key) returns (s: State)
    ensures Reachable(s) && s.phase.Working? && !s.cancelled && !s.entered && s.served == {}
    ensures s.version == map[k := 1] && s.reconciled == map[] && s.pending == []
    ensures s.q == Queue([k], {k}, {}, {}, map[], false) && s.workers == [Launched]
  {
    s := AddedFirst(k);
    s := Go(s, Launch(1));
  }

  /** A worker reaches its loop. */
  lemma LaunchedAndAdded(k: Key) returns (s: State)
    ensures Reachable(s) && s.workers == [Idle] && s.version == map[k := 1] && s.reconciled == map[]
    ensures s.pending == [] && s.q == Queue([k], {k}, {}, {}, map[], false)
  {
    s := AddedAndLaunched(k);
    s := Go(s, Act(0, Enter));
  }

  lemma TakenAndLooked(a: State, k: Key) returns (s: State)
    requires Reachable(a) && Proper(k) && a.workers == [Idle] && a.version == map[k := 1]
    requires a.pending == [] && a.q == Queue([k], {k}, {}, {}, map[], false)
    ensures Reachable(s) && s.workers == [Looked(k, false, 1)] && s.version == map[k := 1]
    ensures s.pending == [] && s.q == Queue([], {}, {k}, {}, map[], false)
  {
    s := Go(a, Act(0, Take));
    assert s.workers == [Taken(k, false)] && s.q == Queue([], {}, {k}, {}, map[], false);
    s := Go(s, Act(0, Look));
    assert s.workers == [Looked(k, false, 1)];
  }

  /** The worker reconciles it, and is idle again. */
  lemma ReconciledOnce(a: State, k: Key) returns (s: State)
    requires Reachable(a) && a.workers == [Looked(k, false, 1)] && a.version == map[k := 1]
    requires a.pending == [] && a.q == Queue([], {}, {k}, {}, map[], false)
    ensures Reachable(s) && s.workers == [Idle] && s.version == map[k := 1] && At(s.reconciled, k) == 1
    ensures s.pending == [] && s.q == EMPTY
  {
    s := Go(a, Act(0, Reconcile(true)));
    assert s.workers == [Succeeded(k)];
    s := HandedBack(s, k);
  }

  lemma HandedBack(a: State, k: Key) returns (s: State)
    requires Reachable(a) && a.workers == [Succeeded(k)] && a.q == Queue([], {}, {k}, {}, map[], false)
    ensures Reachable(s) && s.workers == [Idle] && s.q == EMPTY
    ensures s.version == a.version && s.reconciled == a.reconciled && s.pending == a.pending
  {
    s := Go(a, Act(0, Settle));
    assert s.workers == [Settled(k)];
    s := Go(s, Act(0, HandBack));
  }

  lemma DeletedUnseen(a: State, k: Key) returns (s: State)
    requires Reachable(a) && a.workers == [Idle] && a.version == map[k := 1] && At(a.reconciled, k) == 1
    requires a.pending == [] && a.q == EMPTY
    ensures Reachable(s) && !s.q.shuttingDown && s.workers == [Idle]
    ensures At(s.reconciled, k) == 1 && At(s.version, k) == 2 && Forgotten(s, k) && !Covered(s, k)
  {
    ReachableInv(a);
    assert KeyRight(a, k);
    s := Go(a, Change(Tombstone(k)));
    s := Go(s, Deliver);
  }

  lemma Go(s: State, step: Step) returns (t: State)
    requires Reachable(s) && Enabled(s, step)
    ensures Reachable(t) && t == Apply(s, step)
  {
    ReachableOn(s, step);
    t := Apply(s, step);
  }

  // ---- The end of the drain ----

  /** The context ends before the one worker reaches its loop: `Run` returns, and the
      key that was dirty at the shutdown has not been reconciled since. */
  lemma DrainMayServeNothing(k: Key) returns (s: State)
    ensures Reachable(s) && s.phase.Returned? && !s.entered && s.owed == {k} && s.q.dirty == {k} && s.served == {}
  {
    s := LaunchedTooLate(k);
    s := Go(s, BeginShutDown);
    s := Go(s, Drained);
    s := Go(s, Join);
  }

  lemma LaunchedTooLate(k: Key) returns (s: State)
    ensures Reachable(s) && s.phase.Working? && s.cancelled && !s.entered && s.workers == [Exited] && s.served == {}
    ensures s.q == Queue([k], {k}, {}, {}, map[], false)
  {
    s := AddedAndLaunched(k);
    s := Go(s, Cancel);
    s := Go(s, Act(0, Skip));
  }

  /** The steps that a worker has before it at most, were the queue empty. */
  function Rank(w: Worker): nat {
    match w
    case Exited => 0
    case Launched => 1
    case Idle => 1
    case Settled(_) => 2
    case Succeeded(_) => 3
    case Failed(_) => 3
    case Looked(_, _, _) => 4
    case Taken(_, _) => 5
  }

  function Ranks(workers: seq<Worker>): nat {
    if workers == [] then 0 else Rank(workers[0]) + Ranks(workers[1..])
  }

  lemma {:induction false} RanksUpdate(workers: seq<Worker>, i: nat, w: Worker)
    requires i < |workers|
    ensures Ranks(workers[i := w]) == Ranks(workers) - Rank(workers[i]) + Rank(w)
  {
    if i == 0 {
      assert workers[0 := w][1..] == workers[1..];
    } else {
      RanksUpdate(workers[1..], i - 1, w);
      assert workers[i := w][1..] == workers[1..][i - 1 := w];
    }
  }

  /** A bound on the steps that the workers take once the queue shuts down. */
  function Work(s: State): nat {
    Ranks(s.workers) + 5 * |s.q.dirty|
  }

  predicate SamePhase(s: State, t: State) {
    t.phase == s.phase && t.q.shuttingDown == s.q.shuttingDown
  }

  /** The worker at `i` came further, and the keys to be taken are the same. */
  predicate Further(s: State, t: State, i: nat) {
    && SamePhase(s, t) && t.q.dirty == s.q.dirty
    && i < |s.workers| && i < |t.workers|
    && t.workers == s.workers[i := t.workers[i]] && Rank(t.workers[i]) < Rank(s.workers[i])
  }

  lemma TakeWorks(s: State, i: nat)
    requires Enabled(s, Act(i, Take)) && s.q.Valid()
    ensures SamePhase(s, ApplyTake(s, i)) && Work(ApplyTake(s, i)) < Work(s)
  {
    var t := ApplyTake(s, i);
    RanksUpdate(s.workers, i, t.workers[i]);
    assert s.q.order[0] in s.q.dirty;
    assert t.q.dirty == s.q.dirty - {s.q.order[0]};
  }

  lemma ConcludeWorks(s: State, i: nat, ok: bool)
    requires IsWorker(s, i) && s.workers[i].Reconciling()
    ensures Further(s, Conclude(s, i, ok), i)
  {}

  lemma ReconcileWorks(s: State, i: nat, ok: bool)
    requires Enabled(s, Act(i, Reconcile(ok)))
    ensures Further(s, ApplyReconcile(s, i, ok), i)
  {
    ConcludeWorks(s, i, ok);
  }

  lemma SettleWorks(s: State, i: nat)
    requires Enabled(s, Act(i, Settle))
    ensures Further(s, ApplySettle(s, i), i)
  {}

  lemma HandBackWorks(s: State, i: nat)
    requires Enabled(s, Act(i, HandBack))
    ensures Further(s, ApplyHandBack(s, i), i)
  {}

  lemma LookWorks(s: State, i: nat)
    requires Enabled(s, Act(i, Look))
    ensures Further(s, ApplyLook(s, i), i)
  {}

  lemma LeaveWorks(s: State, i: nat, action: Action)
    requires Enabled(s, Act(i, action)) && (action.Skip? || action.Leave?)
    ensures Further(s, ApplyAction(s, i, action), i)
  {}

  /** Any other step brings its worker further, and leaves the keys to be taken. */
  lemma OtherActionWorks(s: State, i: nat, action: Action)
    requires Enabled(s, Act(i, action)) && !action.Take? && !action.Enter?
    ensures Further(s, ApplyAction(s, i, action), i)
  {
    match action
    case Look => LookWorks(s, i);
    case LookError => ConcludeWorks(s, i, false);
    case Reject => ConcludeWorks(s, i, true);
    case Reconcile(ok) => ReconcileWorks(s, i, ok);
    case Settle => SettleWorks(s, i);
    case HandBack => HandBackWorks(s, i);
    case _ => LeaveWorks(s, i, action);
  }

  lemma ActionWorks(s: State, i: nat, action: Action)
    requires Enabled(s, Act(i, action)) && s.cancelled && s.q.Valid()
    ensures SamePhase(s, ApplyAction(s, i, action)) && Work(ApplyAction(s, i, action)) < Work(s)
  {
    if action.Take? {
      TakeWorks(s, i);
    } else {
      OtherActionWorks(s, i, action);
      RanksUpdate(s.workers, i, ApplyAction(s, i, action).workers[i]);
    }
  }

  function Acts(steps: seq<Step>): nat {
    if steps == [] then 0 else (if steps[0].Act? then 1 else 0) + Acts(steps[1..])
  }

  lemma EnvironmentIdles(s: State, step: Step)
    requires PhaseRight(s) && s.q.shuttingDown && Enabled(s, step) && !step.Act?
    ensures var t := Apply(s, step); t.workers == s.workers && t.q.dirty == s.q.dirty && t.q.shuttingDown
  {}

  lemma StepWorks(s: State, step: Step)
    requires Inv(s) && s.q.shuttingDown && Enabled(s, step)
    ensures Apply(s, step).q.shuttingDown && (step.Act? ==> Apply(s, step).phase == s.phase)
    ensures Work(Apply(s, step)) + (if step.Act? then 1 else 0) <= Work(s)
  {
    if step.Act? {
      ActionWorks(s, step.i, step.action);
    } else {
      EnvironmentIdles(s, step);
    }
  }

  /** However a run goes on after the shutdown began, its workers take a bounded number
      of steps. */
  lemma {:induction false} DrainIsBounded(s: State, steps: seq<Step>, t: State)
    requires Inv(s) && s.q.shuttingDown && Leads(s, steps, t)
    ensures Acts(steps) + Work(t) <= Work(s)
    decreases |steps|
  {
    if steps != [] {
      StepWorks(s, steps[0]);
      StepKeepsInv(s, steps[0]);
      DrainIsBounded(Apply(s, steps[0]), steps[1..], t);
    }
  }

  function NextAction(s: State, w: Worker): Action
    requires !w.Exited?
  {
    match w
    case Launched => Skip
    case Idle => if s.q.order != [] then Take else Leave
    case Taken(k, _) => if LookupKey(k).Some? then Look else Reject
    case Looked(_, _, _) => Reconcile(true)
    case Succeeded(_) => Settle
    case Failed(_) => Settle
    case Settled(_) => HandBack
  }

  /** While some worker is not gone, one can act; when all are gone, `Run` can go on. */
  lemma NextStep(s: State) returns (step: Step)
    requires Inv(s) && s.phase in {Draining, Joining}
    ensures Enabled(s, step)
    ensures step.Act? || (s.phase.Draining? && step.Drained?) || (s.phase.Joining? && step.Join?)
  {
    if i: nat :| i < |s.workers| && !s.workers[i].Exited? {
      return Act(i, NextAction(s, s.workers[i]));
    }
    forall k ensures k !in s.q.processing {
      assert KeyRight(s, k);
    }
    return if s.phase.Draining? then Drained else Join;
  }

  /** So the drain never gets stuck: from every state in it, some run returns. */
  lemma {:induction false} DrainCanFinish(s: State) returns (steps: seq<Step>, t: State)
    requires Inv(s) && s.phase in {Draining, Joining}
    ensures Leads(s, steps, t) && t.phase.Returned?
    decreases Work(s), if s.phase.Draining? then 1 else 0
  {
    var step := NextStep(s);
    var next := Apply(s, step);
    StepWorks(s, step);
    StepKeepsInv(s, step);
    steps, t := [], next;
    if !step.Join? {
      steps, t := DrainCanFinish(next);
    }
    LeadsBy(s, step, steps, t);
    steps := [step] + steps;
  }
}
