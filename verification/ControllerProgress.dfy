/** When a change of the cache can still be reconciled without any further event that
    announces it: exactly if something is under way for its key, and there is or can
    be a worker. */
module ControllerProgress {
  import opened ControllerProofs
  import opened ControllerProtocol
  import opened ControllerRuns
  import opened Keys
  import opened WorkQueue

  predicate SomeActive(s: State) {
    exists i :: 0 <= i < |s.workers| && s.workers[i].Active()
  }

  predicate SomeLaunched(s: State) {
    exists i :: 0 <= i < |s.workers| && s.workers[i].Launched?
  }

  /** A worker is in its loop, or can come to it. */
  predicate CanWork(s: State) {
    SomeActive(s) || (!s.cancelled && (s.phase.Syncing? || SomeLaunched(s)))
  }

  ghost predicate Unannounced(steps: seq<Step>, k: Key) {
    forall n :: 0 <= n < |steps| ==> !AnnouncesKey(steps[n], k)
  }

  /** Some run without an announcing event has the key reconciled from version `v` or a
      later one. */
  ghost predicate CanBeReconciled(s: State, k: Key, v: nat) {
    exists steps, t :: Leads(s, steps, t) && Unannounced(steps, k) && At(t.reconciled, k) >= v
  }

  lemma ReconciledBy(s: State, step: Step, k: Key, v: nat)
    requires Enabled(s, step) && !AnnouncesKey(step, k) && CanBeReconciled(Apply(s, step), k, v)
    ensures CanBeReconciled(s, k, v)
  {
    var steps, t :| Leads(Apply(s, step), steps, t) && Unannounced(steps, k) && At(t.reconciled, k) >= v;
    LeadsBy(s, step, steps, t);
    assert Unannounced([step] + steps, k);
  }

  lemma ReconciledNow(s: State, k: Key, v: nat)
    requires At(s.reconciled, k) >= v
    ensures CanBeReconciled(s, k, v)
  {
    assert Leads(s, [], s) && Unannounced([], k);
  }

  // ---- Without workers ----

  lemma IdleActionStays(s: State, i: nat, action: Action)
    requires !CanWork(s) && Enabled(s, Act(i, action))
    ensures action.Skip? && !CanWork(ApplyAction(s, i, action))
    ensures ApplyAction(s, i, action).reconciled == s.reconciled
  {
    assert !s.workers[i].Active();
    var t := ApplyAction(s, i, Skip);
    assert s.workers[i].Launched? && s.cancelled;
    forall j | 0 <= j < |t.workers| ensures !t.workers[j].Active() {
      assert j != i ==> t.workers[j] == s.workers[j];
    }
  }

  lemma IdleStepStays(s: State, step: Step)
    requires !CanWork(s) && Enabled(s, step)
    ensures !CanWork(Apply(s, step)) && Apply(s, step).reconciled == s.reconciled
  {
    if step.Act? {
      IdleActionStays(s, step.i, step.action);
    }
  }

  lemma {:induction false} NothingWithoutWorkers(s: State, steps: seq<Step>, t: State)
    requires !CanWork(s) && Leads(s, steps, t)
    ensures t.reconciled == s.reconciled
    decreases |steps|
  {
    if steps != [] {
      IdleStepStays(s, steps[0]);
      NothingWithoutWorkers(Apply(s, steps[0]), steps[1..], t);
    }
  }

  // ---- How far a key is from being reconciled ----

  predicate Held(s: State, k: Key) {
    k in s.holder && IsWorker(s, s.holder[k])
  }

  function Stage(s: State, k: Key, v: nat): nat {
    if Held(s, k) then
      match s.workers[s.holder[k]]
      case Looked(_, _, seen) => if seen >= v then 1 else 8
      case Taken(_, _) => 2
      case Failed(_) => 7
      case Succeeded(_) => 7
      case _ => 6
    else if k in s.q.dirty then 3
    else if k in s.q.waiting then 4
    else 5
  }

  function Place(order: seq<Key>, k: Key): nat {
    if order == [] || order[0] == k then 0 else 1 + Place(order[1..], k)
  }

  /** The steps until some worker is in its loop. */
  function SetUp(s: State): nat {
    if SomeActive(s) then 0 else if s.phase.Syncing? then 2 else 1
  }

  predicate Closer(s: State, t: State, k: Key, v: nat) {
    || Stage(t, k, v) < Stage(s, k, v)
    || (Stage(t, k, v) == Stage(s, k, v) && CloserInStage(s, t, k))
  }

  predicate CloserInStage(s: State, t: State, k: Key) {
    || |t.pending| < |s.pending|
    || (|t.pending| == |s.pending| && Place(t.q.order, k) < Place(s.q.order, k))
    || (|t.pending| == |s.pending| && Place(t.q.order, k) == Place(s.q.order, k)
        && (SetUp(t) < SetUp(s) || (SetUp(t) == SetUp(s) && Ranks(t.workers) < Ranks(s.workers))))
  }

  /** Something is under way for the key, and there is or can be a worker. */
  predicate Underway(s: State, k: Key, v: nat) {
    !s.q.shuttingDown && At(s.version, k) == v && CanWork(s) && !Forgotten(s, k)
  }

  // ---- The holder goes on ----

  /** The worker at `i`, which holds the key, has come to `w`. */
  predicate HolderIsAt(s: State, t: State, k: Key, i: nat, w: Worker) {
    && k in t.holder && t.holder[k] == i && i < |t.workers| && t.workers[i] == w && w.Busy()
    && t.q.shuttingDown == s.q.shuttingDown && t.version == s.version
    && (k in s.q.dirty ==> k in t.q.dirty) && (k in s.q.waiting ==> k in t.q.waiting) && t.pending == s.pending
  }

  lemma HolderLooks(s: State, k: Key, i: nat)
    requires Proper(k) && k in s.holder && s.holder[k] == i && IsWorker(s, i) && s.workers[i].Taken?
    requires s.workers[i].key == k
    ensures Enabled(s, Act(i, Look))
    ensures HolderIsAt(s, ApplyLook(s, i), k, i, Looked(k, s.workers[i].late, At(s.version, k)))
  {}

  lemma HolderFails(s: State, k: Key, i: nat)
    requires k in s.holder && s.holder[k] == i && IsWorker(s, i) && s.workers[i].Looked? && s.workers[i].key == k
    ensures HolderIsAt(s, ApplyReconcile(s, i, false), k, i, Failed(k))
  {}

  lemma HolderSettles(s: State, k: Key, i: nat)
    requires k in s.holder && s.holder[k] == i && IsWorker(s, i) && !s.q.shuttingDown
    requires (s.workers[i].Succeeded? || s.workers[i].Failed?) && s.workers[i].key == k
    ensures HolderIsAt(s, ApplySettle(s, i), k, i, Settled(k))
    ensures s.workers[i].Failed? ==> k in ApplySettle(s, i).q.waiting
  {}

  lemma HolderHandsBack(s: State, k: Key, i: nat)
    requires k in s.holder && s.holder[k] == i && IsWorker(s, i) && s.workers[i] == Settled(k)
    ensures var t := ApplyHandBack(s, i);
      && k !in t.holder && i < |t.workers| && t.workers[i].Idle?
      && t.q.shuttingDown == s.q.shuttingDown && t.version == s.version
      && t.q.dirty == s.q.dirty && t.q.waiting == s.q.waiting && t.pending == s.pending
  {}

  /** The next step of the worker that holds the key, unless it can succeed at once. */
  function HolderAction(w: Worker): Action
    requires w.Busy()
  {
    match w
    case Taken(_, _) => Look
    case Looked(_, _, _) => Reconcile(false)
    case Settled(_) => HandBack
    case _ => Settle
  }

  /** With its holder where it is now, something is under way for the key. */
  lemma StillUnderway(s: State, t: State, k: Key, v: nat, i: nat, w: Worker)
    requires Underway(s, k, v) && HolderIsAt(s, t, k, i, w)
    requires w.Looked? || w.Failed? || k in t.q.dirty || k in t.q.waiting || InEvents(t.pending, k)
    ensures Underway(t, k, v) && Held(t, k) && t.workers[t.holder[k]] == w
  {
    assert t.workers[i].Active();
  }

  lemma LookGoesOn(s: State, k: Key, v: nat, i: nat)
    requires Underway(s, k, v) && Proper(k) && k in s.holder && s.holder[k] == i && IsWorker(s, i)
    requires s.workers[i].Taken? && s.workers[i].key == k
    ensures var step := Act(i, Look);
      Enabled(s, step) && Underway(Apply(s, step), k, v) && Stage(Apply(s, step), k, v) < Stage(s, k, v)
  {
    HolderLooks(s, k, i);
    StillUnderway(s, ApplyLook(s, i), k, v, i, Looked(k, s.workers[i].late, At(s.version, k)));
  }

  lemma FailGoesOn(s: State, k: Key, v: nat, i: nat)
    requires Underway(s, k, v) && k in s.holder && s.holder[k] == i && IsWorker(s, i)
    requires s.workers[i].Looked? && s.workers[i].key == k && Stage(s, k, v) != 1
    ensures var step := Act(i, Reconcile(false));
      Enabled(s, step) && Underway(Apply(s, step), k, v) && Stage(Apply(s, step), k, v) < Stage(s, k, v)
  {
    HolderFails(s, k, i);
    StillUnderway(s, ApplyReconcile(s, i, false), k, v, i, Failed(k));
  }

  lemma SettleGoesOn(s: State, k: Key, v: nat, i: nat)
    requires Underway(s, k, v) && k in s.holder && s.holder[k] == i && IsWorker(s, i)
    requires (s.workers[i].Succeeded? || s.workers[i].Failed?) && s.workers[i].key == k
    ensures var step := Act(i, Settle);
      Enabled(s, step) && Underway(Apply(s, step), k, v) && Stage(Apply(s, step), k, v) < Stage(s, k, v)
  {
    HolderSettles(s, k, i);
    StillUnderway(s, ApplySettle(s, i), k, v, i, Settled(k));
  }

  lemma HandBackGoesOn(s: State, k: Key, v: nat, i: nat)
    requires Underway(s, k, v) && k in s.holder && s.holder[k] == i && IsWorker(s, i) && s.workers[i] == Settled(k)
    ensures var step := Act(i, HandBack);
      Enabled(s, step) && Underway(Apply(s, step), k, v) && Stage(Apply(s, step), k, v) < Stage(s, k, v)
  {
    HolderHandsBack(s, k, i);
    assert ApplyHandBack(s, i).workers[i].Active();
  }

  lemma HolderGoesOn(s: State, k: Key, v: nat)
    requires Underway(s, k, v) && Proper(k) && HeldRight(s, k) && Held(s, k) && Stage(s, k, v) != 1
    ensures var step := Act(s.holder[k], HolderAction(s.workers[s.holder[k]]));
      && Enabled(s, step) && Underway(Apply(s, step), k, v) && Stage(Apply(s, step), k, v) < Stage(s, k, v)
  {
    var i := s.holder[k];
    match s.workers[i]
    case Taken(_, _) => LookGoesOn(s, k, v, i);
    case Looked(_, _, _) => FailGoesOn(s, k, v, i);
    case Settled(_) => HandBackGoesOn(s, k, v, i);
    case _ => SettleGoesOn(s, k, v, i);
  }

  // ---- The key gets to the queue ----

  lemma FireBringsIn(s: State, k: Key, v: nat)
    requires Underway(s, k, v) && KeyRight(s, k) && !Held(s, k) && k !in s.q.dirty && k in s.q.waiting
    ensures var t := Apply(s, Fire(k)); Underway(t, k, v) && Stage(t, k, v) < Stage(s, k, v)
  {}

  /** The first event announces the key, or a later one does. */
  lemma FirstOrLater(events: seq<Event>, k: Key)
    requires InEvents(events, k)
    ensures events != [] && ((events[0].key == k && Announces(events[0])) || InEvents(events[1..], k))
  {
    var e :| e in events && e.key == k && Announces(e);
    assert events == [events[0]] + events[1..];
    if events[0] != e {
      assert e in events[1..];
    }
  }

  lemma HandleAdds(q: Queue, e: Event, k: Key)
    requires !q.shuttingDown
    ensures var r := Handle(q, e);
      && (e.key == k && Announces(e) ==> k in r.dirty)
      && r.processing == q.processing && r.waiting == q.waiting && !r.shuttingDown
  {}

  lemma DeliverBringsIn(s: State, k: Key, v: nat)
    requires Underway(s, k, v) && HeldRight(s, k) && Stage(s, k, v) == 5
    ensures Enabled(s, Deliver) && Underway(Apply(s, Deliver), k, v) && Closer(s, Apply(s, Deliver), k, v)
  {
    FirstOrLater(s.pending, k);
    HandleAdds(s.q, s.pending[0], k);
    assert SomeActive(Apply(s, Deliver)) <==> SomeActive(s);
  }

  // ---- A worker gets to the key ----

  lemma LaunchSetsUp(s: State, k: Key, v: nat)
    requires Underway(s, k, v) && Stage(s, k, v) == 3 && !SomeActive(s) && s.phase.Syncing? && HeldRight(s, k)
    ensures Underway(Apply(s, Launch(1)), k, v) && Closer(s, Apply(s, Launch(1)), k, v)
  {
    var t := Apply(s, Launch(1));
    assert t.workers[0].Launched?;
    assert !Held(t, k);
  }

  lemma EnterSetsUp(s: State, k: Key, v: nat, i: nat)
    requires Underway(s, k, v) && Stage(s, k, v) == 3 && !SomeActive(s) && !s.phase.Syncing? && HeldRight(s, k)
    requires IsWorker(s, i) && s.workers[i].Launched?
    ensures Enabled(s, Act(i, Enter))
    ensures Underway(Apply(s, Act(i, Enter)), k, v) && Closer(s, Apply(s, Act(i, Enter)), k, v)
  {
    var t := Apply(s, Act(i, Enter));
    assert t.workers[i].Active();
    assert !Held(t, k);
  }

  lemma PlaceIn(order: seq<Key>, k: Key)
    requires k in order && order[0] != k
    ensures k in order[1..] && Place(order[1..], k) < Place(order, k)
  {
    assert order == [order[0]] + order[1..];
  }

  lemma TakeComesCloser(s: State, k: Key, v: nat, i: nat)
    requires Underway(s, k, v) && Stage(s, k, v) == 3 && HeldRight(s, k) && s.q.Valid()
    requires IsWorker(s, i) && s.workers[i].Idle?
    ensures Enabled(s, Act(i, Take))
    ensures Underway(ApplyTake(s, i), k, v) && Closer(s, ApplyTake(s, i), k, v)
  {
    var t := ApplyTake(s, i);
    assert k in s.q.order;
    assert t.workers[i].Active();
    if s.q.order[0] != k {
      PlaceIn(s.q.order, k);
      assert k in t.q.dirty && !Held(t, k);
    }
  }

  // ---- Busy workers get free ----

  /** What a worker does to get free of another key. */
  function FreeingAction(w: Worker): Action
    requires w.Busy()
  {
    match w
    case Taken(k, _) => if LookupKey(k).Some? then LookError else Reject
    case Looked(_, _, _) => Reconcile(false)
    case Settled(_) => HandBack
    case _ => Settle
  }

  /** The worker at `i` came further with another key; `k` is where it was. */
  predicate FreerThan(s: State, t: State, k: Key, i: nat) {
    && Further(s, t, i) && t.workers[i].Active() && t.pending == s.pending && t.version == s.version
    && k !in t.holder && k !in t.q.processing && s.q.order <= t.q.order
  }

  lemma ConcludeFrees(s: State, i: nat, ok: bool, k: Key)
    requires IsWorker(s, i) && s.workers[i].Reconciling() && k !in s.holder && k !in s.q.processing
    ensures FreerThan(s, Conclude(s, i, ok), k, i)
  {
    ConcludeWorks(s, i, ok);
  }

  lemma SettleFrees(s: State, i: nat, k: Key)
    requires Enabled(s, Act(i, Settle)) && k !in s.holder && k !in s.q.processing
    ensures FreerThan(s, ApplySettle(s, i), k, i)
  {
    SettleWorks(s, i);
  }

  lemma HandBackFrees(s: State, i: nat, k: Key)
    requires Enabled(s, Act(i, HandBack)) && k !in s.holder && k !in s.q.processing
    ensures FreerThan(s, ApplyHandBack(s, i), k, i)
  {
    HandBackWorks(s, i);
  }

  lemma FreeingFrees(s: State, i: nat, k: Key)
    requires IsWorker(s, i) && s.workers[i].Busy() && k !in s.holder && k !in s.q.processing
    ensures Enabled(s, Act(i, FreeingAction(s.workers[i])))
    ensures FreerThan(s, ApplyAction(s, i, FreeingAction(s.workers[i])), k, i)
  {
    match s.workers[i]
    case Taken(_, _) => ConcludeFrees(s, i, FreeingAction(s.workers[i]).Reject?, k);
    case Looked(_, _, _) => ConcludeFrees(s, i, false, k);
    case Settled(_) => HandBackFrees(s, i, k);
    case _ => SettleFrees(s, i, k);
  }

  lemma {:induction false} PlaceStays(order: seq<Key>, later: seq<Key>, k: Key)
    requires k in order && order <= later
    ensures Place(later, k) == Place(order, k)
  {
    if order[0] != k {
      assert order == [order[0]] + order[1..];
      PlaceStays(order[1..], later[1..], k);
    }
  }

  lemma FreerIsCloser(s: State, t: State, k: Key, v: nat, i: nat)
    requires Underway(s, k, v) && Stage(s, k, v) == 3 && k in s.q.order && FreerThan(s, t, k, i)
    requires IsWorker(s, i) && s.workers[i].Busy()
    ensures Underway(t, k, v) && Closer(s, t, k, v)
  {
    PlaceStays(s.q.order, t.q.order, k);
    RanksUpdate(s.workers, i, t.workers[i]);
    assert s.workers[i].Active();
  }

  lemma BusyWorkerComesCloser(s: State, k: Key, v: nat, i: nat)
    requires Underway(s, k, v) && Stage(s, k, v) == 3 && HeldRight(s, k) && s.q.Valid()
    requires IsWorker(s, i) && s.workers[i].Busy()
    ensures var step := Act(i, FreeingAction(s.workers[i]));
      Enabled(s, step) && Underway(Apply(s, step), k, v) && Closer(s, Apply(s, step), k, v)
  {
    assert k !in s.holder && k !in s.q.processing && k in s.q.order;
    FreeingFrees(s, i, k);
    FreerIsCloser(s, ApplyAction(s, i, FreeingAction(s.workers[i])), k, v, i);
  }

  // ---- Altogether ----

  /** A step that brings the key closer to being reconciled. */
  lemma CloserStep(s: State, k: Key, v: nat) returns (step: Step)
    requires Inv(s) && Underway(s, k, v) && Proper(k) && Stage(s, k, v) != 1
    ensures Enabled(s, step) && !AnnouncesKey(step, k)
    ensures Underway(Apply(s, step), k, v) && Closer(s, Apply(s, step), k, v)
  {
    assert KeyRight(s, k);
    if Held(s, k) {
      HolderGoesOn(s, k, v);
      return Act(s.holder[k], HolderAction(s.workers[s.holder[k]]));
    }
    if k in s.q.dirty {
      step := StepToKey(s, k, v);
      return;
    }
    if k in s.q.waiting {
      FireBringsIn(s, k, v);
      return Fire(k);
    }
    DeliverBringsIn(s, k, v);
    return Deliver;
  }

  lemma StepToKey(s: State, k: Key, v: nat) returns (step: Step)
    requires Inv(s) && KeyRight(s, k) && Underway(s, k, v) && Stage(s, k, v) == 3
    ensures Enabled(s, step) && !AnnouncesKey(step, k)
    ensures Underway(Apply(s, step), k, v) && Closer(s, Apply(s, step), k, v)
  {
    if i: nat :| i < |s.workers| && s.workers[i].Active() {
      if s.workers[i].Idle? {
        TakeComesCloser(s, k, v, i);
        return Act(i, Take);
      }
      BusyWorkerComesCloser(s, k, v, i);
      return Act(i, FreeingAction(s.workers[i]));
    }
    if s.phase.Syncing? {
      LaunchSetsUp(s, k, v);
      return Launch(1);
    }
    var j: nat :| j < |s.workers| && s.workers[j].Launched?;
    EnterSetsUp(s, k, v, j);
    return Act(j, Enter);
  }

  lemma SucceedsNow(s: State, k: Key, v: nat)
    requires KeyRight(s, k) && Held(s, k) && Stage(s, k, v) == 1
    ensures var step := Act(s.holder[k], Reconcile(true));
      Enabled(s, step) && At(Apply(s, step).reconciled, k) >= v
  {}

  lemma {:induction false} UnderwayIsReconciled(s: State, k: Key, v: nat)
    requires Inv(s) && Underway(s, k, v) && Proper(k)
    ensures CanBeReconciled(s, k, v)
    decreases Stage(s, k, v), |s.pending|, Place(s.q.order, k), SetUp(s), Ranks(s.workers)
  {
    if Stage(s, k, v) == 1 {
      assert KeyRight(s, k);
      SucceedsNow(s, k, v);
      var step := Act(s.holder[k], Reconcile(true));
      ReconciledNow(Apply(s, step), k, v);
      ReconciledBy(s, step, k, v);
    } else {
      var step := CloserStep(s, k, v);
      StepKeepsInv(s, step);
      UnderwayIsReconciled(Apply(s, step), k, v);
      ReconciledBy(s, step, k, v);
    }
  }

  /** Before shutdown, the newest state of a key in the cache can be reconciled without
      another event announcing it exactly if it has been, or there is or can be a
      worker, and an event for the key will be delivered, or it is dirty, or awaits a
      retry, or its holder may look it up or fail. */
  lemma ReconcilableExactly(s: State, k: Key)
    requires Reachable(s) && !s.q.shuttingDown && Proper(k)
    ensures CanBeReconciled(s, k, At(s.version, k)) <==>
      At(s.reconciled, k) == At(s.version, k) || (CanWork(s) && !Forgotten(s, k))
  {
    ReachableInv(s);
    assert KeyRight(s, k);
    if At(s.reconciled, k) == At(s.version, k) {
      ReconciledNow(s, k, At(s.version, k));
    } else if CanWork(s) && !Forgotten(s, k) {
      UnderwayIsReconciled(s, k, At(s.version, k));
    } else if CanBeReconciled(s, k, At(s.version, k)) {
      var steps, t :| Leads(s, steps, t) && Unannounced(steps, k) && At(t.reconciled, k) >= At(s.version, k);
      if !CanWork(s) {
        NothingWithoutWorkers(s, steps, t);
      } else {
        StaysForgotten(s, steps, t, k);
      }
    }
  }

  /** So a deletion that arrives as a tombstone, at any time before shutdown, can still
      be reconciled without another announcement exactly if there is or can be a worker
      and something was under way for the key already. */
  lemma TombstoneIsSavedExactly(s: State, k: Key)
    requires Reachable(s) && !s.q.shuttingDown && Proper(k)
    ensures var t := Apply(s, Change(Tombstone(k)));
      CanBeReconciled(t, k, At(t.version, k)) <==> CanWork(s) && !Forgotten(s, k)
  {
    var t := Apply(s, Change(Tombstone(k)));
    ReachableInv(s);
    assert KeyRight(s, k);
    ReachableOn(s, Change(Tombstone(k)));
    ReconcilableExactly(t, k);
    assert InEvents(t.pending, k) <==> InEvents(s.pending, k) by {
      if e :| e in t.pending && e.key == k && Announces(e) {
        assert e in s.pending;
      }
      if e :| e in s.pending && e.key == k && Announces(e) {
        assert e in t.pending;
      }
    }
    assert CanWork(t) <==> CanWork(s);
  }
}
