/** The generic controller as a protocol: an informer that changes a cache and
    sends events, handlers that feed the work queue, workers that take keys,
    reconcile and hand them back, and the shutdown that drains the queue. A run is
    any interleaving of the steps below. */
module ControllerProtocol {
  import opened Results
  import opened Keys
  import opened WorkQueue

  // ---- Events and handlers ----

  /** What the informer tells the handlers. A tombstone is the delete event of an
      object whose final state the informer has missed. */
  datatype Event =
    | Added(key: Key)
    | Updated(key: Key, oldVersion: string, newVersion: string)
    | Deleted(key: Key)
    | Tombstone(key: Key)

  /** The event makes a handler enqueue its key. An update within one resource
      version is skipped; for a tombstone `MetaNamespaceKeyFunc` fails. */
  predicate Announces(e: Event) {
    match e
    case Updated(_, oldVersion, newVersion) => oldVersion != newVersion
    case Tombstone(_) => false
    case _ => true
  }

  function Handle(q: Queue, e: Event): Queue {
    if Announces(e) then q.Add(e.key) else q
  }

  // ---- States ----

  /** Where a worker's goroutine is. `late` tells that the key was taken after the
      queue began to shut down; `seen` is the cache version that was looked up. */
  datatype Worker =
    | Launched
    | Idle
    | Taken(key: Key, late: bool)
    | Looked(key: Key, late: bool, seen: nat)
    | Succeeded(key: Key)
    | Failed(key: Key)
    | Settled(key: Key)
    | Exited
  {
    predicate Busy() { Taken? || Looked? || Succeeded? || Failed? || Settled? }
    predicate Active() { Idle? || Busy() }
    predicate Reconciling() { Taken? || Looked? }
  }

  datatype Phase = Syncing | Working | Draining | Joining | Returned | GaveUp

  /** Besides the controller's own state, a state records: the number of changes
      of each cache entry (`version`), the last one that an event announces
      (`announced`), the version that the key's last successful reconcile looked
      up (`reconciled`), failures in a row (`streak`), who holds a key
      (`holder`), how often it was taken and handed back, whether any worker ever
      came to `runWorker`, the keys dirty at shutdown (`owed`), and those
      reconciled after being taken since (`served`). */
  datatype State = State(
    phase: Phase,
    cancelled: bool,
    workers: seq<Worker>,
    q: Queue,
    pending: seq<Event>,
    version: map<Key, nat>,
    announced: map<Key, nat>,
    reconciled: map<Key, nat>,
    streak: map<Key, nat>,
    holder: map<Key, nat>,
    taken: map<Key, nat>,
    handedBack: map<Key, nat>,
    entered: bool,
    owed: set<Key>,
    served: set<Key>)

  const INITIAL :=
    State(Syncing, false, [], EMPTY, [], map[], map[], map[], map[], map[], map[], map[], false, {}, {})

  // ---- Steps ----

  datatype Action =
    | Enter                // wait.Until calls runWorker
    | Skip                 // wait.Until finds the context done
    | Take                 // queue.Get hands out a key
    | Leave                // queue.Get reports the shutdown
    | Look                 // lister.Get: an object or not found
    | LookError            // lister.Get: any other error
    | Reject               // SplitMetaNamespaceKey fails
    | Reconcile(ok: bool)  // the reconciler returns
    | Settle               // AddRateLimited or Forget
    | HandBack             // queue.Done

  datatype Step =
    | Change(event: Event)            // the informer updates the cache
    | Deliver                         // a handler runs
    | Fire(key: Key)                  // a back-off delay ends
    | Cancel                          // the caller cancels the context
    | Launch(count: nat)              // the cache has synced: start the workers
    | GiveUp                          // the cache did not sync
    | BeginShutDown                   // ShutDownWithDrain marks the queue
    | Drained                         // ShutDownWithDrain sees no key processing
    | Join                            // the wait group is empty: Run returns
    | Act(i: nat, action: Action)     // a worker goes on

  predicate IsWorker(s: State, i: nat) {
    i < |s.workers|
  }

  predicate CanAct(s: State, w: Worker, action: Action) {
    match action
    case Enter => w.Launched? && !s.cancelled
    case Skip => w.Launched? && s.cancelled
    case Take => w.Idle? && s.q.order != []
    case Leave => w.Idle? && s.q.order == [] && s.q.shuttingDown
    case Look => w.Taken? && LookupKey(w.key).Some?
    case LookError => w.Taken? && LookupKey(w.key).Some?
    case Reject => w.Taken? && LookupKey(w.key).None?
    case Reconcile(_) => w.Looked?
    case Settle => w.Succeeded? || w.Failed?
    case HandBack => w.Settled?
  }

  predicate Enabled(s: State, step: Step) {
    match step
    case Change(_) => true
    case Deliver => s.pending != []
    case Fire(k) => k in s.q.waiting
    case Cancel => true
    case Launch(n) => s.phase.Syncing? && n > 0
    case GiveUp => s.phase.Syncing?
    case BeginShutDown => s.phase.Working? && s.cancelled
    case Drained => s.phase.Draining? && s.q.processing == {}
    case Join => s.phase.Joining? && forall i :: 0 <= i < |s.workers| ==> s.workers[i].Exited?
    case Act(i, action) => IsWorker(s, i) && CanAct(s, s.workers[i], action)
  }

  function Bump(m: map<Key, nat>, k: Key): map<Key, nat> {
    m[k := At(m, k) + 1]
  }

  function Apply(s: State, step: Step): State
    requires Enabled(s, step)
  {
    match step
    case Change(e) => ApplyChange(s, e)
    case Deliver => s.(pending := s.pending[1..], q := Handle(s.q, s.pending[0]))
    case Fire(k) => s.(q := s.q.Fire(k))
    case Cancel => s.(cancelled := true)
    case Launch(n) => s.(phase := Working, workers := seq(n, _ => Launched))
    case GiveUp => s.(phase := GaveUp)
    case BeginShutDown => s.(phase := Draining, q := s.q.ShutDown(), owed := s.q.dirty)
    case Drained => s.(phase := Joining)
    case Join => s.(phase := Returned)
    case Act(i, action) => ApplyAction(s, i, action)
  }

  function ApplyAction(s: State, i: nat, action: Action): State
    requires IsWorker(s, i) && CanAct(s, s.workers[i], action)
  {
    match action
    case Enter => s.(workers := s.workers[i := Idle], entered := true)
    case Skip => s.(workers := s.workers[i := Exited])
    case Take => ApplyTake(s, i)
    case Leave => s.(workers := s.workers[i := Exited])
    case Look => ApplyLook(s, i)
    case LookError => Conclude(s, i, false)
    case Reject => Conclude(s, i, true)
    case Reconcile(ok) => ApplyReconcile(s, i, ok)
    case Settle => ApplySettle(s, i)
    case HandBack => ApplyHandBack(s, i)
  }

  function ApplyChange(s: State, e: Event): State {
    var version := Bump(s.version, e.key);
    s.(version := version,
       announced := if Announces(e) then s.announced[e.key := version[e.key]] else s.announced,
       pending := s.pending + [e])
  }

  function ApplyTake(s: State, i: nat): State
    requires Enabled(s, Act(i, Take))
  {
    var k := s.q.order[0];
    s.(q := s.q.Get(),
       workers := s.workers[i := Taken(k, s.q.shuttingDown)],
       holder := s.holder[k := i],
       taken := Bump(s.taken, k))
  }

  function ApplyLook(s: State, i: nat): State
    requires Enabled(s, Act(i, Look))
  {
    var w := s.workers[i];
    s.(workers := s.workers[i := Looked(w.key, w.late, At(s.version, LookupKey(w.key).value))])
  }

  /** `reconcile` returns. */
  function Conclude(s: State, i: nat, ok: bool): State
    requires IsWorker(s, i) && s.workers[i].Reconciling()
  {
    var w := s.workers[i];
    s.(workers := s.workers[i := if ok then Succeeded(w.key) else Failed(w.key)],
       streak := if ok then s.streak - {w.key} else Bump(s.streak, w.key),
       served := if w.late then s.served + {w.key} else s.served)
  }

  function ApplyReconcile(s: State, i: nat, ok: bool): State
    requires Enabled(s, Act(i, Reconcile(ok)))
  {
    var w := s.workers[i];
    var r := Conclude(s, i, ok);
    if ok then r.(reconciled := s.reconciled[w.key := w.seen]) else r
  }

  function ApplySettle(s: State, i: nat): State
    requires Enabled(s, Act(i, Settle))
  {
    var w := s.workers[i];
    s.(workers := s.workers[i := Settled(w.key)],
       q := if w.Failed? then s.q.AddRateLimited(w.key) else s.q.Forget(w.key))
  }

  function ApplyHandBack(s: State, i: nat): State
    requires Enabled(s, Act(i, HandBack))
  {
    var k := s.workers[i].key;
    s.(workers := s.workers[i := Idle], q := s.q.Done(k), holder := s.holder - {k},
       handedBack := Bump(s.handedBack, k))
  }

  // ---- Runs ----

  /** The steps lead from `s` to `t`. */
  ghost predicate Leads(s: State, steps: seq<Step>, t: State)
    decreases |steps|
  {
    if steps == [] then t == s
    else Enabled(s, steps[0]) && Leads(Apply(s, steps[0]), steps[1..], t)
  }

  ghost predicate Reachable(s: State) {
    exists steps :: Leads(INITIAL, steps, s)
  }

  lemma LeadsBy(s: State, step: Step, steps: seq<Step>, t: State)
    requires Enabled(s, step) && Leads(Apply(s, step), steps, t)
    ensures Leads(s, [step] + steps, t)
  {
    assert ([step] + steps)[1..] == steps;
  }

  lemma {:induction false} LeadsOn(s: State, steps: seq<Step>, t: State, step: Step)
    requires Leads(s, steps, t) && Enabled(t, step)
    ensures Leads(s, steps + [step], Apply(t, step))
    decreases |steps|
  {
    if steps == [] {
      assert [step][1..] == [];
      assert [] + [step] == [step];
    } else {
      LeadsOn(Apply(s, steps[0]), steps[1..], t, step);
      assert (steps + [step])[1..] == steps[1..] + [step];
    }
  }

  /** A step from a reachable state leads to one. */
  lemma ReachableOn(s: State, step: Step)
    requires Reachable(s) && Enabled(s, step)
    ensures Reachable(Apply(s, step))
  {
    var steps :| Leads(INITIAL, steps, s);
    LeadsOn(INITIAL, steps, s, step);
  }

  lemma InitialIsReachable()
    ensures Reachable(INITIAL)
  {
    assert Leads(INITIAL, [], INITIAL);
  }

  // ---- Invariants, key by key and worker by worker ----

  /** Who holds the key is known, and nobody else holds it. */
  predicate HeldRight(s: State, k: Key) {
    && (k in s.q.processing <==> k in s.holder)
    && (k in s.holder ==> IsWorker(s, s.holder[k]) && s.workers[s.holder[k]].Busy() && s.workers[s.holder[k]].key == k)
    && At(s.taken, k) == At(s.handedBack, k) + (if k in s.q.processing then 1 else 0)
  }

  predicate WorkerRight(s: State, i: nat) {
    IsWorker(s, i) ==>
      var w := s.workers[i];
      && (w.Busy() ==> w.key in s.holder && s.holder[w.key] == i)
      && (w.Reconciling() && w.late ==> s.q.shuttingDown)
      && (w.Active() ==> s.entered)
  }

  /** The limiter's count is the number of failures in a row, up to the call that
      the worker holding the key is about to make. */
  predicate CountRight(s: State, k: Key) {
    At(s.streak, k) ==
      if k !in s.holder || !IsWorker(s, s.holder[k]) then At(s.q.failures, k)
      else match s.workers[s.holder[k]]
        case Succeeded(_) => 0
        case Failed(_) => At(s.q.failures, k) + 1
        case _ => At(s.q.failures, k)
  }

  predicate InEvents(events: seq<Event>, k: Key) {
    exists e :: e in events && e.key == k && Announces(e)
  }

  /** The holder of the key will yet look at the cache, has seen the announced
      change, or will have the key retried. */
  predicate HolderCares(s: State, k: Key) {
    && k in s.holder && IsWorker(s, s.holder[k])
    && var w := s.workers[s.holder[k]];
       w.Taken? || (w.Looked? && w.seen >= At(s.announced, k)) || w.Failed?
  }

  predicate Covered(s: State, k: Key) {
    InEvents(s.pending, k) || k in s.q.dirty || k in s.q.waiting || HolderCares(s, k)
  }

  /** The versions of a key are in order: the reconciled one is not newer than
      the one that is being reconciled, nor that than the cache's. */
  predicate VersionsInOrder(s: State, k: Key) {
    && At(s.announced, k) <= At(s.version, k)
    && At(s.reconciled, k) <= At(s.version, k)
    && (k in s.holder && IsWorker(s, s.holder[k]) && s.workers[s.holder[k]].Looked? ==>
          At(s.reconciled, k) <= s.workers[s.holder[k]].seen <= At(s.version, k))
  }

  predicate NotLost(s: State, k: Key) {
    Proper(k) ==>
      && VersionsInOrder(s, k)
      && (!s.q.shuttingDown && At(s.reconciled, k) < At(s.announced, k) ==> Covered(s, k))
  }

  /** A key dirty at shutdown is served, or still to be taken, or being served. */
  predicate DrainRight(s: State, k: Key) {
    k in s.owed ==>
      || k in s.served || k in s.q.dirty
      || (k in s.holder && IsWorker(s, s.holder[k])
          && s.workers[s.holder[k]].Reconciling() && s.workers[s.holder[k]].late)
  }

  predicate NoneActive(s: State) {
    forall i :: 0 <= i < |s.workers| ==> !s.workers[i].Active()
  }

  predicate PhaseRight(s: State) {
    && (s.phase in {Draining, Joining, Returned} <==> s.q.shuttingDown)
    && (s.q.shuttingDown ==> s.cancelled)
    && (s.phase in {Syncing, GaveUp} ==> s.workers == [])
    && (s.phase.Returned? ==> forall i :: 0 <= i < |s.workers| ==> s.workers[i].Exited?)
    && (!s.entered ==> s.served == {} && (s.q.shuttingDown ==> s.q.dirty == s.owed))
    && (!s.q.shuttingDown ==> s.owed == {})
  }

  /** The last worker to leave leaves an empty queue. */
  predicate LeftRight(s: State) {
    s.entered && NoneActive(s) ==> s.q.shuttingDown && s.q.order == []
  }

  predicate KeyRight(s: State, k: Key) {
    HeldRight(s, k) && CountRight(s, k) && NotLost(s, k) && DrainRight(s, k)
  }

  ghost predicate Inv(s: State) {
    && s.q.Valid()
    && PhaseRight(s) && LeftRight(s)
    && (forall i: nat :: WorkerRight(s, i))
    && (forall k: Key :: KeyRight(s, k))
  }
}
