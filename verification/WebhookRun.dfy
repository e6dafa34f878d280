/** `Run` of the webhook server as a protocol: the select loop, the goroutines that
    serve and shut down, their wait group and unbuffered error channels, the watch
    goroutine and the two contexts. */
module WebhookRun {
  import opened Results

  datatype Err = Canceled | DeadlineExceeded | Listen(server: nat, message: string)

  /** The goroutine that serves: it listens, offers its error on the channel, and
      once the error is received closes the channel and leaves the wait group. */
  datatype Launch =
    | Listening
    | Offering(err: Err)
    | Received(err: Err)
    | ChannelClosed(err: Err)
    | Finished(err: Err)
  {
    predicate WasReceived() { Received? || ChannelClosed? || Finished? }
  }

  datatype Shutdown = NotStarted | Running | Over

  datatype Server = Server(launch: Launch, shutdown: Shutdown) {
    /** Goroutines of this server that the wait group still counts. */
    function Goroutines(): nat {
      (if launch.Finished? then 0 else 1) + (if shutdown.Running? then 1 else 0)
    }
  }

  const FRESH := Server(Listening, NotStarted)

  /** Where `Run` is: in its loop, behind it with the error to return, after
      cancelling the watch context, after its own `wg.Done`, or returned. No error
      stands for Go's nil. */
  datatype RunPhase =
    | InLoop
    | Left(err: Option<Err>)
    | WatchCancelled(err: Option<Err>)
    | WaitsForGroup(err: Option<Err>)
    | Returned(err: Option<Err>)
  {
    function Counted(): nat {
      if InLoop? || Left? || WatchCancelled? then 1 else 0
    }
  }

  datatype State = State(
    run: RunPhase,
    servers: seq<Server>,
    current: nat,
    waitGroup: int,
    ctxErr: Option<Err>,
    watchErr: Option<Err>,
    watchClosed: bool)

  const INITIAL := State(InLoop, [FRESH], 0, 2, None, None, false)

  datatype Step =
    | ContextDone(deadline: bool)             // the caller's context ends
    | WatchContextDone                        // the derived context follows
    | WatchStops                              // notifyChanges closes its channel
    | SelectContext                           // select: the context is done
    | SelectError                             // select: an error is received
    | SelectClosedError                       // select: the error channel is closed
    | SelectClosedWatch                       // select: the watch channel is closed
    | SelectChange                            // select: the TLS input has changed
    | ListenFails(i: nat, message: string)    // ListenAndServeTLS returns
    | CloseChannel(i: nat)                    // deferred close of the error channel
    | LaunchDone(i: nat)                      // deferred wg.Done
    | ShutdownDone(i: nat)                    // wg.Done of a shutdown goroutine
    | CancelWatches                           // deferred cancel of the watch context
    | RunDone                                 // deferred wg.Done of Run
    | WaitDone                                // deferred wg.Wait finds nobody left

  predicate Enabled(s: State, step: Step) {
    match step
    case ContextDone(_) => s.ctxErr.None?
    case WatchContextDone => s.ctxErr.Some? && s.watchErr.None?
    case WatchStops => s.watchErr.Some? && !s.watchClosed
    case SelectContext => s.run.InLoop? && s.ctxErr.Some?
    case SelectError => s.run.InLoop? && s.current < |s.servers| && s.servers[s.current].launch.Offering?
    case SelectClosedError =>
      s.run.InLoop? && s.current < |s.servers|
      && (s.servers[s.current].launch.ChannelClosed? || s.servers[s.current].launch.Finished?)
    case SelectClosedWatch => s.run.InLoop? && s.watchClosed
    case SelectChange => s.run.InLoop? && s.current < |s.servers| && !s.watchClosed
    case ListenFails(i, _) => i < |s.servers| && s.servers[i].launch.Listening?
    case CloseChannel(i) => i < |s.servers| && s.servers[i].launch.Received?
    case LaunchDone(i) => i < |s.servers| && s.servers[i].launch.ChannelClosed?
    case ShutdownDone(i) => i < |s.servers| && s.servers[i].shutdown.Running?
    case CancelWatches => s.run.Left?
    case RunDone => s.run.WatchCancelled?
    case WaitDone => s.run.WaitsForGroup? && s.waitGroup == 0
  }

  function SetLaunch(s: State, i: nat, launch: Launch): State
    requires i < |s.servers|
  {
    s.(servers := s.servers[i := s.servers[i].(launch := launch)])
  }

  function SetShutdown(s: State, i: nat, shutdown: Shutdown): State
    requires i < |s.servers|
  {
    s.(servers := s.servers[i := s.servers[i].(shutdown := shutdown)])
  }

  /** Start the shutdown of the current server, then launch its successor. */
  function Restart(s: State): State
    requires s.current < |s.servers|
  {
    var t := SetShutdown(s, s.current, Running);
    t.(servers := t.servers + [FRESH], current := |t.servers|, waitGroup := t.waitGroup + 1 + 1)
  }

  function Apply(s: State, step: Step): State
    requires Enabled(s, step)
  {
    match step
    case ContextDone(deadline) => s.(ctxErr := Some(if deadline then DeadlineExceeded else Canceled))
    case WatchContextDone => s.(watchErr := s.ctxErr)
    case WatchStops => s.(watchClosed := true)
    case SelectContext => s.(run := Left(s.ctxErr))
    case SelectError =>
      var err := s.servers[s.current].launch.err;
      SetLaunch(s, s.current, Received(err)).(run := Left(Some(err)))
    case SelectClosedError => s.(run := Left(None))
    case SelectClosedWatch => s.(run := Left(s.watchErr))
    case SelectChange => Restart(s)
    case ListenFails(i, message) => SetLaunch(s, i, Offering(Listen(i, message)))
    case CloseChannel(i) => SetLaunch(s, i, ChannelClosed(s.servers[i].launch.err))
    case LaunchDone(i) => SetLaunch(s, i, Finished(s.servers[i].launch.err)).(waitGroup := s.waitGroup - 1)
    case ShutdownDone(i) => SetShutdown(s, i, Over).(waitGroup := s.waitGroup - 1)
    case CancelWatches =>
      s.(run := WatchCancelled(s.run.err), watchErr := if s.watchErr.None? then Some(Canceled) else s.watchErr)
    case RunDone => s.(run := WaitsForGroup(s.run.err), waitGroup := s.waitGroup - 1)
    case WaitDone => s.(run := Returned(s.run.err))
  }

  /** The steps lead from `s` to `t`. */
  ghost predicate Leads(s: State, steps: seq<Step>, t: State)
    decreases |steps|
  {
    if steps == [] then t == s
    else Enabled(s, steps[0]) && Leads(Apply(s, steps[0]), steps[1..], t)
  }

  ghost predicate Reachable(s: State) {
    exists steps :: Leads(INITIAL, steps, s)
  }

  // ---- Counting goroutines ----

  function Goroutines(servers: seq<Server>): nat {
    if servers == [] then 0 else servers[0].Goroutines() + Goroutines(servers[1..])
  }

  lemma {:induction false} GoroutinesUpdate(servers: seq<Server>, i: nat, v: Server)
    requires i < |servers|
    ensures Goroutines(servers[i := v]) == Goroutines(servers) - servers[i].Goroutines() + v.Goroutines()
  {
    if i == 0 {
      assert servers[0 := v][1..] == servers[1..];
    } else {
      GoroutinesUpdate(servers[1..], i - 1, v);
      assert servers[i := v][1..] == servers[1..][i - 1 := v];
    }
  }

  lemma {:induction false} GoroutinesAppend(servers: seq<Server>, v: Server)
    ensures Goroutines(servers + [v]) == Goroutines(servers) + v.Goroutines()
  {
    if servers == [] {
      assert [v][1..] == [];
    } else {
      GoroutinesAppend(servers[1..], v);
      assert (servers + [v])[1..] == servers[1..] + [v];
    }
  }

  lemma {:induction false} NoGoroutines(servers: seq<Server>, i: nat)
    requires i < |servers| && Goroutines(servers) == 0
    ensures servers[i].launch.Finished? && !servers[i].shutdown.Running?
  {
    if i > 0 {
      NoGoroutines(servers[1..], i - 1);
    }
  }

  // ---- Invariant ----

  /** A superseded server has its shutdown started, and its error is never
      received; the current one has no shutdown, and its error is received only
      to leave the loop with it. */
  predicate ServerRight(s: State, i: nat) {
    i < |s.servers| ==>
      var v := s.servers[i];
      && (v.shutdown.NotStarted? <==> i == s.current)
      && (v.launch.WasReceived() ==> i == s.current && !s.run.InLoop? && s.run.err == Some(v.launch.err))
      && (!v.launch.Listening? ==> v.launch.err.Listen? && v.launch.err.server == i)
  }

  predicate ContextRight(s: State) {
    && (s.ctxErr.Some? ==> !s.ctxErr.value.Listen?)
    && (s.watchClosed ==> s.watchErr.Some?)
    && (s.run.InLoop? || s.run.Left? ==> s.watchErr.Some? ==> s.watchErr == s.ctxErr)
    && (s.run.WatchCancelled? || s.run.WaitsForGroup? || s.run.Returned? ==> s.watchErr.Some?)
  }

  predicate ErrorRight(s: State) {
    !s.run.InLoop? ==>
      && s.run.err.Some?
      && (s.run.err == s.ctxErr
          || (s.current < |s.servers| && s.servers[s.current].launch.WasReceived()
              && s.run.err.value == s.servers[s.current].launch.err))
  }

  ghost predicate Inv(s: State) {
    && s.current == |s.servers| - 1
    && s.waitGroup == s.run.Counted() + Goroutines(s.servers)
    && (s.run.Returned? ==> s.waitGroup == 0)
    && ContextRight(s)
    && ErrorRight(s)
    && (forall i: nat :: ServerRight(s, i))
  }
}
