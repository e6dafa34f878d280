/** What holds in every run of the webhook's `Run`. */
module WebhookRunProofs {
  import opened Results
  import opened WebhookRun

  lemma StepKeepsServer(s: State, step: Step, i: nat)
    requires Inv(s) && Enabled(s, step)
    ensures ServerRight(Apply(s, step), i)
  {
    assert ServerRight(s, i) && ServerRight(s, s.current);
  }

  lemma SetLaunchCount(s: State, i: nat, launch: Launch)
    requires i < |s.servers|
    ensures Goroutines(SetLaunch(s, i, launch).servers) == Goroutines(s.servers)
      + (if s.servers[i].launch.Finished? then 1 else 0) - (if launch.Finished? then 1 else 0)
  {
    GoroutinesUpdate(s.servers, i, s.servers[i].(launch := launch));
  }

  lemma SetShutdownCount(s: State, i: nat, shutdown: Shutdown)
    requires i < |s.servers|
    ensures Goroutines(SetShutdown(s, i, shutdown).servers) == Goroutines(s.servers)
      + (if shutdown.Running? then 1 else 0) - (if s.servers[i].shutdown.Running? then 1 else 0)
  {
    GoroutinesUpdate(s.servers, i, s.servers[i].(shutdown := shutdown));
  }

  lemma RestartCount(s: State)
    requires s.current < |s.servers| && s.servers[s.current].shutdown.NotStarted?
    ensures Goroutines(Restart(s).servers) == Goroutines(s.servers) + 2
  {
    SetShutdownCount(s, s.current, Running);
    GoroutinesAppend(SetShutdown(s, s.current, Running).servers, FRESH);
  }

  lemma StepKeepsCount(s: State, step: Step)
    requires Inv(s) && Enabled(s, step)
    ensures var t := Apply(s, step);
      t.waitGroup == t.run.Counted() + Goroutines(t.servers)
  {
    match step
    case SelectError => SetLaunchCount(s, s.current, Received(s.servers[s.current].launch.err));
    case SelectChange =>
      assert ServerRight(s, s.current);
      RestartCount(s);
    case ListenFails(i, message) => SetLaunchCount(s, i, Offering(Listen(i, message)));
    case CloseChannel(i) => SetLaunchCount(s, i, ChannelClosed(s.servers[i].launch.err));
    case LaunchDone(i) => SetLaunchCount(s, i, Finished(s.servers[i].launch.err));
    case ShutdownDone(i) => SetShutdownCount(s, i, Over);
    case _ =>
  }

  lemma StepKeepsInv(s: State, step: Step)
    requires Inv(s) && Enabled(s, step)
    ensures Inv(Apply(s, step))
  {
    StepKeepsCount(s, step);
    assert ServerRight(s, s.current);
    forall i: nat ensures ServerRight(Apply(s, step), i) {
      StepKeepsServer(s, step, i);
    }
  }

  lemma {:induction false} RunsKeepInv(s: State, steps: seq<Step>, t: State)
    requires Inv(s) && Leads(s, steps, t)
    ensures Inv(t)
    decreases |steps|
  {
    if steps != [] {
      StepKeepsInv(s, steps[0]);
      RunsKeepInv(Apply(s, steps[0]), steps[1..], t);
    }
  }

  lemma ReachableInv(s: State)
    requires Reachable(s)
    ensures Inv(s)
  {
    var steps :| Leads(INITIAL, steps, s);
    assert Goroutines(INITIAL.servers) == 1 + Goroutines(INITIAL.servers[1..]);
    RunsKeepInv(INITIAL, steps, s);
  }

  // ---- Main results ----

  /** The loop is left only with an error, which is the context's error or the
      listen error of the current server; in the loop that server's error channel is
      open, so no error is ever missing. */
  lemma LoopLeavesWithError(s: State)
    requires Reachable(s)
    ensures !Enabled(s, SelectClosedError)
    ensures s.current == |s.servers| - 1
    ensures s.run.InLoop? ==> s.servers[s.current].launch.Listening? || s.servers[s.current].launch.Offering?
    ensures !s.run.InLoop? ==>
              && s.run.err.Some?
              && (s.run.err == s.ctxErr || (s.run.err.value.Listen? && s.run.err.value.server == s.current))
  {
    ReachableInv(s);
    assert ServerRight(s, s.current);
  }

  /** Conservation: the wait group counts `Run` itself, the serving goroutines and
      the shutdown goroutines that are not done. Every superseded server has its
      one shutdown started, the current one has none, and no error of a superseded
      server is ever received. */
  lemma GoroutinesAreConserved(s: State, i: nat)
    requires Reachable(s) && i < |s.servers|
    ensures s.waitGroup == s.run.Counted() + Goroutines(s.servers)
    ensures s.servers[i].shutdown.NotStarted? <==> i == s.current
    ensures s.servers[i].launch.WasReceived() ==> i == s.current && !s.run.InLoop?
  {
    ReachableInv(s);
    assert ServerRight(s, i);
  }

  lemma InvReturns(s: State)
    requires Inv(s) && s.run.Returned?
    ensures |s.servers| == 1 && s.servers[0].launch.Finished?
    ensures s.run.err == Some(s.servers[0].launch.err) && s.servers[0].launch.err.Listen?
  {
    forall i: nat | i < |s.servers| ensures i == s.current && s.servers[i].launch.Finished? {
      NoGoroutines(s.servers, i);
      assert ServerRight(s, i);
    }
    assert ServerRight(s, 0);
  }

  /** `Run` returns only the listen error of its one and only server: after a
      restart, or when the loop ends by the context or the watch channel, some
      serving goroutine offers its error for ever and the final wait goes on. */
  lemma ReturnsOnlyListenError(s: State)
    requires Reachable(s) && s.run.Returned?
    ensures |s.servers| == 1 && s.servers[0].launch.Finished?
    ensures s.run.err == Some(s.servers[0].launch.err) && s.servers[0].launch.err.Listen?
  {
    ReachableInv(s);
    InvReturns(s);
  }

  lemma LeftStaysAtStep(s: State, step: Step)
    requires Inv(s) && Enabled(s, step) && !s.run.InLoop?
    ensures var t := Apply(s, step);
      && !t.run.InLoop? && |t.servers| == |s.servers|
      && (t.servers[0].launch.WasReceived() ==> s.servers[0].launch.WasReceived())
  {}

  /** Behind the loop no server is launched and no error is received. */
  lemma {:induction false} LeftStays(s: State, steps: seq<Step>, t: State)
    requires Inv(s) && !s.run.InLoop? && Leads(s, steps, t)
    ensures Inv(t) && |t.servers| == |s.servers|
    ensures t.servers[0].launch.WasReceived() ==> s.servers[0].launch.WasReceived()
    decreases |steps|
  {
    if steps != [] {
      StepKeepsInv(s, steps[0]);
      LeftStaysAtStep(s, steps[0]);
      LeftStays(Apply(s, steps[0]), steps[1..], t);
    }
  }

  lemma Prepend(s: State, step: Step, steps: seq<Step>, t: State)
    requires Enabled(s, step) && Leads(Apply(s, step), steps, t)
    ensures Leads(s, [step] + steps, t)
  {
    assert ([step] + steps)[1..] == steps;
  }

  /** The way from the received error to the return. */
  lemma {:induction false} WayOut(s: State) returns (steps: seq<Step>, t: State)
    requires Inv(s) && !s.run.InLoop? && |s.servers| == 1 && s.servers[0].launch.WasReceived()
    ensures Leads(s, steps, t) && t.run.Returned?
    decreases if s.servers[0].launch.Received? then 2 else if s.servers[0].launch.ChannelClosed? then 1 else 0,
      if s.run.Left? then 3 else if s.run.WatchCancelled? then 2 else if s.run.WaitsForGroup? then 1 else 0
  {
    assert ServerRight(s, 0);
    if s.run.Returned? {
      return [], s;
    }
    var step :=
      if s.servers[0].launch.Received? then CloseChannel(0)
      else if s.servers[0].launch.ChannelClosed? then LaunchDone(0)
      else if s.run.Left? then CancelWatches
      else if s.run.WatchCancelled? then RunDone
      else WaitDone;
    assert s.servers[1..] == [];
    assert Goroutines(s.servers) == s.servers[0].Goroutines();
    StepKeepsInv(s, step);
    var later;
    later, t := WayOut(Apply(s, step));
    Prepend(s, step, later, t);
    steps := [step] + later;
  }

  ghost predicate CanReturn(s: State) {
    exists steps, t :: Leads(s, steps, t) && t.run.Returned?
  }

  lemma ServersStayAtStep(s: State, step: Step)
    requires Enabled(s, step)
    ensures |s.servers| <= |Apply(s, step).servers|
  {}

  lemma {:induction false} ServersStay(s: State, steps: seq<Step>, t: State)
    requires Leads(s, steps, t)
    ensures |s.servers| <= |t.servers|
    decreases |steps|
  {
    if steps != [] {
      ServersStayAtStep(s, steps[0]);
      ServersStay(Apply(s, steps[0]), steps[1..], t);
    }
  }

  /** From the loop, if there was no restart: the server fails to listen, and its error
      is received. */
  lemma WayOutOfLoop(s: State) returns (steps: seq<Step>, t: State)
    requires Inv(s) && s.run.InLoop? && |s.servers| == 1
    ensures Leads(s, steps, t) && t.run.Returned?
  {
    assert ServerRight(s, 0);
    if s.servers[0].launch.Listening? {
      var next := Apply(s, ListenFails(0, ""));
      StepKeepsInv(s, ListenFails(0, ""));
      var later;
      later, t := ErrorOut(next);
      Prepend(s, ListenFails(0, ""), later, t);
      steps := [ListenFails(0, "")] + later;
    } else {
      steps, t := ErrorOut(s);
    }
  }

  lemma ErrorOut(s: State) returns (steps: seq<Step>, t: State)
    requires Inv(s) && s.run.InLoop? && |s.servers| == 1 && s.servers[0].launch.Offering?
    ensures Leads(s, steps, t) && t.run.Returned?
  {
    StepKeepsInv(s, SelectError);
    var later;
    later, t := WayOut(Apply(s, SelectError));
    Prepend(s, SelectError, later, t);
    steps := [SelectError] + later;
  }

  /** `Run` can still return exactly if no server was ever restarted, and it is in its
      loop or has received the server's error. So one restart already loses the return,
      and so does leaving the loop in any other way. */
  lemma CanReturnExactly(s: State)
    requires Reachable(s)
    ensures CanReturn(s) <==> |s.servers| == 1 && (s.run.InLoop? || s.servers[0].launch.WasReceived())
  {
    ReachableInv(s);
    if CanReturn(s) {
      var steps, t :| Leads(s, steps, t) && t.run.Returned?;
      RunsKeepInv(s, steps, t);
      InvReturns(t);
      ServersStay(s, steps, t);
      if !s.run.InLoop? {
        LeftStays(s, steps, t);
      }
    }
    if |s.servers| == 1 && s.run.InLoop? {
      var steps, t := WayOutOfLoop(s);
      assert CanReturn(s);
    }
    if |s.servers| == 1 && !s.run.InLoop? && s.servers[0].launch.WasReceived() {
      var steps, t := WayOut(s);
      assert CanReturn(s);
    }
  }

  /** The other side is reached at once: the context is cancelled, and `Run` leaves its
      loop for it. From then on no run returns, though the error to return is there. */
  lemma CancelledRunIsStuck() returns (s: State)
    ensures Reachable(s) && s.run == Left(Some(Canceled)) && !CanReturn(s)
  {
    var a := Apply(INITIAL, ContextDone(false));
    s := Apply(a, SelectContext);
    assert Leads(s, [], s);
    Prepend(a, SelectContext, [], s);
    Prepend(INITIAL, ContextDone(false), [SelectContext] + [], s);
    CanReturnExactly(s);
  }

  // ---- Contexts ----

  lemma ErrorStaysAtStep(s: State, step: Step)
    requires Enabled(s, step)
    ensures s.ctxErr.Some? ==> Apply(s, step).ctxErr == s.ctxErr
    ensures s.watchErr.Some? ==> Apply(s, step).watchErr == s.watchErr
  {}

  /** The error of a context that has ended never changes, also that of the watch
      context, for which the caller's context and `Run` compete. */
  lemma {:induction false} ErrorStays(s: State, steps: seq<Step>, t: State)
    requires Leads(s, steps, t)
    ensures s.ctxErr.Some? ==> t.ctxErr == s.ctxErr
    ensures s.watchErr.Some? ==> t.watchErr == s.watchErr
    decreases |steps|
  {
    if steps != [] {
      ErrorStaysAtStep(s, steps[0]);
      ErrorStays(Apply(s, steps[0]), steps[1..], t);
    }
  }

  /** The watch goroutine is not lost: in the loop it may only stop for the caller's
      context, and behind the deferred cancel it has stopped or can. */
  lemma WatchEnds(s: State)
    requires Reachable(s)
    ensures s.run.InLoop? && (s.watchClosed || Enabled(s, WatchStops)) ==>
              s.ctxErr.Some? && s.watchErr == s.ctxErr
    ensures s.run.WatchCancelled? || s.run.WaitsForGroup? || s.run.Returned? ==>
              s.watchClosed || Enabled(s, WatchStops)
  {
    ReachableInv(s);
  }

  lemma ClosedAtStep(s: State, step: Step)
    requires Enabled(s, step) && s.watchClosed
    ensures Apply(s, step).watchClosed && |Apply(s, step).servers| == |s.servers|
  {}

  /** A closed watch channel stays closed, and no server is restarted any more. */
  lemma {:induction false} ClosedWatchEndsRestarts(s: State, steps: seq<Step>, t: State)
    requires s.watchClosed && Leads(s, steps, t)
    ensures t.watchClosed && |t.servers| == |s.servers|
    decreases |steps|
  {
    if steps != [] {
      ClosedAtStep(s, steps[0]);
      ClosedWatchEndsRestarts(Apply(s, steps[0]), steps[1..], t);
    }
  }

  /** Once the caller's context has ended, the loop can also be left through the watch
      channel, with the same error. */
  lemma {:induction false} LeavesByWatch(s: State) returns (steps: seq<Step>, t: State)
    requires Inv(s) && s.run.InLoop? && s.ctxErr.Some?
    ensures Leads(s, steps, t) && SelectContext !in steps && t.run == Left(s.ctxErr)
    decreases s.watchErr.None?, !s.watchClosed
  {
    if s.watchClosed {
      t := Apply(s, SelectClosedWatch);
      assert Leads(t, [], t);
      Prepend(s, SelectClosedWatch, [], t);
      return [SelectClosedWatch] + [], t;
    }
    var step := if s.watchErr.None? then WatchContextDone else WatchStops;
    StepKeepsInv(s, step);
    var later;
    later, t := LeavesByWatch(Apply(s, step));
    Prepend(s, step, later, t);
    steps := [step] + later;
  }

  // ---- Where the error comes from ----

  /** The error that a server's goroutine offers or offered is the one with which its
      listening ended in the run, and the context's tells how it ended in the run. */
  ghost predicate ErrorTold(steps: seq<Step>, s: State) {
    && (forall i :: 0 <= i < |s.servers| && !s.servers[i].launch.Listening? ==>
          exists message ::
            && ListenFails(i, message) in steps
            && s.servers[i].launch.err == Listen(i, message))
    && (s.ctxErr == None
        || (s.ctxErr == Some(Canceled) && ContextDone(false) in steps)
        || (s.ctxErr == Some(DeadlineExceeded) && ContextDone(true) in steps))
  }

  lemma ContextToldAtStep(steps: seq<Step>, s: State, step: Step)
    requires ErrorTold(steps, s) && Enabled(s, step)
    ensures var t := Apply(s, step);
      || t.ctxErr == None
      || (t.ctxErr == Some(Canceled) && ContextDone(false) in steps + [step])
      || (t.ctxErr == Some(DeadlineExceeded) && ContextDone(true) in steps + [step])
  {
    ErrorStaysAtStep(s, step);
    if s.ctxErr.None? && step.ContextDone? {
      assert step == ContextDone(false) || step == ContextDone(true);
      assert step in steps + [step];
    }
  }

  lemma ErrorToldAtStep(steps: seq<Step>, s: State, step: Step)
    requires ErrorTold(steps, s) && Enabled(s, step)
    ensures ErrorTold(steps + [step], Apply(s, step))
  {
    var t := Apply(s, step);
    ContextToldAtStep(steps, s, step);
    forall i | 0 <= i < |t.servers| && !t.servers[i].launch.Listening?
      ensures exists message ::
                ListenFails(i, message) in steps + [step] && t.servers[i].launch.err == Listen(i, message)
    {
      if step.ListenFails? && step.i == i {
        assert ListenFails(i, step.message) in steps + [step];
      } else {
        assert i < |s.servers| && !s.servers[i].launch.Listening? && t.servers[i].launch.err == s.servers[i].launch.err;
        var message :| ListenFails(i, message) in steps && s.servers[i].launch.err == Listen(i, message);
        assert ListenFails(i, message) in steps + [step];
      }
    }
  }

  lemma {:induction false} ErrorToldInRuns(before: seq<Step>, s: State, steps: seq<Step>, t: State)
    requires ErrorTold(before, s) && Leads(s, steps, t)
    ensures ErrorTold(before + steps, t)
    decreases |steps|
  {
    if steps == [] {
      assert before + [] == before;
    } else {
      ErrorToldAtStep(before, s, steps[0]);
      ErrorToldInRuns(before + [steps[0]], Apply(s, steps[0]), steps[1..], t);
      assert before + [steps[0]] + steps[1..] == before + steps;
    }
  }

  /** In every run that has left the loop, the error to return is that of the end of the
      caller's context in the run, or of a failure of the current server to listen. */
  lemma LeavesWithErrorOfRun(steps: seq<Step>, s: State)
    requires Leads(INITIAL, steps, s) && !s.run.InLoop?
    ensures
      || (s.run.err == Some(Canceled) && ContextDone(false) in steps)
      || (s.run.err == Some(DeadlineExceeded) && ContextDone(true) in steps)
      || (exists message :: ListenFails(s.current, message) in steps && s.run.err == Some(Listen(s.current, message)))
  {
    assert Reachable(s);
    ReachableInv(s);
    ErrorToldInRuns([], INITIAL, steps, s);
    assert [] + steps == steps;
  }

  /** In every run that returns, the first and only server failed to listen, and the
      error returned is that failure's. */
  lemma ReturnsTheListenError(steps: seq<Step>, s: State)
    requires Leads(INITIAL, steps, s) && s.run.Returned?
    ensures |s.servers| == 1
    ensures exists message :: ListenFails(0, message) in steps && s.run.err == Some(Listen(0, message))
  {
    assert Reachable(s);
    ReachableInv(s);
    InvReturns(s);
    ErrorToldInRuns([], INITIAL, steps, s);
    assert [] + steps == steps;
  }
}
