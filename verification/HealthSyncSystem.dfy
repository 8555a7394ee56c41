/** health-sync as a whole: its event loop, the dataplane monitor beside it, and the
    signals that both of them wait for. */
module HealthSyncSystem {
  import opened Prelude
  import opened TaskMetadata
  import opened HealthChecks
  import opened HealthSync
  import opened HealthSyncCommand
  import opened HealthSyncRuns

  /** Why the monitor ended: the context was cancelled before SIGTERM, or while
      polling, or the dataplane has stopped. */
  datatype Reason = CancelledEarly | CancelledPolling | DataplaneStopped

  datatype MonitorPhase = Subscribing | AwaitingSigterm | PollingDataplane | MonitorDone(why: Reason)

  /** The two goroutines, and the one-place buffers of the channels on which each of
      them hears of SIGTERM. The loop starts when it is ready. */
  datatype System = System(loop: Loop, ready: bool, mainPending: bool, monitor: MonitorPhase, monitorPending: bool)

  datatype SystemEvent =
    | SigtermArrives
    | SetupDone
    | SetupFails
    | Main(event: Event)
    | MonitorSubscribes
    | MonitorSigterm
    | MonitorPoll(meta: Option<TaskMeta>)
    | MonitorCancelled

  predicate Enabled(sys: System, e: SystemEvent) {
    match e
    case SigtermArrives => true
    case SetupDone => !sys.ready && sys.loop.returned.None?
    case SetupFails => !sys.ready && sys.loop.returned.None?
    case Main(event) =>
      && sys.ready && sys.loop.returned.None?
      && (event.Sigterm? ==> sys.mainPending)
      // The monitor's channel can be received from only once it is closed.
      && (event.DataplaneDone? ==> sys.monitor.MonitorDone?)
    case MonitorSubscribes => sys.monitor.Subscribing?
    case MonitorSigterm => sys.monitor.AwaitingSigterm? && sys.monitorPending
    case MonitorPoll(_) => sys.monitor.PollingDataplane?
    // The context is cancelled when realRun has returned.
    case MonitorCancelled => sys.loop.returned.Some? && (sys.monitor.AwaitingSigterm? || sys.monitor.PollingDataplane?)
  }

  function SystemStep(ok: Oracle, cfg: Config, sys: System, e: SystemEvent): System {
    match e
    // realRun subscribes before anything else, the monitor when it gets to it.
    case SigtermArrives =>
      sys.(mainPending := true, monitorPending := sys.monitorPending || sys.monitor.AwaitingSigterm?)
    case SetupDone => sys.(ready := true)
    case SetupFails => sys.(loop := sys.loop.(returned := Some(true)))
    case Main(event) =>
      sys.(loop := LoopStep(ok, cfg, sys.loop, event), mainPending := sys.mainPending && !event.Sigterm?)
    case MonitorSubscribes => sys.(monitor := AwaitingSigterm)
    case MonitorSigterm => sys.(monitor := PollingDataplane, monitorPending := false)
    case MonitorPoll(meta) =>
      if meta.Some? && ContainerStopped(meta.value, DATAPLANE)
      then sys.(monitor := MonitorDone(DataplaneStopped))
      else sys
    case MonitorCancelled =>
      sys.(monitor := MonitorDone(if sys.monitor.AwaitingSigterm? then CancelledEarly else CancelledPolling))
  }

  function SystemStart(cfg: Config): System {
    System(LoopStart(cfg), false, false, Subscribing, false)
  }

  function SystemRun(ok: Oracle, cfg: Config, events: seq<SystemEvent>): System {
    if events == [] then SystemStart(cfg)
    else SystemStep(ok, cfg, SystemRun(ok, cfg, events[..|events| - 1]), events[|events| - 1])
  }

  /** Every event happens when it can. */
  predicate Possible(ok: Oracle, cfg: Config, events: seq<SystemEvent>) {
    events != [] ==>
      && Possible(ok, cfg, events[..|events| - 1])
      && Enabled(SystemRun(ok, cfg, events[..|events| - 1]), events[|events| - 1])
  }

  // The monitor

  /** The monitor heard of SIGTERM and later saw every dataplane container stopped. */
  predicate DataplaneSeenStopped(events: seq<SystemEvent>) {
    exists i, j :: 0 <= i < j < |events| && events[i] == MonitorSigterm && SeesStopped(events[j])
  }

  predicate SeesStopped(e: SystemEvent) {
    e.MonitorPoll? && e.meta.Some? && ContainerStopped(e.meta.value, DATAPLANE)
  }

  lemma SeenSnoc(events: seq<SystemEvent>, e: SystemEvent)
    ensures DataplaneSeenStopped(events + [e]) <==>
      DataplaneSeenStopped(events) || (MonitorSigterm in events && SeesStopped(e))
  {
    var longer := events + [e];
    if DataplaneSeenStopped(events) {
      var i, j :| 0 <= i < j < |events| && events[i] == MonitorSigterm && SeesStopped(events[j]);
      assert longer[i] == MonitorSigterm && SeesStopped(longer[j]);
    }
    if MonitorSigterm in events && SeesStopped(e) {
      var i :| 0 <= i < |events| && events[i] == MonitorSigterm;
      assert longer[i] == MonitorSigterm && SeesStopped(longer[|events|]);
    }
    if DataplaneSeenStopped(longer) {
      var i, j :| 0 <= i < j < |longer| && longer[i] == MonitorSigterm && SeesStopped(longer[j]);
      assert events[i] == MonitorSigterm;
      assert j < |events| ==> SeesStopped(events[j]);
    }
  }

  predicate Heard(m: MonitorPhase) {
    m.PollingDataplane? || (m.MonitorDone? && m.why != CancelledEarly)
  }

  lemma MonitorMoves(ok: Oracle, cfg: Config, sys: System, e: SystemEvent)
    requires Enabled(sys, e)
    ensures var sys' := SystemStep(ok, cfg, sys, e);
      && (Heard(sys'.monitor) <==> Heard(sys.monitor) || e.MonitorSigterm?)
      && (sys'.monitor.MonitorDone? <==>
            sys.monitor.MonitorDone? || e.MonitorCancelled? || (sys.monitor.PollingDataplane? && SeesStopped(e)))
      && (sys.loop.returned.Some? || e.MonitorCancelled? ==> sys'.loop.returned.Some?)
      && (e.MonitorPoll? ==> sys.monitor.PollingDataplane?)
  {
  }

  /** The monitor is done exactly if it heard of SIGTERM and later saw the
      dataplane stopped, or was cancelled, which happens only after realRun has
      returned. */
  lemma {:induction false} MonitorHistory(ok: Oracle, cfg: Config, events: seq<SystemEvent>)
    requires Possible(ok, cfg, events)
    ensures var sys := SystemRun(ok, cfg, events);
      && (Heard(sys.monitor) <==> MonitorSigterm in events)
      && (sys.monitor.MonitorDone? <==> DataplaneSeenStopped(events) || MonitorCancelled in events)
      && (MonitorCancelled in events ==> sys.loop.returned.Some?)
  {
    if events != [] {
      var rest, e := events[..|events| - 1], events[|events| - 1];
      MonitorHistory(ok, cfg, rest);
      assert events == rest + [e];
      SeenSnoc(rest, e);
      MonitorMoves(ok, cfg, SystemRun(ok, cfg, rest), e);
      assert SystemRun(ok, cfg, events) == SystemStep(ok, cfg, SystemRun(ok, cfg, rest), e);
    }
  }

  /** What a state shows of the monitor having been told of SIGTERM. */
  predicate Told(sys: System) { sys.monitorPending || Heard(sys.monitor) }

  /** SIGTERM arrives while the monitor waits for it. */
  predicate ArrivesInTime(sys: System, e: SystemEvent) {
    e.SigtermArrives? && sys.monitor.AwaitingSigterm?
  }

  predicate ArrivedInTime(ok: Oracle, cfg: Config, events: seq<SystemEvent>) {
    exists j :: 0 <= j < |events| && ArrivesInTime(SystemRun(ok, cfg, events[..j]), events[j])
  }

  lemma ToldByArrival(ok: Oracle, cfg: Config, sys: System, e: SystemEvent)
    requires Enabled(sys, e)
    ensures Told(SystemStep(ok, cfg, sys, e)) <==> Told(sys) || ArrivesInTime(sys, e)
  {
  }

  lemma InTimeSnoc(ok: Oracle, cfg: Config, events: seq<SystemEvent>, e: SystemEvent)
    ensures ArrivedInTime(ok, cfg, events + [e]) <==>
      ArrivedInTime(ok, cfg, events) || ArrivesInTime(SystemRun(ok, cfg, events), e)
  {
    var longer := events + [e];
    assert forall j :: 0 <= j <= |events| ==> longer[..j] == events[..j];
    assert events[..|events|] == events && longer[|events|] == e;
    if j :| 0 <= j < |events| && ArrivesInTime(SystemRun(ok, cfg, events[..j]), events[j]) {
      assert ArrivesInTime(SystemRun(ok, cfg, longer[..j]), longer[j]);
    }
    if ArrivesInTime(SystemRun(ok, cfg, events), e) {
      assert ArrivesInTime(SystemRun(ok, cfg, longer[..|events|]), longer[|events|]);
    }
    if j :| 0 <= j < |longer| && ArrivesInTime(SystemRun(ok, cfg, longer[..j]), longer[j]) {
      assert j < |events| ==> ArrivesInTime(SystemRun(ok, cfg, events[..j]), events[j]);
    }
  }

  /** The monitor is told of SIGTERM exactly if one arrives while it waits for it. */
  lemma {:induction false} ToldExactly(ok: Oracle, cfg: Config, events: seq<SystemEvent>)
    requires Possible(ok, cfg, events)
    ensures Told(SystemRun(ok, cfg, events)) <==> ArrivedInTime(ok, cfg, events)
  {
    if events != [] {
      var rest, e := events[..|events| - 1], events[|events| - 1];
      ToldExactly(ok, cfg, rest);
      ToldByArrival(ok, cfg, SystemRun(ok, cfg, rest), e);
      InTimeSnoc(ok, cfg, rest, e);
      assert events == rest + [e];
    }
  }

  lemma {:induction false} PendingIsAwaited(ok: Oracle, cfg: Config, events: seq<SystemEvent>)
    requires Possible(ok, cfg, events)
    ensures OnlyAwaited(SystemRun(ok, cfg, events))
  {
    if events != [] {
      PendingIsAwaited(ok, cfg, events[..|events| - 1]);
      StillAwaited(ok, cfg, SystemRun(ok, cfg, events[..|events| - 1]), events[|events| - 1]);
    }
  }

  predicate OnlyAwaited(sys: System) {
    sys.monitorPending && sys.loop.returned.None? ==> sys.monitor.AwaitingSigterm?
  }

  lemma StillAwaited(ok: Oracle, cfg: Config, sys: System, e: SystemEvent)
    requires Enabled(sys, e) && OnlyAwaited(sys)
    ensures OnlyAwaited(SystemStep(ok, cfg, sys, e))
  {
  }

  /** What is left to happen once the dataplane has stopped: the monitor hears of
      SIGTERM, sees the dataplane stopped, and the loop is told. */
  function Leaving(sys: System, stopped: TaskMeta): seq<SystemEvent> {
    match sys.monitor
    case PollingDataplane => [MonitorPoll(Some(stopped)), Main(DataplaneDone)]
    case MonitorDone(_) => [Main(DataplaneDone)]
    case _ => [MonitorSigterm, MonitorPoll(Some(stopped)), Main(DataplaneDone)]
  }

  lemma NextPossible(ok: Oracle, cfg: Config, events: seq<SystemEvent>, e: SystemEvent)
    requires Possible(ok, cfg, events) && Enabled(SystemRun(ok, cfg, events), e)
    ensures Possible(ok, cfg, events + [e])
    ensures SystemRun(ok, cfg, events + [e]) == SystemStep(ok, cfg, SystemRun(ok, cfg, events), e)
  {
    assert (events + [e])[..|events + [e]| - 1] == events;
  }

  predicate Leaves(ok: Oracle, cfg: Config, events: seq<SystemEvent>) {
    Possible(ok, cfg, events) && SystemRun(ok, cfg, events).loop.returned.Some?
  }

  predicate Working(ok: Oracle, cfg: Config, events: seq<SystemEvent>) {
    Possible(ok, cfg, events) && var sys := SystemRun(ok, cfg, events); sys.ready && sys.loop.returned.None?
  }

  lemma DoneLeaves(ok: Oracle, cfg: Config, events: seq<SystemEvent>)
    requires Working(ok, cfg, events) && SystemRun(ok, cfg, events).monitor.MonitorDone?
    ensures Leaves(ok, cfg, events + [Main(DataplaneDone)])
  {
    NextPossible(ok, cfg, events, Main(DataplaneDone));
  }

  lemma PollingLeaves(ok: Oracle, cfg: Config, events: seq<SystemEvent>, stopped: TaskMeta)
    requires Working(ok, cfg, events) && SystemRun(ok, cfg, events).monitor.PollingDataplane?
    requires ContainerStopped(stopped, DATAPLANE)
    ensures Leaves(ok, cfg, events + [MonitorPoll(Some(stopped)), Main(DataplaneDone)])
  {
    var polled := events + [MonitorPoll(Some(stopped))];
    NextPossible(ok, cfg, events, MonitorPoll(Some(stopped)));
    DoneLeaves(ok, cfg, polled);
    assert polled + [Main(DataplaneDone)] == events + [MonitorPoll(Some(stopped)), Main(DataplaneDone)];
  }

  lemma AwaitingLeaves(ok: Oracle, cfg: Config, events: seq<SystemEvent>, stopped: TaskMeta)
    requires Working(ok, cfg, events) && ContainerStopped(stopped, DATAPLANE)
    requires SystemRun(ok, cfg, events).monitor.AwaitingSigterm? && SystemRun(ok, cfg, events).monitorPending
    ensures Leaves(ok, cfg, events + [MonitorSigterm, MonitorPoll(Some(stopped)), Main(DataplaneDone)])
  {
    var heard := events + [MonitorSigterm];
    NextPossible(ok, cfg, events, MonitorSigterm);
    PollingLeaves(ok, cfg, heard, stopped);
    assert heard + [MonitorPoll(Some(stopped)), Main(DataplaneDone)]
      == events + [MonitorSigterm, MonitorPoll(Some(stopped)), Main(DataplaneDone)];
  }

  /** From wherever it is told in time, the task can leave without another SIGTERM:
      once the dataplane has stopped nothing stands in the way of deregistering. */
  lemma ToldCanLeave(ok: Oracle, cfg: Config, events: seq<SystemEvent>, stopped: TaskMeta)
    requires Working(ok, cfg, events) && ArrivedInTime(ok, cfg, events) && ContainerStopped(stopped, DATAPLANE)
    ensures Leaves(ok, cfg, events + Leaving(SystemRun(ok, cfg, events), stopped))
  {
    ToldExactly(ok, cfg, events);
    PendingIsAwaited(ok, cfg, events);
    match SystemRun(ok, cfg, events).monitor
    case AwaitingSigterm => AwaitingLeaves(ok, cfg, events, stopped);
    case PollingDataplane => PollingLeaves(ok, cfg, events, stopped);
    case MonitorDone(_) => DoneLeaves(ok, cfg, events);
  }

  /** The monitor's two loops, on the signals and polls as they come. */
  class DataplaneMonitor {
    const events: seq<SystemEvent>
    var next: nat
    var closed: bool   // doneCh

    constructor (events: seq<SystemEvent>)
      ensures this.events == events && next == 0 && !closed
    {
      this.events, next, closed := events, 0, false;
    }

    /** Whether SIGTERM was heard before a cancellation; None if neither came. */
    method WaitForSigterm() returns (heard: Option<bool>)
      requires next == 0
      modifies this`next
      ensures next <= |events| && !DataplaneSeenStopped(events[..next])
      ensures heard == Some(true) ==> MonitorSigterm in events[..next] && MonitorCancelled !in events[..next]
      ensures heard == Some(false) ==> MonitorCancelled in events[..next]
      ensures heard.None? ==> next == |events| && MonitorCancelled !in events
    {
      while next < |events|
        invariant next <= |events| && MonitorSigterm !in events[..next] && MonitorCancelled !in events[..next]
      {
        next := next + 1;
        assert events[..next] == events[..next - 1] + [events[next - 1]];
        if events[next - 1] == MonitorSigterm {
          SeenSnoc(events[..next - 1], MonitorSigterm);
          return Some(true);
        }
        if events[next - 1] == MonitorCancelled { return Some(false); }
      }
      assert events[..next] == events;
      return None;
    }

    /** The channel is closed exactly if the events contain a cancellation, or
        SIGTERM and then a poll that shows the dataplane stopped. */
    method Run()
      requires next == 0 && !closed
      modifies this
      ensures closed <==> DataplaneSeenStopped(events) || MonitorCancelled in events
    {
      var heard := WaitForSigterm();
      if heard.None? {
        assert events[..next] == events;
        return;
      }
      if !heard.value {
        closed := true;
        return;
      }
      while next < |events|
        invariant next <= |events| && MonitorSigterm in events[..next] && MonitorCancelled !in events[..next]
        invariant !closed && !DataplaneSeenStopped(events[..next])
      {
        var e := events[next];
        assert events[..next + 1] == events[..next] + [e];
        SeenSnoc(events[..next], e);
        next := next + 1;
        if e == MonitorCancelled {
          closed := true;
          return;
        }
        if e.MonitorPoll? && e.meta.Some? {
          var stopped := HasContainerStopped(e.meta.value, DATAPLANE);
          if stopped {
            closed := true;
            SeenStays(events, next);
            return;
          }
        }
      }
      assert events[..next] == events;
    }
  }

  lemma SeenStays(events: seq<SystemEvent>, n: nat)
    requires n <= |events| && DataplaneSeenStopped(events[..n])
    ensures DataplaneSeenStopped(events)
  {
    var i, j :| 0 <= i < j < n && events[..n][i] == MonitorSigterm && SeesStopped(events[..n][j]);
    assert events[i] == MonitorSigterm && SeesStopped(events[j]);
  }

  // The order of calls

  predicate OnlyRegisters(trace: seq<Call>) {
    forall k :: 0 <= k < |trace| ==> trace[k].Register?
  }

  lemma {:induction false} UpdateAllRegisters(ok: Oracle, s: Sync, ids: seq<string>, ecsHealth: string)
    requires OnlyRegisters(s.trace)
    ensures OnlyRegisters(UpdateAll(ok, s, ids, ecsHealth).sync.trace)
    decreases |ids|
  {
    if ids != [] {
      var first := Update(ok, s, ids[0], ecsHealth);
      if !first.failed {
        UpdateAllRegisters(ok, first.sync, ids[1..], ecsHealth);
      }
    }
  }

  lemma {:induction false} MarkMissingRegisters(ok: Oracle, cfg: Config, t: Tracker, names: seq<string>)
    requires OnlyRegisters(t.sync.trace)
    ensures OnlyRegisters(MarkMissing(ok, cfg, t, names).sync.trace)
  {
    if names != [] {
      MarkMissingRegisters(ok, cfg, t, names[..|names| - 1]);
      UpdateAllRegisters(ok, MarkMissing(ok, cfg, t, names[..|names| - 1]).sync, DataplaneCheckIDs(cfg), UNHEALTHY);
    }
  }

  lemma {:induction false} SyncFoundRegisters(ok: Oracle, cfg: Config, t: Tracker, found: seq<Container>)
    requires OnlyRegisters(t.sync.trace)
    ensures OnlyRegisters(SyncFound(ok, cfg, t, found).sync.trace)
  {
    if found != [] {
      SyncFoundRegisters(ok, cfg, t, found[..|found| - 1]);
    }
  }

  lemma {:induction false} CriticalPassRegisters(ok: Oracle, cfg: Config, s: Sync, names: seq<string>)
    requires OnlyRegisters(s.trace)
    ensures OnlyRegisters(CriticalPass(ok, cfg, s, names).sync.trace)
  {
    if names != [] {
      CriticalPassRegisters(ok, cfg, s, names[..|names| - 1]);
      UpdateAllRegisters(ok, CriticalPass(ok, cfg, s, names[..|names| - 1]).sync, DataplaneCheckIDs(cfg), UNHEALTHY);
    }
  }

  /** Rounds and passes only register checks. */
  lemma LoopStepRegisters(ok: Oracle, cfg: Config, l: Loop, e: Event)
    requires OnlyRegisters(l.tracker.sync.trace) && !e.DataplaneDone?
    ensures OnlyRegisters(LoopStep(ok, cfg, l, e).tracker.sync.trace)
  {
    match e
    case Tick(meta) =>
      if meta.Some? {
        var names, known := SyncedContainers(cfg), ByName(meta.value.containers);
        MarkMissingRegisters(ok, cfg, l.tracker, Missing(known, names));
        SyncFoundRegisters(ok, cfg, MarkMissing(ok, cfg, l.tracker, Missing(known, names)), Present(known, names));
        UpdateAllRegisters(ok, ContainersDone(ok, cfg, l.tracker, known).sync, DataplaneCheckIDs(cfg),
          DataplaneHealth(cfg, meta.value));
      }
    case Sigterm => CriticalPassRegisters(ok, cfg, l.tracker.sync, SyncedContainers(cfg));
    case _ =>
  }

  lemma EndsNow(ok: Oracle, cfg: Config, events: seq<SystemEvent>, l: nat)
    requires |events| == l + 1 && Possible(ok, cfg, events) && events[l] == Main(DataplaneDone)
    requires OnlyRegisters(SystemRun(ok, cfg, events[..l]).loop.tracker.sync.trace)
    ensures EndsAt(ok, cfg, events, l)
  {
    MonitorHistory(ok, cfg, events[..l]);
    var s := SystemRun(ok, cfg, events[..l]).loop.tracker.sync;
    FinishTrace(ok, cfg, s);
  }

  lemma EndsStill(ok: Oracle, cfg: Config, events: seq<SystemEvent>, l: nat)
    requires l < |events| - 1 && Possible(ok, cfg, events)
    requires EndsAt(ok, cfg, events[..|events| - 1], l)
    ensures EndsAt(ok, cfg, events, l)
  {
    assert events[..|events| - 1][..l] == events[..l];
  }

  /** In every possible run: as long as the loop has not returned, or has not begun,
      Consul has been asked for nothing but registering checks. When it has returned,
      the monitor had by then seen the dataplane stopped after SIGTERM, and the calls
      from there on are the deregistration of the service, that of the proxy, and the
      logout, each exactly once and each attempted whatever became of the ones
      before. */
  lemma {:induction false} DeregistrationOrder(ok: Oracle, cfg: Config, events: seq<SystemEvent>)
    requires Possible(ok, cfg, events)
    ensures Ordered(ok, cfg, events)
  {
    if events != [] {
      DeregistrationOrder(ok, cfg, events[..|events| - 1]);
      OrderKept(ok, cfg, events);
    }
  }

  ghost predicate Ordered(ok: Oracle, cfg: Config, events: seq<SystemEvent>) {
    var sys := SystemRun(ok, cfg, events);
    if sys.loop.returned.None? || !sys.ready then OnlyRegisters(sys.loop.tracker.sync.trace)
    else exists l :: 0 <= l < |events| && EndsAt(ok, cfg, events, l)
  }

  lemma OrderKept(ok: Oracle, cfg: Config, events: seq<SystemEvent>)
    requires events != [] && Possible(ok, cfg, events) && Ordered(ok, cfg, events[..|events| - 1])
    ensures Ordered(ok, cfg, events)
  {
    var n := |events| - 1;
    var before := SystemRun(ok, cfg, events[..n]);
    if before.loop.returned.Some? && before.ready {
      var l :| 0 <= l < n && EndsAt(ok, cfg, events[..n], l);
      EndsStill(ok, cfg, events, l);
    } else if events[n].Main? {
      if events[n].event.DataplaneDone? {
        EndsNow(ok, cfg, events, n);
      } else {
        LoopStepRegisters(ok, cfg, before.loop, events[n].event);
      }
    }
  }

  /** The loop returned at the l-th event, with nothing but its farewell after
      registering checks, and only once the monitor had seen the dataplane stop. */
  predicate EndsAt(ok: Oracle, cfg: Config, events: seq<SystemEvent>, l: nat)
    requires l < |events|
  {
    var s := SystemRun(ok, cfg, events[..l]).loop.tracker.sync;
    var end := SystemRun(ok, cfg, events).loop;
    && events[l] == Main(DataplaneDone) && DataplaneSeenStopped(events[..l])
    && OnlyRegisters(s.trace)
    && end.tracker.sync.trace == s.trace + Farewell(ok, cfg, |s.trace|)
    && end.returned == Some(!AllOk(Farewell(ok, cfg, |s.trace|)))
  }

  // A SIGTERM that the monitor does not hear of

  /** What the loop receives. */
  function Received(events: seq<SystemEvent>): seq<Event> {
    if events == [] then []
    else Received(events[..|events| - 1]) + if events[|events| - 1].Main? then [events[|events| - 1].event] else []
  }

  predicate Going(sys: System) { sys.ready || sys.loop.returned.None? }

  /** The loop's state is what the events it received make of an earlier one. */
  ghost predicate Tracks(ok: Oracle, cfg: Config, sys: System, start: Loop, received: seq<Event>) {
    Going(sys) ==> sys.loop == LoopRun(ok, cfg, start, received)
  }

  lemma OtherKeepsTracking(ok: Oracle, cfg: Config, sys: System, e: SystemEvent, run: Loop)
    requires Enabled(sys, e) && !e.Main? && (Going(sys) ==> sys.loop == run)
    ensures var sys' := SystemStep(ok, cfg, sys, e); Going(sys') ==> sys'.loop == run
  {
  }

  lemma MainKeepsTracking(ok: Oracle, cfg: Config, sys: System, e: Event, start: Loop, received: seq<Event>)
    requires Enabled(sys, Main(e)) && Tracks(ok, cfg, sys, start, received)
    ensures Tracks(ok, cfg, SystemStep(ok, cfg, sys, Main(e)), start, received + [e])
  {
    LoopRunSnoc(ok, cfg, start, received, e);
  }

  /** Unless the setup failed, the loop runs on what it receives. */
  lemma {:induction false} LoopOfSystem(ok: Oracle, cfg: Config, events: seq<SystemEvent>, more: seq<SystemEvent>)
    requires Possible(ok, cfg, events + more)
    ensures Tracks(ok, cfg, SystemRun(ok, cfg, events + more), SystemRun(ok, cfg, events).loop, Received(more))
    decreases |more|
  {
    if more == [] {
      assert events + more == events;
    } else {
      var rest, e := more[..|more| - 1], more[|more| - 1];
      assert (events + more)[..|events + more| - 1] == events + rest;
      LoopOfSystem(ok, cfg, events, rest);
      NextTracks(ok, cfg, SystemRun(ok, cfg, events + rest), e, SystemRun(ok, cfg, events).loop, Received(rest));
    }
  }

  lemma NextTracks(ok: Oracle, cfg: Config, sys: System, e: SystemEvent, start: Loop, received: seq<Event>)
    requires Enabled(sys, e) && Tracks(ok, cfg, sys, start, received)
    ensures Tracks(ok, cfg, SystemStep(ok, cfg, sys, e), start, received + if e.Main? then [e.event] else [])
  {
    if e.Main? {
      MainKeepsTracking(ok, cfg, sys, e.event, start, received);
    } else {
      OtherKeepsTracking(ok, cfg, sys, e, LoopRun(ok, cfg, start, received));
      assert received + [] == received;
    }
  }

  lemma {:induction false} StaysUntold(ok: Oracle, cfg: Config, events: seq<SystemEvent>, more: seq<SystemEvent>)
    requires Possible(ok, cfg, events + more) && SigtermArrives !in more
    requires var sys := SystemRun(ok, cfg, events);
      !Told(sys) && sys.ready && sys.loop.returned.None? && !sys.monitor.MonitorDone?
    ensures var sys := SystemRun(ok, cfg, events + more);
      !Told(sys) && sys.ready && sys.loop.returned.None? && !sys.monitor.MonitorDone?
  {
    if more == [] {
      assert events + more == events;
    } else {
      var rest, last := more[..|more| - 1], more[|more| - 1];
      assert (events + more)[..|events + more| - 1] == events + rest;
      assert last in more;
      StaysUntold(ok, cfg, events, rest);
      ToldByArrival(ok, cfg, SystemRun(ok, cfg, events + rest), last);
    }
  }

  /** The run that the next lemma is about. */
  const EARLY_SIGTERM: seq<SystemEvent> := [SigtermArrives, SetupDone, Main(Sigterm), MonitorSubscribes]

  lemma Taken(ok: Oracle, cfg: Config, events: seq<SystemEvent>, sys: System, e: SystemEvent, sys': System)
    requires Possible(ok, cfg, events) && SystemRun(ok, cfg, events) == sys
    requires Enabled(sys, e) && sys' == SystemStep(ok, cfg, sys, e)
    ensures Possible(ok, cfg, events + [e]) && SystemRun(ok, cfg, events + [e]) == sys'
    ensures Received(events + [e]) == Received(events) + if e.Main? then [e.event] else []
  {
    assert (events + [e])[..|events + [e]| - 1] == events;
  }

  lemma EarlyStart(ok: Oracle, cfg: Config, start: Loop)
    requires start == LoopStart(cfg) && start.returned.None?
    ensures var events := [SigtermArrives, SetupDone];
      && Possible(ok, cfg, events) && Received(events) == []
      && SystemRun(ok, cfg, events) == System(start, true, true, Subscribing, false)
  {
    var s0 := System(start, false, false, Subscribing, false);
    var s1 := System(start, false, true, Subscribing, false);
    Taken(ok, cfg, [], s0, SigtermArrives, s1);
    Taken(ok, cfg, [SigtermArrives], s1, SetupDone, System(start, true, true, Subscribing, false));
    assert [] + [SigtermArrives] == [SigtermArrives];
    assert [SigtermArrives] + [SetupDone] == [SigtermArrives, SetupDone];
  }

  lemma EarlyMarked(ok: Oracle, cfg: Config, before: seq<SystemEvent>, start: Loop)
    requires Possible(ok, cfg, before) && Received(before) == [] && start.returned.None?
    requires SystemRun(ok, cfg, before) == System(start, true, true, Subscribing, false)
    ensures var events := before + [Main(Sigterm)]; var sys := SystemRun(ok, cfg, events);
      && Possible(ok, cfg, events) && Received(events) == [Sigterm]
      && sys.loop.returned.None? && sys == System(sys.loop, true, false, Subscribing, false)
  {
    var sys := SystemRun(ok, cfg, before);
    Taken(ok, cfg, before, sys, Main(Sigterm), SystemStep(ok, cfg, sys, Main(Sigterm)));
  }

  lemma EarlySubscribed(ok: Oracle, cfg: Config, marked: seq<SystemEvent>, l: Loop)
    requires Possible(ok, cfg, marked) && Received(marked) == [Sigterm] && l.returned.None?
    requires SystemRun(ok, cfg, marked) == System(l, true, false, Subscribing, false)
    ensures var events := marked + [MonitorSubscribes];
      && Possible(ok, cfg, events) && Received(events) == [Sigterm]
      && SystemRun(ok, cfg, events) == System(l, true, false, AwaitingSigterm, false)
  {
    Taken(ok, cfg, marked, System(l, true, false, Subscribing, false), MonitorSubscribes,
      System(l, true, false, AwaitingSigterm, false));
    assert [Sigterm] + [] == [Sigterm];
  }

  predicate EarlyRunDone(ok: Oracle, cfg: Config, events: seq<SystemEvent>) {
    var sys := SystemRun(ok, cfg, events);
    && Possible(ok, cfg, events) && Received(events) == [Sigterm] && sys.loop.returned.None?
    && sys == System(sys.loop, true, false, AwaitingSigterm, false)
  }

  lemma EarlyRunFrom(ok: Oracle, cfg: Config, events: seq<SystemEvent>, start: Loop, all: seq<SystemEvent>)
    requires Possible(ok, cfg, events) && Received(events) == [] && start.returned.None?
    requires SystemRun(ok, cfg, events) == System(start, true, true, Subscribing, false)
    requires all == events + [Main(Sigterm)] + [MonitorSubscribes]
    ensures EarlyRunDone(ok, cfg, all)
  {
    var marked := events + [Main(Sigterm)];
    EarlyMarked(ok, cfg, events, start);
    EarlySubscribed(ok, cfg, marked, SystemRun(ok, cfg, marked).loop);
  }

  lemma EarlyRun(ok: Oracle, cfg: Config)
    ensures EarlyRunDone(ok, cfg, EARLY_SIGTERM)
  {
    EarlyStart(ok, cfg, LoopStart(cfg));
    EarlyRunFrom(ok, cfg, [SigtermArrives, SetupDone], LoopStart(cfg), EARLY_SIGTERM);
  }

  /** A SIGTERM that comes before the monitor has subscribed is lost on it. The loop
      hears of it and, if no call fails, marks every check critical; but unless
      another SIGTERM arrives the loop never returns, nothing is ever deregistered,
      and every check stays critical. */
  lemma EarlySigtermStrandsTask(ok: Oracle, cfg: Config, more: seq<SystemEvent>)
    requires Possible(ok, cfg, EARLY_SIGTERM + more) && SigtermArrives !in more
    ensures var sys := SystemRun(ok, cfg, EARLY_SIGTERM + more);
      && sys.loop.returned.None? && OnlyRegisters(sys.loop.tracker.sync.trace)
      && (!CriticalPass(ok, cfg, Start(cfg).sync, SyncedContainers(cfg)).failed ==>
            forall id :: id in RegisteredIDs(cfg) ==>
              id in sys.loop.tracker.sync.catalog && Shown(sys.loop.tracker.sync, id) == CRITICAL)
  {
    var events := EARLY_SIGTERM + more;
    EarlyRun(ok, cfg);
    StaysUntold(ok, cfg, EARLY_SIGTERM, more);
    DeregistrationOrder(ok, cfg, events);
    if !CriticalPass(ok, cfg, Start(cfg).sync, SyncedContainers(cfg)).failed {
      assert [] + EARLY_SIGTERM == EARLY_SIGTERM && [] + [Sigterm] == [Sigterm];
      LoopOfSystem(ok, cfg, [], EARLY_SIGTERM);
      LoopOfSystem(ok, cfg, EARLY_SIGTERM, more);
      forall id | id in RegisteredIDs(cfg)
        ensures var sys := SystemRun(ok, cfg, events);
          id in sys.loop.tracker.sync.catalog && Shown(sys.loop.tracker.sync, id) == CRITICAL
      {
        CriticalUntilDeregistered(ok, cfg, [], Received(more), id);
      }
    }
  }
}
