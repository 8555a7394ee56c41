/** subcommand/envoy-entrypoint and entrypoint/cmd.go as they are written: the three
    goroutines, each a program that takes its own steps of the machine in
    EnvoyEntrypoint while the others run in between. */
module EnvoyGoroutines {
  import opened Prelude
  import opened TaskMetadata
  import opened Processes
  import opened EnvoyEntrypoint
  import EnvoySignals

  /** The goroutine that takes a step; signals and the child are nobody's. */
  datatype Goroutine = Main | Command | Monitor | Outside

  function By(step: Step): Goroutine {
    match step
    case Arrives(_) => Outside case ChildDies(_) => Outside
    case CommandStart(_) => Command case CommandAdvance => Command
    case MonitorSubscribe => Monitor case MonitorHearsSigterm => Monitor case MonitorCancelled => Monitor
    case MonitorPoll(_) => Monitor case MonitorAdvance => Monitor
    case _ => Main
  }

  /** A goroutine's own program counter moves only by its own steps. */
  predicate SamePC(g: Goroutine, s: State, s': State) {
    match g
    case Main => s'.main == s.main
    case Command => s'.command == s.command
    case Monitor => s'.monitor == s.monitor
    case Outside => true
  }

  lemma OthersKeepPC(g: Goroutine, s: State, step: Step)
    requires Enabled(s, step) && By(step) != g
    ensures SamePC(g, s, Apply(s, step))
  {
  }

  /** What a step does to its own goroutine's program counter. */
  predicate Moved(s: State, step: Step, s': State) {
    match step
    case CommandStart(ok) => s'.command == if ok then SendingStarted else ClosingStarted
    case CommandAdvance =>
      (match s.command
       case SendingStarted => s'.command.WaitingForChild?
       case WaitingForChild => s'.command.SendingDone?
       case SendingDone => s'.command.ClosingStarted?
       case ClosingStarted => s'.command.ClosingDone?
       case ClosingDone => s'.command.Finished?
       case _ => true)
    case MonitorSubscribe => s'.monitor.AwaitingSigterm?
    case MonitorHearsSigterm => s'.monitor.Polling?
    case MonitorCancelled =>
      if s.monitor.AwaitingSigterm? then s'.monitor.SendingCancelled? else s'.monitor == Closing(CancelledPolling)
    case MonitorPoll(_) => s'.monitor.Polling? || s'.monitor.SendingStopped?
    case MonitorAdvance =>
      (match s.monitor
       case SendingCancelled => s'.monitor == Closing(CancelledEarly)
       case SendingStopped => s'.monitor == Closing(AppsStopped)
       case Closing(why) => s'.monitor == Exited(why)
       case _ => true)
    case MainStarted => s'.main.Announcing? || s'.main.Cancelling?
    case MainAnnounce => s'.main.Selecting?
    case MainDone => s'.main.Cancelling?
    case MainSignal => s'.main.Selecting?
    case MainMonitor => s'.main.Selecting?
    case MainCancel => s'.main.AwaitingMonitor?
    case MainMonitorDone => s'.main.AwaitingCommand?
    case MainCommandDone => s'.main.Returned?
    case _ => true
  }

  lemma StepMoves(s: State, step: Step)
    requires Enabled(s, step)
    ensures Moved(s, step, Apply(s, step))
  {
  }

  class Scheduler {
    var s: State
    var batches: seq<seq<Step>>   // what the others will attempt, pause by pause
    ghost var history: seq<Step>

    /** The history is a possible run, and has led here. */
    ghost predicate Valid()
      reads this
    {
      Possible(history) && s == EnvoyEntrypoint.Run(history)
    }

    constructor (batches: seq<seq<Step>>)
      ensures Valid() && s == INITIAL && history == [] && this.batches == batches
    {
      this.s, this.batches, this.history := INITIAL, batches, [];
    }

    method Take(step: Step)
      requires Valid() && Enabled(s, step)
      modifies this`s, this`history
      ensures Valid() && old(history) <= history && Moved(old(s), step, s)
    {
      StepMoves(s, step);
      ghost var longer := Taken(history, s, step, Apply(s, step));
      s, history := Apply(s, step), longer;
    }

    method TakeForeign(g: Goroutine, step: Step)
      requires Valid() && Enabled(s, step) && By(step) != g
      modifies this`s, this`history
      ensures Valid() && old(history) <= history && SamePC(g, old(s), s)
    {
      OthersKeepPC(g, s, step);
      ghost var longer := Taken(history, s, step, Apply(s, step));
      s, history := Apply(s, step), longer;
    }

    /** The others get a turn. */
    method Pause(g: Goroutine)
      requires Valid() && batches != []
      modifies this
      ensures Valid() && SamePC(g, old(s), s) && old(history) <= history && |batches| == |old(batches)| - 1
    {
      var batch := batches[0];
      batches := batches[1..];
      for i := 0 to |batch|
        invariant Valid() && SamePC(g, old(s), s) && old(history) <= history && |batches| == |old(batches)| - 1
      {
        if By(batch[i]) != g && Enabled(s, batch[i]) {
          TakeForeign(g, batch[i]);
        }
      }
    }

    /** A blocking operation: the others run until it can be done. */
    method Await(g: Goroutine, step: Step) returns (ready: bool)
      requires Valid()
      modifies this
      ensures Valid() && SamePC(g, old(s), s) && old(history) <= history
      ensures if ready then Enabled(s, step) else !Enabled(s, step) && batches == []
    {
      if batches != [] { Pause(g); }
      while !Enabled(s, step) && batches != []
        invariant Valid() && SamePC(g, old(s), s) && old(history) <= history
        decreases |batches|
      {
        Pause(g);
      }
      return Enabled(s, step);
    }

    /** A select: some case that is ready, or None if there is none by the end. */
    method Select(g: Goroutine, cases: seq<Step>) returns (chosen: Option<Step>)
      requires Valid() && batches != []
      modifies this
      ensures Valid() && SamePC(g, old(s), s) && old(history) <= history && |batches| < |old(batches)|
      ensures chosen.Some? ==> chosen.value in cases && Enabled(s, chosen.value)
      ensures chosen.None? ==> batches == [] && forall c :: c in cases ==> !Enabled(s, c)
    {
      Pause(g);
      while batches != [] && forall i :: 0 <= i < |cases| ==> !Enabled(s, cases[i])
        invariant Valid() && SamePC(g, old(s), s) && old(history) <= history && |batches| < |old(batches)|
        decreases |batches|
      {
        Pause(g);
      }
      if i :| 0 <= i < |cases| && Enabled(s, cases[i]) { return Some(cases[i]); }
      return None;
    }

    /** entrypoint.Cmd.Run. It is held up by nothing but its child: neither of its
        sends ever waits. */
    method CommandRun(startOk: bool) returns (finished: bool)
      requires Valid() && s.command.Starting?
      modifies this
      ensures Valid() && old(history) <= history
      ensures if finished then s.command.Finished? else s.command.WaitingForChild? && !s.child.Dead? && batches == []
      ensures !startOk ==> finished
    {
      Take(CommandStart(startOk));
      if startOk {
        TakeSend(Command, CommandAdvance);     // startedCh <-
        var exited := Await(Command, CommandAdvance);
        if !exited { return false; }
        Take(CommandAdvance);                  // Wait
        TakeSend(Command, CommandAdvance);     // doneCh <-
      }
      CloseCommand();
      return true;
    }

    /** The deferred close(startedCh) and close(doneCh). */
    method CloseCommand()
      requires Valid() && s.command.ClosingStarted?
      modifies this
      ensures Valid() && old(history) <= history && s.command.Finished?
    {
      if batches != [] { Pause(Command); }
      Take(CommandAdvance);
      if batches != [] { Pause(Command); }
      Take(CommandAdvance);
    }

    /** The states in which a goroutine is about to send. */
    predicate Sending(g: Goroutine, step: Step)
      reads this
    {
      match g
      case Main => step.MainAnnounce? && s.main.Announcing?
      case Command => step.CommandAdvance? && (s.command.SendingStarted? || s.command.SendingDone?)
      case Monitor => step.MonitorAdvance? && (s.monitor.SendingCancelled? || s.monitor.SendingStopped?)
      case Outside => false
    }

    /** A send, whatever the others do before it: there is always room. */
    method TakeSend(g: Goroutine, step: Step)
      requires Valid() && Sending(g, step)
      modifies this
      ensures Valid() && old(history) <= history
      ensures match g
        case Main => s.main.Selecting?
        case Command => s.command == if old(s).command.SendingStarted? then WaitingForChild else ClosingStarted
        case Monitor => s.monitor == Closing(if old(s).monitor.SendingCancelled? then CancelledEarly else AppsStopped)
        case Outside => true
    {
      if batches != [] { Pause(g); }
      SendsNeverBlock(history);
      Take(step);
    }

    /** AppContainerMonitor.Run; polls says what the metadata reads in each round. */
    method MonitorRun(polls: nat -> Option<TaskMeta>) returns (finished: bool)
      requires Valid() && s.monitor.Subscribing?
      modifies this
      ensures Valid() && old(history) <= history
      ensures
        if finished then s.monitor.Exited? else batches == [] && (s.monitor.AwaitingSigterm? || s.monitor.Polling?)
      ensures finished && s.monitor.why.AppsStopped? ==> ApplicationsSeenStopped(history)
      ensures finished && !s.monitor.why.AppsStopped? ==> s.cancelled
    {
      Take(MonitorSubscribe);
      // waitForSIGTERM
      if batches == [] { return false; }
      var heard := Select(Monitor, [MonitorHearsSigterm, MonitorCancelled]);
      if heard.None? { return false; }
      Take(heard.value);
      if heard.value.MonitorHearsSigterm? {
        finished := PollApplications(polls);
        if !finished { return; }
      }
      if !s.monitor.Closing? { TakeSend(Monitor, MonitorAdvance); }
      CloseMonitor();
      return true;
    }

    /** The polling loop, up to the point where it returns. */
    method PollApplications(polls: nat -> Option<TaskMeta>) returns (ended: bool)
      requires Valid() && s.monitor.Polling?
      modifies this
      ensures Valid() && old(history) <= history
      ensures if ended then s.monitor.SendingStopped? || s.monitor == Closing(CancelledPolling)
        else batches == [] && s.monitor.Polling?
    {
      var k := 0;
      while s.monitor.Polling?
        invariant Valid() && old(history) <= history
        invariant s.monitor.Polling? || s.monitor.SendingStopped? || s.monitor == Closing(CancelledPolling)
        decreases |batches|, if s.monitor.Polling? then 1 else 0
      {
        if batches == [] { return false; }
        var next := Select(Monitor, [MonitorCancelled, MonitorPoll(polls(k))]);
        if next.None? { return false; }
        Take(next.value);
        k := k + 1;
      }
      return true;
    }

    /** The deferred close(doneCh). */
    method CloseMonitor()
      requires Valid() && s.monitor.Closing?
      modifies this
      ensures Valid() && old(history) <= history && s.monitor.Exited?
      ensures s.monitor.why.AppsStopped? ==> ApplicationsSeenStopped(history)
      ensures !s.monitor.why.AppsStopped? ==> s.cancelled
    {
      if batches != [] { Pause(Monitor); }
      Take(MonitorAdvance);
      MonitorHistory(history);
      RunInvariant(history);
    }

    /** realRun. It is held up only by receiving, and returns with the exit code of
        the child that the command goroutine has waited for, or 1 without one. */
    method RealRun() returns (exitCode: Option<int>)
      requires Valid() && s.main.AwaitingStarted?
      modifies this
      ensures Valid() && old(history) <= history
      ensures exitCode.Some? ==>
        s.main.Returned? && if s.child.FailedToStart? then exitCode == Some(1) else exitCode == s.processState
      ensures exitCode.None? ==>
        batches == [] &&
        (s.main.AwaitingStarted? || s.main.Selecting? || s.main.AwaitingMonitor? || s.main.AwaitingCommand?)
      // Envoy has been sent exactly what main has received for it.
      ensures Forwarded(s.actions) == EnvoySignals.Others(EnvoySignals.Received(history))
    {
      exitCode := RunMain();
      EnvoySignals.ForwardsExactly(history);
    }

    method RunMain() returns (exitCode: Option<int>)
      requires Valid() && s.main.AwaitingStarted?
      modifies this
      ensures Valid() && old(history) <= history
      ensures exitCode.Some? ==>
        s.main.Returned? && if s.child.FailedToStart? then exitCode == Some(1) else exitCode == s.processState
      ensures exitCode.None? ==>
        batches == [] &&
        (s.main.AwaitingStarted? || s.main.Selecting? || s.main.AwaitingMonitor? || s.main.AwaitingCommand?)
    {
      var started := Await(Main, MainStarted);
      if !started { return None; }
      Take(MainStarted);
      if s.main.Announcing? {
        TakeSend(Main, MainAnnounce);
        var done := MainLoop();
        if !done { return None; }
      }
      var returned := Cleanup();
      if !returned { return None; }
      RunInvariant(history);
      return s.result;
    }

    method MainLoop() returns (done: bool)
      requires Valid() && s.main.Selecting?
      modifies this
      ensures Valid() && old(history) <= history
      ensures if done then s.main.Cancelling? else batches == [] && s.main.Selecting?
    {
      while s.main.Selecting?
        invariant Valid() && old(history) <= history && (s.main.Selecting? || s.main.Cancelling?)
        decreases |batches|, if s.main.Selecting? then 1 else 0
      {
        if batches == [] { return false; }
        var next := Select(Main, [MainDone, MainSignal, MainMonitor]);
        if next.None? { return false; }
        Take(next.value);
      }
      return true;
    }

    method Cleanup() returns (returned: bool)
      requires Valid() && s.main.Cancelling?
      modifies this
      ensures Valid() && old(history) <= history
      ensures
        if returned then s.main.Returned? else batches == [] && (s.main.AwaitingMonitor? || s.main.AwaitingCommand?)
    {
      if batches != [] { Pause(Main); }
      Take(MainCancel);
      var monitorDone := Await(Main, MainMonitorDone);
      if !monitorDone { return false; }
      Take(MainMonitorDone);
      var commandDone := Await(Main, MainCommandDone);
      if !commandDone { return false; }
      Take(MainCommandDone);
      return true;
    }
  }
}
