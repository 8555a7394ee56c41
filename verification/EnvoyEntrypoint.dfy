/** subcommand/envoy-entrypoint with entrypoint/cmd.go: three goroutines (main,
    the monitor of the application containers, the one running the command)
    that talk over channels of capacity one, interleaved step by step with the
    child process and with arriving signals. */
module EnvoyEntrypoint {
  import opened Prelude
  import opened TaskMetadata
  import opened Processes

  /** A channel of struct{} with room for one value. */
  datatype Chan = Chan(buffered: nat, closed: bool) {
    predicate CanSend() { buffered == 0 && !closed }
    predicate CanReceive() { buffered > 0 || closed }
    function Send(): Chan { Chan(buffered + 1, closed) }
    function Receive(): Chan { Chan(if buffered > 0 then buffered - 1 else 0, closed) }
    function Close(): Chan { Chan(buffered, true) }
  }

  const EMPTY := Chan(0, false)

  datatype MainPC =
    | AwaitingStarted | Announcing | Selecting   // realRun
    | Cancelling | AwaitingMonitor | AwaitingCommand | Returned   // cleanup

  datatype CommandPC =
    | Starting | SendingStarted | WaitingForChild | SendingDone | ClosingStarted | ClosingDone | Finished

  /** Why the monitor ended: the context was cancelled before SIGTERM, or while
      polling, or the applications have stopped. */
  datatype Reason = CancelledEarly | CancelledPolling | AppsStopped

  datatype MonitorPC =
    | Subscribing | AwaitingSigterm | SendingCancelled | Polling | SendingStopped
    | Closing(why: Reason) | Exited(why: Reason)

  datatype Child = NotStarted | FailedToStart | Running | Dead(code: int)

  datatype State = State(
    main: MainPC, command: CommandPC, monitor: MonitorPC,
    startedCh: Chan, doneCh: Chan, monitorCh: Chan, announced: Chan,
    cancelled: bool, child: Child,
    processState: Option<int>,     // set by Wait
    result: Option<int>,           // what realRun returns
    pending: Option<Signal>,       // the one-place buffer of c.sigs
    monitorPending: bool,          // the one-place buffer of the monitor's own channel
    actions: seq<Action>)

  const INITIAL := State(AwaitingStarted, Starting, Subscribing, EMPTY, EMPTY, EMPTY, EMPTY,
                         false, NotStarted, None, None, None, false, [])

  datatype Step =
    // the outside
    | Arrives(signal: Signal)
    | ChildDies(code: int)
    // entrypoint.Cmd.Run
    | CommandStart(ok: bool)
    | CommandAdvance
    // AppContainerMonitor.Run
    | MonitorSubscribe
    | MonitorHearsSigterm
    | MonitorCancelled
    | MonitorPoll(meta: Option<TaskMeta>)
    | MonitorAdvance
    // realRun and cleanup
    | MainStarted
    | MainAnnounce
    | MainDone
    | MainSignal
    | MainMonitor
    | MainCancel
    | MainMonitorDone
    | MainCommandDone

  predicate Enabled(s: State, step: Step) {
    match step
    case Arrives(_) => true
    case ChildDies(_) => s.child.Running?
    case CommandStart(_) => s.command.Starting?
    case CommandAdvance =>
      (match s.command
       case Starting => false
       case SendingStarted => s.startedCh.CanSend()
       case WaitingForChild => s.child.Dead?
       case SendingDone => s.doneCh.CanSend()
       case ClosingStarted => true
       case ClosingDone => true
       case Finished => false)
    case MonitorSubscribe => s.monitor.Subscribing?
    case MonitorHearsSigterm => s.monitor.AwaitingSigterm? && s.monitorPending
    case MonitorCancelled => (s.monitor.AwaitingSigterm? || s.monitor.Polling?) && s.cancelled
    case MonitorPoll(_) => s.monitor.Polling?
    case MonitorAdvance =>
      (match s.monitor
       case SendingCancelled => s.monitorCh.CanSend()
       case SendingStopped => s.monitorCh.CanSend()
       case Closing(_) => true
       case _ => false)
    case MainStarted => s.main.AwaitingStarted? && s.startedCh.CanReceive()
    case MainAnnounce => s.main.Announcing? && s.announced.CanSend()
    case MainDone => s.main.Selecting? && s.doneCh.CanReceive()
    case MainSignal => s.main.Selecting? && s.pending.Some?
    case MainMonitor => s.main.Selecting? && s.monitorCh.CanReceive()
    case MainCancel => s.main.Cancelling?
    case MainMonitorDone => s.main.AwaitingMonitor? && s.monitorCh.CanReceive()
    case MainCommandDone => s.main.AwaitingCommand? && s.doneCh.CanReceive()
  }

  /** Until signal.Stop, main is told of every signal, unless its buffer is full. */
  predicate MainSubscribed(s: State) {
    s.main.AwaitingStarted? || s.main.Announcing? || s.main.Selecting? || s.main.Cancelling?
  }

  /** handleSignal. */
  function Handle(actions: seq<Action>, sig: Signal): seq<Action> {
    if sig == SIGTERM || sig == SIGCHLD || sig == SIGURG then actions else actions + [Forward(sig)]
  }

  function Apply(s: State, step: Step): State {
    match step
    case Arrives(sig) =>
      s.(pending := if MainSubscribed(s) && s.pending.None? then Some(sig) else s.pending,
         monitorPending := s.monitorPending || (s.monitor.AwaitingSigterm? && sig == SIGTERM))
    case ChildDies(code) => s.(child := Dead(code))
    case CommandStart(ok) =>
      if ok then s.(child := Running, command := SendingStarted)
      else s.(child := FailedToStart, command := ClosingStarted)
    case CommandAdvance =>
      (match s.command
       case SendingStarted => s.(startedCh := s.startedCh.Send(), command := WaitingForChild)
       case WaitingForChild =>
         s.(processState := if s.child.Dead? then Some(s.child.code) else s.processState, command := SendingDone)
       case SendingDone => s.(doneCh := s.doneCh.Send(), command := ClosingStarted)
       // deferred calls run last-in first-out
       case ClosingStarted => s.(startedCh := s.startedCh.Close(), command := ClosingDone)
       case ClosingDone => s.(doneCh := s.doneCh.Close(), command := Finished)
       case _ => s)
    case MonitorSubscribe => s.(monitor := AwaitingSigterm)
    case MonitorHearsSigterm => s.(monitor := Polling, monitorPending := false)
    case MonitorCancelled =>
      s.(monitor := if s.monitor.AwaitingSigterm? then SendingCancelled else Closing(CancelledPolling))
    case MonitorPoll(meta) =>
      if meta.Some? && ApplicationsStopped(meta.value) then s.(monitor := SendingStopped) else s
    case MonitorAdvance =>
      (match s.monitor
       case SendingCancelled => s.(monitorCh := s.monitorCh.Send(), monitor := Closing(CancelledEarly))
       case SendingStopped => s.(monitorCh := s.monitorCh.Send(), monitor := Closing(AppsStopped))
       case Closing(why) => s.(monitorCh := s.monitorCh.Close(), monitor := Exited(why))
       case _ => s)
    case MainStarted =>
      if s.startedCh.buffered > 0 then s.(startedCh := s.startedCh.Receive(), main := Announcing)
      else s.(result := Some(1), main := Cancelling)
    case MainAnnounce => s.(announced := s.announced.Send(), main := Selecting)
    case MainDone =>
      // ExitCode of a process that has not been waited for is -1.
      s.(doneCh := s.doneCh.Receive(), main := Cancelling,
         result := Some(if s.processState.Some? then s.processState.value else -1))
    case MainSignal =>
      if s.pending.None? then s else s.(pending := None, actions := Handle(s.actions, s.pending.value))
    case MainMonitor =>
      // Receiving from the closed channel gives ok = false, and nothing is done.
      if s.monitorCh.buffered > 0 then s.(monitorCh := s.monitorCh.Receive(), actions := s.actions + [GroupTerm])
      else s
    case MainCancel => s.(cancelled := true, main := AwaitingMonitor)
    case MainMonitorDone => s.(monitorCh := s.monitorCh.Receive(), main := AwaitingCommand)
    case MainCommandDone => s.(doneCh := s.doneCh.Receive(), main := Returned)
  }

  function Run(steps: seq<Step>): State {
    if steps == [] then INITIAL else Apply(Run(steps[..|steps| - 1]), steps[|steps| - 1])
  }

  /** Every step is taken when it can be. */
  predicate Possible(steps: seq<Step>) {
    steps != [] ==>
      Possible(steps[..|steps| - 1]) && Enabled(Run(steps[..|steps| - 1]), steps[|steps| - 1])
  }

  // The invariant

  predicate CommandPast(s: State) {
    !s.command.Starting? && !s.command.SendingStarted?
  }

  /** The command's two channels follow its program counter. */
  predicate CommandInvariant(s: State) {
    && (s.child.NotStarted? <==> s.command.Starting?)
    && (s.child.FailedToStart? ==> s.command.ClosingStarted? || s.command.ClosingDone? || s.command.Finished?)
    && (s.child.Running? ==> s.command.SendingStarted? || s.command.WaitingForChild?)
    && s.startedCh.buffered == (if CommandPast(s) && !s.child.FailedToStart? && s.main.AwaitingStarted? then 1 else 0)
    && (s.startedCh.closed <==> s.command.ClosingDone? || s.command.Finished?)
    && s.doneCh.buffered <= 1
    && (s.doneCh.buffered == 1 ==> s.command.ClosingStarted? || s.command.ClosingDone? || s.command.Finished?)
    && (s.doneCh.buffered == 1 ==> s.child.Dead?)
    && (s.doneCh.closed <==> s.command.Finished?)
    && (s.processState.Some? ==> s.child.Dead? && s.processState.value == s.child.code)
    && (s.child.Dead? && CommandPast(s) && !s.command.WaitingForChild? ==> s.processState.Some?)
  }

  predicate MonitorEnded(s: State) { s.monitor.Closing? || s.monitor.Exited? }

  predicate MonitorInvariant(s: State) {
    && s.monitorCh.buffered <= 1
    && (s.monitorCh.buffered == 1 ==> MonitorEnded(s) && s.monitor.why != CancelledPolling)
    && (s.monitorCh.closed <==> s.monitor.Exited?)
    && (s.monitor.SendingCancelled? || (MonitorEnded(s) && s.monitor.why != AppsStopped) ==> s.cancelled)
  }

  predicate MainInvariant(s: State) {
    && (s.main.AwaitingStarted? || s.main.Announcing? ==> s.announced == EMPTY)
    && (!s.main.AwaitingStarted? ==> CommandPast(s))
    && (s.main.Announcing? || s.main.Selecting? ==> !s.child.FailedToStart?)
    && (s.cancelled <==> s.main.AwaitingMonitor? || s.main.AwaitingCommand? || s.main.Returned?)
    && (s.main.AwaitingStarted? || s.main.Announcing? || s.main.Selecting? <==> s.result.None?)
    && (s.result.Some? ==>
          (s.child.FailedToStart? && s.result == Some(1)) || (s.child.Dead? && s.result == Some(s.child.code)))
    && (s.main.Returned? ==> s.command.Finished? || s.command.ClosingStarted? || s.command.ClosingDone?)
  }

  /** At most one group signal, and its cause is the monitor's one "stopped" value. */
  predicate ActionInvariant(s: State) {
    && GroupTerms(s.actions) + s.monitorCh.buffered <= 1
    && (GroupTerms(s.actions) > 0 ==> MonitorEnded(s) && s.monitor.why.AppsStopped?)
    && (forall a :: a in s.actions && a.Forward? ==> a.signal.OtherSignal?)
  }

  predicate Invariant(s: State) {
    CommandInvariant(s) && MonitorInvariant(s) && MainInvariant(s) && ActionInvariant(s)
  }

  /** The steps of the command's goroutine and of the child. */
  predicate CommandActs(step: Step) {
    step.CommandStart? || step.CommandAdvance? || step.ChildDies?
  }

  predicate MainActs(step: Step) {
    || step.MainStarted? || step.MainAnnounce? || step.MainDone? || step.MainSignal? || step.MainMonitor?
    || step.MainCancel? || step.MainMonitorDone? || step.MainCommandDone?
  }

  lemma CommandStepByCommand(s: State, step: Step)
    requires CommandInvariant(s) && MainInvariant(s) && Enabled(s, step) && CommandActs(step)
    ensures CommandInvariant(Apply(s, step))
  {
  }

  lemma CommandStepByMain(s: State, step: Step)
    requires CommandInvariant(s) && MainInvariant(s) && Enabled(s, step) && MainActs(step)
    ensures CommandInvariant(Apply(s, step))
  {
  }

  lemma CommandStepByOther(s: State, step: Step)
    requires CommandInvariant(s) && Enabled(s, step) && !CommandActs(step) && !MainActs(step)
    ensures CommandInvariant(Apply(s, step))
  {
  }

  lemma CommandStep(s: State, step: Step)
    requires CommandInvariant(s) && MainInvariant(s) && Enabled(s, step)
    ensures CommandInvariant(Apply(s, step))
  {
    if CommandActs(step) {
      CommandStepByCommand(s, step);
    } else if MainActs(step) {
      CommandStepByMain(s, step);
    } else {
      CommandStepByOther(s, step);
    }
  }

  lemma MonitorStep(s: State, step: Step)
    requires MonitorInvariant(s) && Enabled(s, step)
    ensures MonitorInvariant(Apply(s, step))
  {
  }

  lemma MainStepByMain(s: State, step: Step)
    requires CommandInvariant(s) && MainInvariant(s) && Enabled(s, step) && MainActs(step)
    ensures MainInvariant(Apply(s, step))
  {
  }

  lemma MainStepByOther(s: State, step: Step)
    requires CommandInvariant(s) && MainInvariant(s) && Enabled(s, step) && !MainActs(step)
    ensures MainInvariant(Apply(s, step))
  {
  }

  lemma MainStep(s: State, step: Step)
    requires CommandInvariant(s) && MainInvariant(s) && Enabled(s, step)
    ensures MainInvariant(Apply(s, step))
  {
    if MainActs(step) { MainStepByMain(s, step); } else { MainStepByOther(s, step); }
  }

  /** What a step does to the child: one signal, one group signal, or nothing. */
  lemma StepActs(s: State, step: Step)
    requires Enabled(s, step)
    ensures var s' := Apply(s, step);
      || s'.actions == s.actions
      || (step.MainMonitor? && s.monitorCh.buffered > 0 && s'.actions == s.actions + [GroupTerm])
      || (step.MainSignal? && s.pending.value.OtherSignal? && s'.actions == s.actions + [Forward(s.pending.value)])
  {
  }

  lemma ActionStep(s: State, step: Step)
    requires ActionInvariant(s) && MonitorInvariant(s) && MainInvariant(s) && Enabled(s, step)
    ensures ActionInvariant(Apply(s, step))
  {
    StepActs(s, step);
    if step.MainMonitor? {
      ActionsAppend(s.actions, GroupTerm);
    } else if step.MainSignal? {
      ActionsAppend(s.actions, Forward(s.pending.value));
    }
  }

  lemma StepInvariant(s: State, step: Step)
    requires Invariant(s) && Enabled(s, step)
    ensures Invariant(Apply(s, step))
  {
    CommandStep(s, step);
    MonitorStep(s, step);
    MainStep(s, step);
    ActionStep(s, step);
  }

  lemma {:induction false} RunInvariant(steps: seq<Step>)
    requires Possible(steps)
    ensures Invariant(Run(steps))
  {
    if steps != [] {
      RunInvariant(steps[..|steps| - 1]);
      StepInvariant(Run(steps[..|steps| - 1]), steps[|steps| - 1]);
    }
  }

  // No goroutine is ever blocked for good

  /** In every reachable state a goroutine about to send finds room and an open
      channel, and none is about to close a channel that is closed already. */
  lemma SendsNeverBlock(steps: seq<Step>)
    requires Possible(steps)
    ensures var s := Run(steps);
      && (s.command.SendingStarted? ==> s.startedCh.CanSend())
      && (s.command.SendingDone? ==> s.doneCh.CanSend())
      && (s.monitor.SendingCancelled? || s.monitor.SendingStopped? ==> s.monitorCh.CanSend())
      && (s.main.Announcing? ==> s.announced.CanSend())
      && (s.command.ClosingStarted? ==> !s.startedCh.closed)
      && (s.command.ClosingDone? ==> !s.doneCh.closed)
      && (s.monitor.Closing? ==> !s.monitorCh.closed)
  {
    RunInvariant(steps);
  }

  /** The three channels on which the goroutines meet. */
  datatype Channel = StartedChannel | DoneChannel | MonitorChannel

  predicate IsSend(s: State, step: Step, ch: Channel) {
    match ch
    case StartedChannel => step.CommandAdvance? && s.command.SendingStarted?
    case DoneChannel => step.CommandAdvance? && s.command.SendingDone?
    case MonitorChannel => step.MonitorAdvance? && (s.monitor.SendingCancelled? || s.monitor.SendingStopped?)
  }

  function Sends(steps: seq<Step>, ch: Channel): nat {
    if steps == [] then 0
    else
      var rest := steps[..|steps| - 1];
      Sends(rest, ch) + if IsSend(Run(rest), steps[|steps| - 1], ch) then 1 else 0
  }

  predicate SendDone(s: State, ch: Channel) {
    match ch
    case StartedChannel => CommandPast(s)
    case DoneChannel => s.command.ClosingStarted? || s.command.ClosingDone? || s.command.Finished?
    case MonitorChannel => MonitorEnded(s)
  }

  lemma SendStep(s: State, step: Step, ch: Channel)
    requires Enabled(s, step)
    ensures SendDone(s, ch) ==> SendDone(Apply(s, step), ch) && !IsSend(s, step, ch)
    ensures IsSend(s, step, ch) ==> SendDone(Apply(s, step), ch)
  {
  }

  /** Each channel carries at most one value in a run. */
  lemma {:induction false} OneValuePerChannel(steps: seq<Step>, ch: Channel)
    requires Possible(steps)
    ensures Sends(steps, ch) <= if SendDone(Run(steps), ch) then 1 else 0
  {
    if steps != [] {
      OneValuePerChannel(steps[..|steps| - 1], ch);
      SendStep(Run(steps[..|steps| - 1]), steps[|steps| - 1], ch);
    }
  }

  function MainRank(pc: MainPC): nat {
    match pc
    case AwaitingStarted => 6 case Announcing => 5 case Selecting => 4
    case Cancelling => 3 case AwaitingMonitor => 2 case AwaitingCommand => 1 case Returned => 0
  }

  function CommandRank(pc: CommandPC): nat {
    match pc
    case Starting => 6 case SendingStarted => 5 case WaitingForChild => 4
    case SendingDone => 3 case ClosingStarted => 2 case ClosingDone => 1 case Finished => 0
  }

  function MonitorRank(pc: MonitorPC): nat {
    match pc
    case Subscribing => 5 case AwaitingSigterm => 4 case Polling => 3
    case SendingCancelled => 2 case SendingStopped => 2 case Closing(_) => 1 case Exited(_) => 0
  }

  /** How much is left to do. */
  function Measure(s: State): nat {
    MainRank(s.main) + CommandRank(s.command) + MonitorRank(s.monitor)
  }

  /** No step, of the program or from outside, ever adds to it; in particular
      not the main loop receiving again and again from the closed channel. */
  lemma MeasureNeverGrows(s: State, step: Step)
    requires Enabled(s, step)
    ensures Measure(Apply(s, step)) <= Measure(s)
  {
  }

  predicate Internal(step: Step) {
    !step.Arrives? && !step.ChildDies? && !step.CommandStart? && !step.MonitorPoll?
  }

  /** The program waits for nothing but its child: once the child has exited or
      has failed to start, as long as main has not returned, one of the
      goroutines can take a step that leaves less to do, without any event
      from outside. */
  lemma Progress(s: State) returns (step: Step)
    requires Invariant(s) && !s.main.Returned? && ChildGone(s)
    ensures Advances(step) && Enabled(s, step) && Measure(Apply(s, step)) < Measure(s)
  {
    if !s.command.Finished? { return CommandAdvance; }
    match s.main
    case AwaitingStarted => return MainStarted;
    case Announcing => return MainAnnounce;
    case Selecting => return MainDone;
    case Cancelling => return MainCancel;
    case AwaitingCommand => return MainCommandDone;
    case _ =>
      match s.monitor
      case Subscribing => return MonitorSubscribe;
      case AwaitingSigterm => return MonitorCancelled;
      case Polling => return MonitorCancelled;
      case Exited(_) => return MainMonitorDone;
      case _ => return MonitorAdvance;
  }

  /** The program's steps that move a goroutine on; main's select may otherwise take a
      signal, or receive from the monitor's channel, and be where it was. */
  predicate Advances(step: Step) {
    Internal(step) && !step.MainSignal? && !step.MainMonitor?
  }

  lemma AdvancingLowers(s: State, step: Step)
    requires Enabled(s, step) && Advances(step)
    ensures Measure(Apply(s, step)) < Measure(s)
  {
  }

  /** What a step that leaves as much to do as before may change. */
  predicate Idles(s: State, s': State) {
    && s'.main == s.main && s'.command == s.command && s'.monitor == s.monitor
    && s'.startedCh == s.startedCh && s'.doneCh == s.doneCh && s'.announced == s.announced
        && s'.cancelled == s.cancelled
    && (s.monitorPending ==> s'.monitorPending) && (s.child.Dead? ==> s'.child.Dead?)
    && (s'.monitorCh == s.monitorCh || (s.main.Selecting? && s'.monitorCh == s.monitorCh.Receive()))
  }

  lemma QuietIdles(s: State, other: Step)
    requires Enabled(s, other) && Measure(Apply(s, other)) == Measure(s)
    requires !Advances(other) && !other.CommandStart?
    ensures Idles(s, Apply(s, other))
  {
  }

  lemma StartLowers(s: State, other: Step)
    requires Enabled(s, other) && other.CommandStart?
    ensures Measure(Apply(s, other)) < Measure(s)
  {
  }

  lemma UnloweredIdles(s: State, other: Step)
    requires Enabled(s, other) && Measure(Apply(s, other)) == Measure(s)
    ensures Idles(s, Apply(s, other))
  {
    if Advances(other) {
      AdvancingLowers(s, other);
    } else if other.CommandStart? {
      StartLowers(s, other);
    } else {
      QuietIdles(s, other);
    }
  }

  lemma IdlingKeepsPossible(s: State, s': State, step: Step)
    requires Idles(s, s') && Enabled(s, step) && Advances(step)
    ensures Enabled(s', step)
  {
  }

  /** Such a step stays possible, whatever step is taken instead, of another
      goroutine or of its own, until there is less to do anyway. */
  lemma ProgressPersists(s: State, step: Step, other: Step)
    requires Enabled(s, step) && Advances(step)
    requires Enabled(s, other) && Measure(Apply(s, other)) == Measure(s)
    ensures Enabled(Apply(s, other), step)
  {
    UnloweredIdles(s, other);
    IdlingKeepsPossible(s, Apply(s, other), step);
  }

  predicate ChildGone(s: State) { s.child.Dead? || s.child.FailedToStart? }

  lemma ChildStaysGone(s: State, step: Step)
    requires Invariant(s) && Enabled(s, step) && ChildGone(s)
    ensures ChildGone(Apply(s, step))
  {
  }

  /** The state after more steps, or None if one of them is not possible. */
  function Continue(s: State, more: seq<Step>): Option<State>
    decreases |more|
  {
    if more == [] then Some(s)
    else if !Enabled(s, more[0]) then None
    else Continue(Apply(s, more[0]), more[1..])
  }

  lemma {:induction false} CanReturn(s: State) returns (more: seq<Step>)
    requires Invariant(s) && ChildGone(s)
    ensures |more| <= Measure(s) && forall m :: m in more ==> Internal(m)
    ensures Continue(s, more).Some? && Continue(s, more).value.main.Returned?
    decreases Measure(s)
  {
    more := [];
    if !s.main.Returned? {
      var step := Progress(s);
      StepInvariant(s, step);
      ChildStaysGone(s, step);
      var rest := CanReturn(Apply(s, step));
      more := [step] + rest;
      assert more[0] == step && more[1..] == rest;
    }
  }

  /** So in any possible run, once the child is gone, the program can finish in no
      more steps than there are left to do. */
  lemma CleanupCanReturn(steps: seq<Step>) returns (more: seq<Step>)
    requires Possible(steps) && ChildGone(Run(steps))
    ensures |more| <= Measure(Run(steps)) && forall m :: m in more ==> Internal(m)
    ensures Continue(Run(steps), more).Some? && Continue(Run(steps), more).value.main.Returned?
  {
    RunInvariant(steps);
    more := CanReturn(Run(steps));
  }

  /** The exit code is read only once the child has been waited for: what realRun
      returns is the child's own code, or 1 if there was no child. */
  lemma ExitCode(steps: seq<Step>)
    requires Possible(steps)
    ensures var s := Run(steps); s.result.Some? ==>
      && (s.child.FailedToStart? || s.child.Dead?)
      && s.result.value == if s.child.FailedToStart? then 1 else s.child.code
    ensures Run(steps).main.Returned? ==> Run(steps).result.Some?
  {
    RunInvariant(steps);
  }

  // When Envoy is told to stop

  predicate SeesStopped(step: Step) {
    step.MonitorPoll? && step.meta.Some? && ApplicationsStopped(step.meta.value)
  }

  /** The monitor heard of SIGTERM, and later polled metadata in which every
      application container had stopped. */
  predicate ApplicationsSeenStopped(steps: seq<Step>) {
    exists i, j :: 0 <= i < j < |steps| && steps[i] == MonitorHearsSigterm && SeesStopped(steps[j])
  }

  lemma SeenStill(steps: seq<Step>, step: Step)
    ensures ApplicationsSeenStopped(steps) ==> ApplicationsSeenStopped(steps + [step])
    ensures MonitorHearsSigterm in steps && SeesStopped(step) ==> ApplicationsSeenStopped(steps + [step])
  {
    var longer := steps + [step];
    if ApplicationsSeenStopped(steps) {
      var i, j :| 0 <= i < j < |steps| && steps[i] == MonitorHearsSigterm && SeesStopped(steps[j]);
      assert longer[i] == MonitorHearsSigterm && SeesStopped(longer[j]);
    }
    if MonitorHearsSigterm in steps && SeesStopped(step) {
      var i :| 0 <= i < |steps| && steps[i] == MonitorHearsSigterm;
      assert longer[i] == MonitorHearsSigterm && SeesStopped(longer[|steps|]);
    }
  }

  predicate Heard(m: MonitorPC) { m.Polling? || m.SendingStopped? }

  predicate SawStopped(m: MonitorPC) {
    m.SendingStopped? || ((m.Closing? || m.Exited?) && m.why.AppsStopped?)
  }

  lemma MonitorMoves(s: State, step: Step)
    requires Enabled(s, step)
    ensures Heard(Apply(s, step).monitor) ==> Heard(s.monitor) || step == MonitorHearsSigterm
    ensures SawStopped(Apply(s, step).monitor) ==> SawStopped(s.monitor) || (Heard(s.monitor) && SeesStopped(step))
  {
  }

  lemma {:induction false} MonitorHistory(steps: seq<Step>)
    requires Possible(steps)
    ensures Heard(Run(steps).monitor) ==> MonitorHearsSigterm in steps
    ensures SawStopped(Run(steps).monitor) ==> ApplicationsSeenStopped(steps)
  {
    if steps != [] {
      var rest, step := steps[..|steps| - 1], steps[|steps| - 1];
      MonitorHistory(rest);
      MonitorMoves(Run(rest), step);
      SeenStill(rest, step);
      assert steps == rest + [step];
    }
  }

  /** In every possible run Envoy's process group is sent SIGTERM at most once,
      and only after the monitor heard of SIGTERM and saw every application
      container stopped; the value it sends when cancelled is never taken for
      that. No SIGTERM, SIGCHLD or SIGURG is ever forwarded. */
  lemma GroupTermOnlyAfterStop(steps: seq<Step>)
    requires Possible(steps)
    ensures GroupTerms(Run(steps).actions) <= 1
    ensures GroupTerms(Run(steps).actions) == 1 ==> ApplicationsSeenStopped(steps)
    ensures forall a :: a in Run(steps).actions && a.Forward? ==> a.signal.OtherSignal?
  {
    RunInvariant(steps);
    MonitorHistory(steps);
  }

  /** What a state shows of the monitor having been told of SIGTERM: the signal waits
      in its buffer, or it polls, or it ended after polling. */
  predicate Told(s: State) {
    || s.monitorPending || s.monitor.Polling? || s.monitor.SendingStopped?
    || (MonitorEnded(s) && s.monitor.why != CancelledEarly)
  }

  /** SIGTERM arrives while the monitor waits for it. */
  predicate ArrivesInTime(s: State, step: Step) {
    step == Arrives(SIGTERM) && s.monitor.AwaitingSigterm?
  }

  predicate ArrivedInTime(steps: seq<Step>) {
    exists j :: 0 <= j < |steps| && ArrivesInTime(Run(steps[..j]), steps[j])
  }

  lemma ToldByArrival(s: State, step: Step)
    requires Enabled(s, step)
    ensures Told(Apply(s, step)) <==> Told(s) || ArrivesInTime(s, step)
  {
  }

  lemma InTimeSnoc(steps: seq<Step>, step: Step)
    ensures ArrivedInTime(steps + [step]) <==> ArrivedInTime(steps) || ArrivesInTime(Run(steps), step)
  {
    var longer := steps + [step];
    assert forall j :: 0 <= j <= |steps| ==> longer[..j] == steps[..j];
    assert steps[..|steps|] == steps && longer[|steps|] == step;
    if j :| 0 <= j < |steps| && ArrivesInTime(Run(steps[..j]), steps[j]) {
      assert ArrivesInTime(Run(longer[..j]), longer[j]);
    }
    if ArrivesInTime(Run(steps), step) {
      assert ArrivesInTime(Run(longer[..|steps|]), longer[|steps|]);
    }
    if j :| 0 <= j < |longer| && ArrivesInTime(Run(longer[..j]), longer[j]) {
      assert j < |steps| ==> ArrivesInTime(Run(steps[..j]), steps[j]);
    }
  }

  /** The monitor is told of SIGTERM exactly if one arrives while it waits for it. */
  lemma {:induction false} ToldExactly(steps: seq<Step>)
    requires Possible(steps)
    ensures Told(Run(steps)) <==> ArrivedInTime(steps)
  {
    if steps != [] {
      var rest, step := steps[..|steps| - 1], steps[|steps| - 1];
      ToldExactly(rest);
      ToldByArrival(Run(rest), step);
      InTimeSnoc(rest, step);
      assert steps == rest + [step];
    }
  }

  /** So one that arrives at another time is lost: Envoy is told to stop only if one
      arrived in time, too. */
  lemma GroupTermNeedsArrival(steps: seq<Step>)
    requires Possible(steps) && GroupTerms(Run(steps).actions) > 0
    ensures ArrivedInTime(steps)
  {
    RunInvariant(steps);
    ToldExactly(steps);
  }

  /** A run that loses one: SIGTERM arrives before the monitor has subscribed, main
      takes and ignores it, and with Envoy running everyone waits. Unless another
      SIGTERM arrives the monitor never polls whether the applications have
      stopped, and Envoy is not told to stop. */
  lemma EarlySigtermIsLost() returns (steps: seq<Step>)
    ensures Possible(steps) && Arrives(SIGTERM) in steps && !ArrivedInTime(steps)
    ensures var s := Run(steps); s.child.Running? && s.main.Selecting? && s.pending.None? && s.actions == []
    ensures forall more :: Possible(steps + more) && Arrives(SIGTERM) !in more ==>
      GroupTerms(Run(steps + more).actions) == 0 && !Run(steps + more).monitor.Polling?
  {
    steps := LosingRun();
    ToldExactly(steps);
    forall more | Possible(steps + more) && Arrives(SIGTERM) !in more
      ensures GroupTerms(Run(steps + more).actions) == 0 && !Run(steps + more).monitor.Polling?
    {
      StaysUntold(steps, more);
      UntoldActs(steps + more);
    }
  }

  lemma UntoldActs(steps: seq<Step>)
    requires Possible(steps) && !Told(Run(steps))
    ensures GroupTerms(Run(steps).actions) == 0 && !Run(steps).monitor.Polling?
  {
    RunInvariant(steps);
  }

  /** Envoy has started, the monitor waits for SIGTERM, and main has yet to look at
      the one that came before. */
  const EARLY := INITIAL.(pending := Some(SIGTERM), monitor := AwaitingSigterm,
                          child := Running, command := WaitingForChild, startedCh := Chan(1, false))

  lemma LosingStart() returns (steps: seq<Step>)
    ensures Possible(steps) && Arrives(SIGTERM) in steps && Run(steps) == EARLY
  {
    var s1 := INITIAL.(pending := Some(SIGTERM));
    var s2 := s1.(monitor := AwaitingSigterm);
    var s3 := s2.(child := Running, command := SendingStarted);
    steps := Taken([], INITIAL, Arrives(SIGTERM), s1);
    steps := Taken(steps, s1, MonitorSubscribe, s2);
    steps := Taken(steps, s2, CommandStart(true), s3);
    steps := Taken(steps, s3, CommandAdvance, EARLY);
  }

  lemma LosingRun() returns (steps: seq<Step>)
    ensures Possible(steps) && Arrives(SIGTERM) in steps && !Told(Run(steps))
    ensures var s := Run(steps); s.child.Running? && s.main.Selecting? && s.pending.None? && s.actions == []
  {
    var s1 := EARLY.(startedCh := EMPTY, main := Announcing);
    var s2 := s1.(announced := Chan(1, false), main := Selecting);
    steps := LosingStart();
    steps := Taken(steps, EARLY, MainStarted, s1);
    steps := Taken(steps, s1, MainAnnounce, s2);
    steps := Taken(steps, s2, MainSignal, s2.(pending := None));
  }

  lemma Taken(steps: seq<Step>, s: State, step: Step, s': State) returns (longer: seq<Step>)
    requires Possible(steps) && Run(steps) == s && Enabled(s, step) && s' == Apply(s, step)
    ensures longer == steps + [step] && Possible(longer) && Run(longer) == s'
  {
    longer := steps + [step];
    assert longer[..|longer| - 1] == steps;
  }

  /** Not told, and without another SIGTERM, the monitor stays so. */
  lemma {:induction false} StaysUntold(steps: seq<Step>, more: seq<Step>)
    requires Possible(steps + more) && !Told(Run(steps)) && Arrives(SIGTERM) !in more
    ensures !Told(Run(steps + more))
  {
    if more == [] {
      assert steps + more == steps;
    } else {
      var rest, last := more[..|more| - 1], more[|more| - 1];
      assert (steps + more)[..|steps + more| - 1] == steps + rest;
      assert last in more;
      StaysUntold(steps, rest);
      ToldByArrival(Run(steps + rest), last);
    }
  }
}
