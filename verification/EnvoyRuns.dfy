/** Runs of envoy-entrypoint that never end: what a fair scheduler makes of the
    goroutines of EnvoyEntrypoint. */
module EnvoyRuns {
  import opened Prelude
  import opened TaskMetadata
  import opened Processes
  import opened EnvoyEntrypoint

  /** The states of an infinite run from s, and the run itself. */
  ghost predicate Follows(st: nat -> State, run: nat -> Step) {
    forall i: nat :: Enabled(st(i), run(i)) && st(i + 1) == Apply(st(i), run(i))
  }

  /** The step is taken at some time from i on, or found impossible. */
  ghost predicate Served(st: nat -> State, run: nat -> Step, step: Step, i: nat) {
    exists j: nat :: j >= i && (run(j) == step || !Enabled(st(j), step))
  }

  /** No step of the program is kept waiting for ever while it is possible. */
  ghost predicate Fair(st: nat -> State, run: nat -> Step) {
    forall step, i: nat :: Internal(step) ==> Served(st, run, step, i)
  }

  /** What every step keeps holds from then on. */
  lemma {:induction false} Onward(st: nat -> State, run: nat -> Step, kept: State -> bool, i: nat, j: nat)
    requires Follows(st, run) && i <= j && kept(st(i))
    requires forall s, step :: kept(s) && Enabled(s, step) ==> kept(Apply(s, step))
    ensures kept(st(j))
    decreases j - i
  {
    if i < j {
      Onward(st, run, kept, i, j - 1);
      assert st(j - 1 + 1) == Apply(st(j - 1), run(j - 1));
    }
  }

  lemma InvariantOnward(st: nat -> State, run: nat -> Step, i: nat, j: nat)
    requires Follows(st, run) && i <= j && Invariant(st(i))
    ensures Invariant(st(j))
    ensures ChildGone(st(i)) ==> ChildGone(st(j))
  {
    forall s, step | Invariant(s) && Enabled(s, step) ensures Invariant(Apply(s, step)) {
      StepInvariant(s, step);
    }
    Onward(st, run, s => Invariant(s), i, j);
    if ChildGone(st(i)) {
      forall s, step | Invariant(s) && ChildGone(s) && Enabled(s, step) ensures ChildGone(Apply(s, step)) {
        ChildStaysGone(s, step);
      }
      Onward(st, run, s => Invariant(s) && ChildGone(s), i, j);
    }
  }

  lemma MeasureOnward(st: nat -> State, run: nat -> Step, i: nat, j: nat)
    requires Follows(st, run) && i <= j
    ensures Measure(st(j)) <= Measure(st(i))
  {
    var m := Measure(st(i));
    forall s, step | Measure(s) <= m && Enabled(s, step) ensures Measure(Apply(s, step)) <= m {
      MeasureNeverGrows(s, step);
    }
    Onward(st, run, s => Measure(s) <= m, i, j);
  }

  /** As long as there is no less to do, an advancing step stays possible. */
  lemma StillPossible(st: nat -> State, run: nat -> Step, step: Step, i: nat, j: nat)
    requires Follows(st, run) && i <= j && Enabled(st(i), step) && Advances(step)
    requires Measure(st(j)) == Measure(st(i))
    ensures Enabled(st(j), step)
  {
    var m := Measure(st(i));
    var kept := (s: State) => Measure(s) < m || (Measure(s) == m && Enabled(s, step));
    forall s, other | kept(s) && Enabled(s, other) ensures kept(Apply(s, other)) {
      PossibleOrLess(s, step, other, m);
    }
    Onward(st, run, kept, i, j);
  }

  lemma PossibleOrLess(s: State, step: Step, other: Step, m: nat)
    requires Measure(s) < m || (Measure(s) == m && Enabled(s, step))
    requires Advances(step) && Enabled(s, other)
    ensures Measure(Apply(s, other)) < m || (Measure(Apply(s, other)) == m && Enabled(Apply(s, other), step))
  {
    MeasureNeverGrows(s, other);
    if Measure(Apply(s, other)) == m { ProgressPersists(s, step, other); }
  }

  /** A fair run gets on: at some later time there is less to do. */
  lemma GetsOn(st: nat -> State, run: nat -> Step, i: nat) returns (j: nat)
    requires Follows(st, run) && Fair(st, run)
    requires Invariant(st(i)) && ChildGone(st(i)) && !st(i).main.Returned?
    ensures j > i && Measure(st(j)) < Measure(st(i))
  {
    var step := Progress(st(i));
    assert Served(st, run, step, i);
    var k: nat :| k >= i && (run(k) == step || !Enabled(st(k), step));
    MeasureOnward(st, run, i, k);
    j := k;
    if Measure(st(k)) == Measure(st(i)) {
      StillPossible(st, run, step, i, k);
      AdvancingLowers(st(k), step);
      j := k + 1;
      assert st(k + 1) == Apply(st(k), run(k));
    }
  }

  /** Cleanup returns: in every fair run, whatever the scheduler and the outside do,
      once the child has exited or has failed to start, main returns. In
      particular receiving again and again from the monitor's closed channel does
      not keep it from seeing that the child is done. */
  lemma {:induction false} CleanupReturns(st: nat -> State, run: nat -> Step, i: nat) returns (k: nat)
    requires Follows(st, run) && Fair(st, run) && Invariant(st(i)) && ChildGone(st(i))
    ensures k >= i && st(k).main.Returned?
    decreases Measure(st(i))
  {
    if st(i).main.Returned? { return i; }
    var j := GetsOn(st, run, i);
    InvariantOnward(st, run, i, j);
    k := CleanupReturns(st, run, j);
  }

  /** The same from the program's start. */
  lemma FairRunsReturn(st: nat -> State, run: nat -> Step, i: nat) returns (k: nat)
    requires st(0) == INITIAL && Follows(st, run) && Fair(st, run) && ChildGone(st(i))
    ensures k >= i && st(k).main.Returned?
  {
    InvariantOnward(st, run, 0, i);
    k := CleanupReturns(st, run, i);
  }

  // Envoy is told to stop

  /** The rule that the next proofs follow: as long as p holds a step is possible, all
      other steps keep p or bring about q, and the step itself brings about q. In a
      fair run p then leads to q. */
  lemma LeadsTo(st: nat -> State, run: nat -> Step, p: State -> bool, q: State -> bool, due: Step, i: nat)
      returns (j: nat)
    requires Follows(st, run) && Fair(st, run) && p(st(i)) && Internal(due)
    requires forall s :: p(s) ==> Enabled(s, due) && q(Apply(s, due))
    requires forall s, other :: p(s) && Enabled(s, other) ==> p(Apply(s, other)) || q(Apply(s, other))
    ensures j > i && q(st(j))
  {
    assert Served(st, run, due, i);
    var k: nat :| k >= i && (run(k) == due || !Enabled(st(k), due));
    forall m: nat | p(st(m)) ensures p(st(m + 1)) || q(st(m + 1)) {
      assert Enabled(st(m), run(m)) && st(m + 1) == Apply(st(m), run(m));
    }
    if p(st(k)) {
      assert Enabled(st(k), run(k)) && st(k + 1) == Apply(st(k), run(k));
    }
    j := SomeTime((m: nat) => p(st(m)), (m: nat) => q(st(m)), i, k);
  }

  /** p holds until q does, and if it still does at k then q holds next. */
  lemma SomeTime(p: nat -> bool, q: nat -> bool, i: nat, k: nat) returns (j: nat)
    requires p(i) && i <= k && (p(k) ==> q(k + 1))
    requires forall m: nat :: p(m) ==> p(m + 1) || q(m + 1)
    ensures j > i && q(j)
  {
    j := i;
    while j < k
      invariant i <= j <= k && p(j)
    {
      j := j + 1;
      if !p(j) { return; }
    }
    j := k + 1;
  }

  /** The monitor's "stopped" value is on its way or has arrived, unless main has gone
      on to clean up. */
  predicate Delivers(s: State) {
    (MonitorEnded(s) && s.monitor.why.AppsStopped?) ==>
      (s.monitorCh.buffered == 1 || GroupTerms(s.actions) > 0 || s.main.AwaitingCommand? || s.main.Returned?)
  }

  /** What a step does to the monitor's value and to the actions. */
  lemma ValueMoves(s: State, step: Step)
    requires Invariant(s) && Enabled(s, step)
    ensures var s' := Apply(s, step);
      && (s'.monitorCh.buffered == s.monitorCh.buffered
          || step.MonitorAdvance? || step.MainMonitor? || step.MainMonitorDone?)
      && (step.MainMonitorDone? ==> s'.main.AwaitingCommand?)
      && (s.main.AwaitingCommand? || s.main.Returned? ==> s'.main.AwaitingCommand? || s'.main.Returned?)
      && (step.MonitorAdvance? && s.monitor.SendingStopped? ==> s'.monitorCh.buffered == 1)
      && (MonitorEnded(s') && s'.monitor.why.AppsStopped? ==>
            (MonitorEnded(s) && s.monitor.why.AppsStopped?) || (step.MonitorAdvance? && s.monitor.SendingStopped?))
  {
  }

  lemma TermsStay(s: State, step: Step)
    requires Enabled(s, step)
    ensures var s' := Apply(s, step);
      && GroupTerms(s'.actions) >= GroupTerms(s.actions)
      && (step.MainMonitor? && s.monitorCh.buffered > 0 ==> GroupTerms(s'.actions) > 0)
      && (step.MainMonitor? && s.monitorCh.buffered == 0 ==> s'.monitorCh.buffered == 0)
  {
    StepActs(s, step);
    ActionsAppend(s.actions, GroupTerm);
    if step.MainSignal? { ActionsAppend(s.actions, Forward(s.pending.value)); }
  }

  lemma ClosingKeepsValue(s: State, step: Step)
    requires step.MonitorAdvance? && MonitorEnded(s) && Enabled(s, step)
    ensures Apply(s, step).monitorCh.buffered == s.monitorCh.buffered
  {
  }

  lemma DeliversStep(s: State, step: Step)
    requires Delivers(s) && Invariant(s) && Enabled(s, step)
    ensures Delivers(Apply(s, step))
  {
    ValueMoves(s, step);
    TermsStay(s, step);
    if step.MonitorAdvance? && MonitorEnded(s) { ClosingKeepsValue(s, step); }
  }

  /** Envoy runs, and the monitor has seen the applications stopped. */
  predicate Stopping(s: State) {
    Invariant(s) && Delivers(s) && s.child.Running? && SawStopped(s.monitor)
  }

  /** Envoy's process group has been sent SIGTERM, or Envoy has exited. */
  predicate Stopped(s: State) { GroupTerms(s.actions) > 0 || ChildGone(s) }

  /** The step on which it depends. */
  function Due(s: State): Step {
    if s.command.SendingStarted? then CommandAdvance
    else if s.main.AwaitingStarted? then MainStarted
    else if s.main.Announcing? then MainAnnounce
    else if s.monitor.SendingStopped? then MonitorAdvance
    else MainMonitor
  }

  lemma DueEnabled(s: State)
    requires Stopping(s) && !Stopped(s)
    ensures Enabled(s, Due(s)) && Internal(Due(s))
  {
  }

  lemma DueWorks(s: State)
    requires Stopping(s) && !Stopped(s) && Enabled(s, Due(s))
    ensures Stopped(Apply(s, Due(s))) || Measure(Apply(s, Due(s))) < Measure(s)
  {
    if Due(s).MainMonitor? { ActionsAppend(s.actions, GroupTerm); } else { AdvancingLowers(s, Due(s)); }
  }

  lemma StoppingStays(s: State, step: Step)
    requires Stopping(s) && Enabled(s, step)
    ensures Stopping(Apply(s, step)) || Stopped(Apply(s, step))
  {
    StepInvariant(s, step);
    DeliversStep(s, step);
    StaysSeen(s, step);
  }

  lemma StaysSeen(s: State, step: Step)
    requires CommandInvariant(s) && Enabled(s, step) && s.child.Running? && SawStopped(s.monitor)
    ensures SawStopped(Apply(s, step).monitor) && (Apply(s, step).child.Running? || Apply(s, step).child.Dead?)
  {
  }

  lemma DueStays(s: State, step: Step)
    requires Enabled(s, step) && Measure(Apply(s, step)) == Measure(s)
    ensures Due(Apply(s, step)) == Due(s)
  {
    UnloweredIdles(s, step);
  }

  /** Where it has not come to that, it gets nearer. */
  lemma GetsNearer(st: nat -> State, run: nat -> Step, i: nat) returns (j: nat)
    requires Follows(st, run) && Fair(st, run) && Stopping(st(i)) && !Stopped(st(i))
    ensures j > i && (Stopped(st(j)) || (Stopping(st(j)) && Measure(st(j)) < Measure(st(i))))
  {
    var m, due := Measure(st(i)), Due(st(i));
    var p := (s: State) => Stopping(s) && !Stopped(s) && Measure(s) == m && Due(s) == due;
    var q := (s: State) => Stopped(s) || (Stopping(s) && Measure(s) < m);
    forall s | p(s) ensures Enabled(s, due) && q(Apply(s, due)) {
      DueEnabled(s);
      DueWorks(s);
      StoppingStays(s, due);
    }
    forall s, other | p(s) && Enabled(s, other) ensures p(Apply(s, other)) || q(Apply(s, other)) {
      StoppingStays(s, other);
      MeasureNeverGrows(s, other);
      if Measure(Apply(s, other)) == m { DueStays(s, other); }
    }
    DueEnabled(st(i));
    j := LeadsTo(st, run, p, q, due, i);
  }

  lemma {:induction false} StoppingStops(st: nat -> State, run: nat -> Step, i: nat) returns (k: nat)
    requires Follows(st, run) && Fair(st, run) && Stopping(st(i))
    ensures k >= i && Stopped(st(k))
    decreases Measure(st(i))
  {
    if Stopped(st(i)) { return i; }
    var j := GetsNearer(st, run, i);
    if Stopped(st(j)) { return j; }
    k := StoppingStops(st, run, j);
  }

  lemma DeliversOnward(st: nat -> State, run: nat -> Step, j: nat)
    requires Follows(st, run) && st(0) == INITIAL
    ensures Invariant(st(j)) && Delivers(st(j))
  {
    forall s, step | Invariant(s) && Delivers(s) && Enabled(s, step)
      ensures Invariant(Apply(s, step)) && Delivers(Apply(s, step))
    {
      StepInvariant(s, step);
      DeliversStep(s, step);
    }
    Onward(st, run, s => Invariant(s) && Delivers(s), 0, j);
  }

  /** In every fair run: once the monitor has seen every application container stopped
      while Envoy runs, Envoy's process group is sent SIGTERM, or Envoy exits. */
  lemma StoppedApplicationsStopEnvoy(st: nat -> State, run: nat -> Step, i: nat) returns (k: nat)
    requires st(0) == INITIAL && Follows(st, run) && Fair(st, run)
    requires st(i).child.Running? && SeesStopped(run(i))
    ensures k > i && Stopped(st(k))
  {
    DeliversOnward(st, run, i + 1);
    assert Enabled(st(i), run(i)) && st(i + 1) == Apply(st(i), run(i));
    k := StoppingStops(st, run, i + 1);
  }

  /** And a SIGTERM that arrives while the monitor waits for it makes it poll, unless
      it is cancelled first. */
  lemma ArrivalLeadsToPolling(st: nat -> State, run: nat -> Step, i: nat) returns (k: nat)
    requires Follows(st, run) && Fair(st, run) && ArrivesInTime(st(i), run(i))
    ensures k > i && (st(k).monitor.Polling? || st(k).cancelled)
  {
    var p := (s: State) => s.monitor.AwaitingSigterm? && s.monitorPending;
    var q := (s: State) => s.monitor.Polling? || s.cancelled;
    forall s, other | p(s) && Enabled(s, other) ensures p(Apply(s, other)) || q(Apply(s, other)) {}
    assert Enabled(st(i), run(i)) && st(i + 1) == Apply(st(i), run(i));
    k := LeadsTo(st, run, p, q, MonitorHearsSigterm, i + 1);
  }
}
