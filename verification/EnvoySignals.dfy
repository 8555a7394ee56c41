/** The signals that envoy-entrypoint receives, and what becomes of them: realRun's
    select and handleSignal. */
module EnvoySignals {
  import opened Prelude
  import opened Processes
  import opened EnvoyEntrypoint
  import opened EnvoyRuns

  function Waiting(s: State): seq<Signal> {
    if s.pending.Some? then [s.pending.value] else []
  }

  /** The signals that main has taken from its channel. */
  function Received(steps: seq<Step>): seq<Signal> {
    if steps == [] then []
    else
      var rest := steps[..|steps| - 1];
      Received(rest) + if steps[|steps| - 1].MainSignal? then Waiting(Run(rest)) else []
  }

  /** The signals that came while main was subscribed and its buffer empty. */
  function Delivered(steps: seq<Step>): seq<Signal> {
    if steps == [] then []
    else
      var rest, step := steps[..|steps| - 1], steps[|steps| - 1];
      Delivered(rest)
      + if step.Arrives? && MainSubscribed(Run(rest)) && Run(rest).pending.None? then [step.signal] else []
  }

  /** Those that concern neither shutting down nor the entrypoint itself. */
  function Others(signals: seq<Signal>): seq<Signal> {
    if signals == [] then []
    else
      var last := signals[|signals| - 1];
      Others(signals[..|signals| - 1]) + if last == SIGTERM || last == SIGCHLD || last == SIGURG then [] else [last]
  }

  lemma OthersSnoc(signals: seq<Signal>, sig: Signal)
    ensures Others(signals + [sig]) == Others(signals) + if sig.OtherSignal? then [sig] else []
  {
    assert (signals + [sig])[..|signals + [sig]| - 1] == signals;
  }

  lemma SignalActs(s: State)
    requires Enabled(s, MainSignal)
    ensures Apply(s, MainSignal).actions ==
      s.actions + if s.pending.value.OtherSignal? then [Forward(s.pending.value)] else []
  {
  }

  lemma OtherActs(s: State, step: Step)
    requires Enabled(s, step) && !step.MainSignal?
    ensures Apply(s, step).actions == s.actions || Apply(s, step).actions == s.actions + [GroupTerm]
  {
  }

  lemma StepForwards(s: State, step: Step)
    requires Enabled(s, step)
    ensures Forwarded(Apply(s, step).actions) ==
      Forwarded(s.actions) + if step.MainSignal? && s.pending.value.OtherSignal? then [s.pending.value] else []
  {
    assert Forwarded(s.actions) + [] == Forwarded(s.actions) && s.actions + [] == s.actions;
    if step.MainSignal? {
      SignalActs(s);
      ForwardedSnoc(s.actions, Forward(s.pending.value));
    } else {
      OtherActs(s, step);
      ForwardedSnoc(s.actions, GroupTerm);
    }
  }

  /** Envoy is sent every signal that main receives, in order, but SIGTERM, SIGCHLD and
      SIGURG. */
  lemma {:induction false} ForwardsExactly(steps: seq<Step>)
    requires Possible(steps)
    ensures Forwarded(Run(steps).actions) == Others(Received(steps))
  {
    if steps != [] {
      var rest, step := steps[..|steps| - 1], steps[|steps| - 1];
      ForwardsExactly(rest);
      StepForwards(Run(rest), step);
      if step.MainSignal? {
        OthersSnoc(Received(rest), Run(rest).pending.value);
      } else {
        assert Received(rest) + [] == Received(rest);
      }
    }
  }

  lemma StepWaits(s: State, step: Step)
    requires Enabled(s, step)
    ensures (if step.MainSignal? then Waiting(s) else []) + Waiting(Apply(s, step)) ==
      Waiting(s) + if step.Arrives? && MainSubscribed(s) && s.pending.None? then [step.signal] else []
  {
  }

  /** Main receives every signal that finds room in its channel, in order; at most the
      last of them still waits. */
  lemma {:induction false} ReceivesExactly(steps: seq<Step>)
    requires Possible(steps)
    ensures Received(steps) + Waiting(Run(steps)) == Delivered(steps)
  {
    if steps != [] {
      var rest, step := steps[..|steps| - 1], steps[|steps| - 1];
      var s, s' := Run(rest), Run(steps);
      ReceivesExactly(rest);
      StepWaits(s, step);
      var taken := if step.MainSignal? then Waiting(s) else [];
      var came := if step.Arrives? && MainSubscribed(s) && s.pending.None? then [step.signal] else [];
      assert Received(rest) + taken + Waiting(s') == Received(rest) + (taken + Waiting(s'));
      assert Received(rest) + (Waiting(s) + came) == Received(rest) + Waiting(s) + came;
    }
  }

  /** How often this signal has been forwarded. */
  function Times(actions: seq<Action>, sig: Signal): nat {
    multiset(actions)[Forward(sig)]
  }

  lemma StepTimes(s: State, step: Step, sig: Signal)
    requires Enabled(s, step)
    ensures Times(Apply(s, step).actions, sig) ==
      Times(s.actions, sig) + if step.MainSignal? && s.pending == Some(sig) && sig.OtherSignal? then 1 else 0
  {
    StepActs(s, step);
  }

  /** In every fair run a signal that waits for main in its select is forwarded to
      Envoy, unless main leaves the select first. */
  lemma WaitingIsForwarded(st: nat -> State, run: nat -> Step, i: nat, sig: Signal) returns (j: nat)
    requires Follows(st, run) && Fair(st, run)
    requires st(i).main.Selecting? && st(i).pending == Some(sig) && sig.OtherSignal?
    ensures j > i && (!st(j).main.Selecting? || Times(st(j).actions, sig) > Times(st(i).actions, sig))
  {
    var n := Times(st(i).actions, sig);
    var p := (s: State) => s.main.Selecting? && s.pending == Some(sig) && Times(s.actions, sig) >= n;
    var q := (s: State) => !s.main.Selecting? || Times(s.actions, sig) > n;
    forall s, step | p(s) && Enabled(s, step) ensures p(Apply(s, step)) || q(Apply(s, step)) {
      StepTimes(s, step, sig);
    }
    forall s | p(s) ensures Enabled(s, MainSignal) && q(Apply(s, MainSignal)) {
      StepTimes(s, MainSignal, sig);
    }
    j := LeadsTo(st, run, p, q, MainSignal, i);
  }
}
