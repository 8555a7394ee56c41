/** subcommand/app-entrypoint: one goroutine that goes through three select
    loops, forwarding signals to its child. */
module AppEntrypoint {
  import opened Prelude
  import opened Processes

  /** What a select may find ready. A timer that is not set, or has fired, is
      not received from. */
  datatype Event = Received(signal: Signal) | TimerFires | ChildDone(code: int)

  predicate TermSeen(events: seq<Event>) {
    events != [] && (TermSeen(events[..|events| - 1]) || events[|events| - 1] == Received(SIGTERM))
  }

  /** A timer event after the first SIGTERM. */
  predicate DelayOver(events: seq<Event>) {
    events != [] &&
    var before := events[..|events| - 1];
    DelayOver(before) || (TermSeen(before) && events[|events| - 1] == TimerFires)
  }

  lemma {:induction false} DelayNeedsTerm(events: seq<Event>)
    ensures DelayOver(events) ==> TermSeen(events)
  {
    if events != [] { DelayNeedsTerm(events[..|events| - 1]); }
  }

  /** What one event does to the child, from the events before it alone. */
  function Response(before: seq<Event>, e: Event, delay: bool): seq<Action> {
    match e
    case Received(sig) =>
      if sig.SIGCHLD? || sig.SIGURG? || (sig.SIGTERM? && !TermSeen(before)) then [] else [Forward(sig)]
    case TimerFires => if delay && TermSeen(before) && !DelayOver(before) then [GroupTerm] else []
    case ChildDone(_) => []
  }

  /** The reference: one fold over the events. */
  function Responses(events: seq<Event>, delay: bool): seq<Action> {
    if events == [] then []
    else
      var before := events[..|events| - 1];
      Responses(before, delay) + Response(before, events[|events| - 1], delay)
  }

  lemma Snoc(events: seq<Event>, n: nat, delay: bool)
    requires n < |events|
    ensures var before, longer, e := events[..n], events[..n + 1], events[n];
      && Responses(longer, delay) == Responses(before, delay) + Response(before, e, delay)
      && (TermSeen(longer) <==> TermSeen(before) || e == Received(SIGTERM))
      && (DelayOver(longer) <==> DelayOver(before) || (TermSeen(before) && e == TimerFires))
  {
    assert events[..n + 1][..n] == events[..n];
  }

  datatype Exit = Exited(code: int) | NotExited | StillWaiting

  class Command {
    const delay: bool           // whether the shutdown delay is positive
    const events: seq<Event>
    var next: nat               // how many of the events have been received
    var actions: seq<Action>    // what has been done to the child

    constructor (delay: bool, events: seq<Event>)
      ensures this.delay == delay && this.events == events && next == 0 && actions == []
    {
      this.delay, this.events, next, actions := delay, events, 0, [];
    }

    /** Up to here the child runs, and has been dealt with as the fold says. */
    ghost predicate Follows()
      reads this
    {
      && next <= |events| && actions == Responses(events[..next], delay)
      && forall k :: 0 <= k < next ==> !events[k].ChildDone?
    }

    /** The child's exit is the last event received. */
    ghost predicate Ended(code: int)
      reads this
    {
      && 0 < next <= |events| && events[next - 1] == ChildDone(code) && actions == Responses(events[..next - 1], delay)
      && forall k :: 0 <= k < next - 1 ==> !events[k].ChildDone?
    }

    method ForwardSignal(sig: Signal)
      modifies this`actions
      ensures actions == old(actions) + if sig.SIGCHLD? || sig.SIGURG? then [] else [Forward(sig)]
    {
      if !sig.SIGCHLD? && !sig.SIGURG? { actions := actions + [Forward(sig)]; }
    }

    /** One iteration of a select: the next event, and what the fold makes of it. */
    method Receive() returns (e: Event)
      requires Follows() && next < |events|
      modifies this`next
      ensures next == old(next) + 1 && next <= |events| && e == events[old(next)]
      ensures e.ChildDone? ==> Ended(e.code)
      ensures Responses(events[..next], delay) == actions + Response(events[..old(next)], e, delay)
      ensures TermSeen(events[..next]) <==> TermSeen(events[..old(next)]) || e == Received(SIGTERM)
      ensures DelayOver(events[..next]) <==>
        DelayOver(events[..old(next)]) || (TermSeen(events[..old(next)]) && e == TimerFires)
      ensures !e.ChildDone? ==> forall k :: 0 <= k < next ==> !events[k].ChildDone?
    {
      e := events[next];
      Snoc(events, next, delay);
      next := next + 1;
    }

    method WaitForSigterm() returns (exit: Exit)
      requires next == 0 && actions == []
      modifies this
      ensures match exit
        case Exited(code) => Ended(code)
        case NotExited => Follows() && TermSeen(events[..next]) && !DelayOver(events[..next])
        case StillWaiting => Follows() && next == |events|
    {
      while next < |events|
        invariant Follows() && !TermSeen(events[..next])
      {
        DelayNeedsTerm(events[..next]);
        var e := Receive();
        match e
        case ChildDone(code) => return Exited(code);
        case Received(sig) =>
          if sig == SIGTERM { return NotExited; }
          ForwardSignal(sig);
        case TimerFires =>
      }
      return StillWaiting;
    }

    method WaitForShutdownDelay() returns (exit: Exit)
      requires delay && Follows() && TermSeen(events[..next]) && !DelayOver(events[..next])
      modifies this
      ensures !exit.NotExited?
      ensures match exit
        case Exited(code) => Ended(code)
        case _ => Follows() && next == |events|
    {
      var timer := true;
      while next < |events|
        invariant Follows() && TermSeen(events[..next]) && (timer <==> !DelayOver(events[..next]))
      {
        var e := Receive();
        match e
        case ChildDone(code) => return Exited(code);
        case Received(sig) => ForwardSignal(sig);
        case TimerFires =>
          if timer {
            actions := actions + [GroupTerm];
            timer := false;
          }
      }
      return StillWaiting;
    }

    method WaitForAppExit() returns (exit: Exit)
      requires !delay && Follows() && TermSeen(events[..next])
      modifies this
      ensures !exit.NotExited?
      ensures match exit
        case Exited(code) => Ended(code)
        case _ => Follows() && next == |events|
    {
      while next < |events|
        invariant Follows() && TermSeen(events[..next])
      {
        var e := Receive();
        match e
        case ChildDone(code) => return Exited(code);
        case Received(sig) => ForwardSignal(sig);
        case TimerFires =>
      }
      return StillWaiting;
    }

    /** The three loops together do to the child exactly what the fold says, and
        return only when the child is done, with its exit code. */
    method RealRun(started: bool) returns (result: Option<int>)
      requires next == 0 && actions == []
      modifies this
      ensures !started ==> result == Some(1) && actions == []
      ensures started && result.Some? ==> Ended(result.value)
      ensures started && result.None? ==> Follows() && next == |events|
    {
      if !started { return Some(1); }
      var exit := WaitForSigterm();
      if exit.NotExited? {
        // After the delay the process has exited, so this is the last wait.
        if delay { exit := WaitForShutdownDelay(); } else { exit := WaitForAppExit(); }
      }
      return if exit.Exited? then Some(exit.code) else None;
    }
  }

  // What the fold means

  function SignalIn(e: Event): seq<Signal> {
    if e.Received? && !e.signal.SIGCHLD? && !e.signal.SIGURG? then [e.signal] else []
  }

  /** The signals received, without those that concern the entrypoint's own children. */
  function Signals(events: seq<Event>): seq<Signal> {
    if events == [] then []
    else Signals(events[..|events| - 1]) + SignalIn(events[|events| - 1])
  }

  function WithoutFirst(signals: seq<Signal>, sig: Signal): seq<Signal> {
    if signals == [] then []
    else if signals[0] == sig then signals[1..]
    else [signals[0]] + WithoutFirst(signals[1..], sig)
  }

  lemma {:induction false} WithoutFirstSnoc(signals: seq<Signal>, sig: Signal, last: Signal)
    ensures WithoutFirst(signals + [last], sig) ==
      if sig in signals then WithoutFirst(signals, sig) + [last] else if last == sig then signals else signals + [last]
  {
    var longer := signals + [last];
    if signals == [] {
      assert longer[1..] == [];
    } else {
      assert longer[1..] == signals[1..] + [last];
      if signals[0] != sig {
        WithoutFirstSnoc(signals[1..], sig, last);
        assert signals == [signals[0]] + signals[1..];
      }
    }
  }

  lemma {:induction false} WithoutAbsent(signals: seq<Signal>, sig: Signal)
    requires sig !in signals
    ensures WithoutFirst(signals, sig) == signals
  {
    if signals != [] { WithoutAbsent(signals[1..], sig); }
  }

  /** The child gets every signal in the order received, except the first
      SIGTERM and every SIGCHLD and SIGURG. */
  lemma {:induction false} ForwardsAllButFirstTerm(events: seq<Event>, delay: bool)
    ensures Forwarded(Responses(events, delay)) == WithoutFirst(Signals(events), SIGTERM)
    ensures TermSeen(events) <==> SIGTERM in Signals(events)
  {
    if events != [] {
      var before, e := events[..|events| - 1], events[|events| - 1];
      ForwardsAllButFirstTerm(before, delay);
      var response := Response(before, e, delay);
      if response == [] {
        assert Responses(before, delay) + [] == Responses(before, delay);
      } else {
        assert response == [response[0]];
        ForwardedSnoc(Responses(before, delay), response[0]);
      }
      if SignalIn(e) == [] {
        assert Signals(before) + [] == Signals(before);
        assert response == [] || ForwardedIn(response[0]) == [];
      } else {
        WithoutFirstSnoc(Signals(before), SIGTERM, e.signal);
        if SIGTERM !in Signals(before) { WithoutAbsent(Signals(before), SIGTERM); }
      }
    }
  }

  /** The process group is sent SIGTERM exactly once if a delay is set and its
      timer fires while the child runs, and otherwise never. */
  lemma {:induction false} GroupTermOnce(events: seq<Event>, delay: bool)
    ensures GroupTerms(Responses(events, delay)) == if delay && DelayOver(events) then 1 else 0
  {
    if events != [] {
      var before, e := events[..|events| - 1], events[|events| - 1];
      GroupTermOnce(before, delay);
      var response := Response(before, e, delay);
      if response == [] {
        assert Responses(before, delay) + [] == Responses(before, delay);
      } else {
        assert response == [response[0]];
        ActionsAppend(Responses(before, delay), response[0]);
      }
    }
  }

  lemma {:induction false} ActionsCount(actions: seq<Action>)
    ensures |actions| == |Forwarded(actions)| + GroupTerms(actions)
  {
    if actions != [] { ActionsCount(actions[..|actions| - 1]); }
  }

  /** So without a delay a single SIGTERM never reaches the child in any form,
      although the program then waits for the child as if it had been told to exit. */
  lemma SingleTermSwallowedWithoutDelay(events: seq<Event>)
    requires WithoutFirst(Signals(events), SIGTERM) == []
    ensures Responses(events, false) == []
  {
    ForwardsAllButFirstTerm(events, false);
    GroupTermOnce(events, false);
    ActionsCount(Responses(events, false));
  }
}
