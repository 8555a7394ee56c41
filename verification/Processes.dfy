/** Signals, and what the entrypoint commands do to their child process. */
module Processes {
  datatype Signal = SIGTERM | SIGCHLD | SIGURG | OtherSignal(number: int)

  /** A signal forwarded, or SIGTERM sent to the child's whole process group. */
  datatype Action = Forward(signal: Signal) | GroupTerm

  function GroupTerms(actions: seq<Action>): nat {
    if actions == [] then 0
    else GroupTerms(actions[..|actions| - 1]) + if actions[|actions| - 1].GroupTerm? then 1 else 0
  }

  lemma ActionsAppend(actions: seq<Action>, a: Action)
    ensures GroupTerms(actions + [a]) == GroupTerms(actions) + if a.GroupTerm? then 1 else 0
  {
    assert (actions + [a])[..|actions + [a]| - 1] == actions;
  }

  /** The signals forwarded, in order. */
  function Forwarded(actions: seq<Action>): seq<Signal> {
    if actions == [] then []
    else Forwarded(actions[..|actions| - 1]) + ForwardedIn(actions[|actions| - 1])
  }

  function ForwardedIn(a: Action): seq<Signal> {
    match a case Forward(sig) => [sig] case GroupTerm => []
  }

  lemma ForwardedSnoc(actions: seq<Action>, a: Action)
    ensures Forwarded(actions + [a]) == Forwarded(actions) + ForwardedIn(a)
  {
    assert (actions + [a])[..|actions + [a]| - 1] == actions;
  }
}
