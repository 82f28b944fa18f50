/** The agent's state machine (internal/domain/agent/state.go). */
module Agent {
  datatype State =
    | Starting | Connecting | Authenticating | Registering | Connected
    | Disconnected | Reconnecting | Offline | Error | ShuttingDown

  function Transitions(from: State): set<State> {
    match from
    case Starting => {Connecting, Error, ShuttingDown}
    case Connecting => {Authenticating, Disconnected, Error, ShuttingDown}
    case Authenticating => {Registering, Connected, Disconnected, Error, ShuttingDown}
    case Registering => {Connected, Disconnected, Error, ShuttingDown}
    case Connected => {Disconnected, Error, ShuttingDown}
    case Disconnected => {Reconnecting, Offline, ShuttingDown}
    case Reconnecting => {Connecting, Offline, Error, ShuttingDown}
    case Offline => {Reconnecting, ShuttingDown}
    case Error => {Reconnecting, Offline, ShuttingDown}
    case ShuttingDown => {}
  }

  predicate CanTransition(from: State, to: State) { to in Transitions(from) }

  // Every state but the last leads to SHUTTING_DOWN, which leads nowhere; CONNECTED is entered from
  // AUTHENTICATING and REGISTERING and left for DISCONNECTED, ERROR or SHUTTING_DOWN; CONNECTING is
  // entered from STARTING and RECONNECTING; and ERROR does not lead to DISCONNECTED.
  lemma TableShape(from: State, to: State)
    ensures CanTransition(from, ShuttingDown) <==> from != ShuttingDown
    ensures !CanTransition(ShuttingDown, to) && !CanTransition(from, Starting) && !CanTransition(from, from)
    ensures CanTransition(from, Connected) <==> from == Authenticating || from == Registering
    ensures CanTransition(Connected, to) <==> to == Disconnected || to == Error || to == ShuttingDown
    ensures CanTransition(from, Connecting) <==> from == Starting || from == Reconnecting
    ensures CanTransition(from, Authenticating) <==> from == Connecting
    ensures CanTransition(from, Registering) <==> from == Authenticating
    ensures CanTransition(from, Reconnecting) <==> from == Disconnected || from == Offline || from == Error
    ensures CanTransition(from, Offline) <==> from == Disconnected || from == Reconnecting || from == Error
    ensures CanTransition(from, Disconnected)
         <==> from == Connecting || from == Authenticating || from == Registering || from == Connected
    ensures CanTransition(from, Error)
         <==> from != Disconnected && from != Offline && from != Error && from != ShuttingDown
  {
  }

  // What an observer is told.
  datatype Notice = Notice(observer: string, from: State, to: State)

  function Notices(observers: seq<string>, from: State, to: State): seq<Notice> {
    seq(|observers|, i requires 0 <= i < |observers| => Notice(observers[i], from, to))
  }

  class Machine {
    var current: State
    var observers: seq<string>
    ghost var told: seq<Notice>

    constructor ()
      ensures current == Starting && observers == [] && told == []
    {
      current := Starting;
      observers := [];
      told := [];
    }

    method Subscribe(observer: string)
      modifies this`observers
      ensures observers == old(observers) + [observer]
    {
      observers := observers + [observer];
    }

    // Moves to next if the table allows it and tells every observer once, in the order they
    // subscribed; otherwise stays, tells nobody and reports the refusal.
    method Transition(next: State) returns (ok: bool)
      modifies this
      ensures ok <==> CanTransition(old(current), next)
      ensures current == if ok then next else old(current)
      ensures observers == old(observers)
      ensures told == old(told) + if ok then Notices(observers, old(current), next) else []
      ensures ok ==> |told| == |old(told)| + |observers|
      ensures ok ==> forall i :: 0 <= i < |observers| ==>
                told[|old(told)| + i] == Notice(observers[i], old(current), next)
    {
      var from := current;
      ok := CanTransition(from, next);
      if !ok {
        return;
      }
      current := next;
      for i := 0 to |observers|
        invariant observers == old(observers) && current == next
        invariant told == old(told) + Notices(observers, from, next)[..i]
      {
        told := told + [Notice(observers[i], from, next)];
      }
    }
  }
}
