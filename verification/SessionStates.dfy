/** How every run of the session drives the state machine. */
module SessionStates {
  import opened Agent
  import opened Numbers
  import opened Store
  import opened Session

  // The state the machine is in after log.
  function MachineOf(log: seq<Obs>): State {
    if log == [] then Starting
    else
      match log[|log| - 1]
      case Moved(_, to) => to
      case Restarted(_, _) => Starting
      case _ => MachineOf(log[..|log| - 1])
  }

  // How often the running process has waited so far.
  function Waits(log: seq<Obs>): nat {
    if log == [] then 0
    else
      match log[|log| - 1]
      case Waited(_) => Waits(log[..|log| - 1]) + 1
      case Restarted(_, _) => 0
      case _ => Waits(log[..|log| - 1])
  }

  // The n-th wait: 2^n seconds, at most a minute.
  function WaitTime(n: nat): nat { if Pow2(n) > 60 then 60 else Pow2(n) }

  ghost predicate EndsWith(log: seq<Obs>, tail: seq<Obs>) {
    |tail| <= |log| && log[|log| - |tail|..] == tail
  }

  // The machine has just come through CONNECTING, AUTHENTICATING and REGISTERING, without a pause.
  ghost predicate JustRegistered(log: seq<Obs>) {
    && EndsWith(log, [Moved(Connecting, Authenticating), Moved(Authenticating, Registering)])
    && (EndsWith(log[..|log| - 2], [Moved(Starting, Connecting)])
        || EndsWith(log[..|log| - 2], [Moved(Reconnecting, Connecting)]))
  }

  // What may be observed after log.
  ghost predicate Allowed(log: seq<Obs>, o: Obs) {
    && (MachineOf(log) == ShuttingDown ==> o.Restarted?)
    && match o
       case Moved(from, to) =>
         from == MachineOf(log) && CanTransition(from, to) && to != Offline && (to == Connected ==> JustRegistered(log))
       case Refused(from, to) =>
         from == Error && to == Disconnected && EndsWith(log, [Moved(Authenticating, Error)])
       case Received(_, _, at) => at == Connected == MachineOf(log)
       case Dispatched(_, _, at) => at == Connected == MachineOf(log)
       case Flushed(_, at) => at == Connected == MachineOf(log)
       case Handled(_) => MachineOf(log) == Connected
       case Delivered(_) => MachineOf(log) == Connected
       case Buffered(_) => MachineOf(log) == Connected
       case Forgot(_) => MachineOf(log) == Connected || (log != [] && log[|log| - 1].Restarted?)
       case Waited(n) => MachineOf(log) == Reconnecting && n == WaitTime(Waits(log))
       case Restarted(_, _) => true
  }

  ghost predicate Disciplined(log: seq<Obs>) {
    forall i :: 0 <= i < |log| ==> Allowed(log[..i], log[i])
  }

  ghost predicate Tracks(w: World) { Disciplined(w.log) && MachineOf(w.log) == w.machine }

  lemma SayDisciplined(log: seq<Obs>, o: Obs)
    requires Disciplined(log) && Allowed(log, o)
    ensures Disciplined(log + [o])
  {
    hide Allowed;
    forall i | 0 <= i < |log| + 1 ensures Allowed((log + [o])[..i], (log + [o])[i]) {
      assert (log + [o])[..i] == log[..i];
      if i < |log| {
        assert Allowed(log[..i], log[i]);
      } else {
        assert log[..i] == log;
      }
    }
  }

  lemma LastSaid(log: seq<Obs>, o: Obs)
    ensures (log + [o])[..|log|] == log && EndsWith(log + [o], [o])
    ensures MachineOf(log + [o]) == if o.Moved? then o.to else if o.Restarted? then Starting else MachineOf(log)
    ensures Waits(log + [o]) == if o.Waited? then Waits(log) + 1 else if o.Restarted? then 0 else Waits(log)
  {
    hide MachineOf, Waits;
    assert (log + [o])[..|log|] == log;
    LastMoved(log, o);
    LastWaited(log, o);
  }

  lemma LastMoved(log: seq<Obs>, o: Obs)
    ensures MachineOf(log + [o]) == if o.Moved? then o.to else if o.Restarted? then Starting else MachineOf(log)
  {
    assert (log + [o])[..|log|] == log;
  }

  lemma LastWaited(log: seq<Obs>, o: Obs)
    ensures Waits(log + [o]) == if o.Waited? then Waits(log) + 1 else if o.Restarted? then 0 else Waits(log)
  {
    assert (log + [o])[..|log|] == log;
  }

  lemma SayTracks(w: World, o: Obs)
    requires Tracks(w) && Allowed(w.log, o) && !o.Moved? && !o.Restarted?
    ensures Tracks(Say(w, o))
    ensures Waits(Say(w, o).log) == if o.Waited? then Waits(w.log) + 1 else Waits(w.log)
  {
    hide Allowed, Disciplined;
    SayDisciplined(w.log, o);
    LastSaid(w.log, o);
  }

  lemma MoveTracks(w: World, s: State)
    requires Tracks(w) && CanTransition(w.machine, s) && s != Offline && (s == Connected ==> JustRegistered(w.log))
    requires w.machine != ShuttingDown
    ensures SetState(w, s) == Say(w.(machine := s), Moved(w.machine, s)) && Tracks(SetState(w, s))
    ensures Waits(SetState(w, s).log) == Waits(w.log)
  {
    hide Disciplined, JustRegistered;
    SayDisciplined(w.log, Moved(w.machine, s));
    LastSaid(w.log, Moved(w.machine, s));
  }

  // ----- while connected -----

  ghost predicate Online(w: World, waits: nat) {
    Tracks(w) && w.machine == Connected && Waits(w.log) == waits
  }

  lemma SayOnline(w: World, o: Obs, waits: nat, w': World)
    requires Online(w, waits) && w'.log == w.log + [o] && w'.machine == w.machine
    requires o.Handled? || o.Delivered? || o.Buffered? || o.Forgot?
        || ((o.Received? || o.Dispatched? || o.Flushed?) && o.at == Connected)
    ensures Online(w', waits)
  {
    hide Disciplined, JustRegistered;
    SayDisciplined(w.log, o);
    LastSaid(w.log, o);
  }

  lemma EmitOnline(w: World, f: Frame, sent: bool, saved: bool, waits: nat)
    requires Online(w, waits)
    ensures Online(EmitResult(w, f, sent, saved), waits)
  {
    hide Online;
    OnlineIs(w, waits);
    SayOnline(w, Handled(f), waits, Say(w, Handled(f)));
    OnlineIs(Say(w, Handled(f)), waits);
    SayOnline(Say(w, Handled(f)), if sent then Delivered(f) else Buffered(f), waits, EmitResult(w, f, sent, saved));
  }

  lemma OnlineIs(w: World, waits: nat)
    requires Online(w, waits)
    ensures w.machine == Connected
  {
  }

  lemma JobOnline(w: World, j: Job, w': World, waits: nat)
    requires Online(w, waits) && HandledJob(w, j, w')
    ensures Online(w', waits)
  {
    hide Online, AnsweredJob;
    OnlineIs(w, waits);
    var v := Say(w, Received(j.id, j.acknowledged, w.machine));
    SayOnline(w, Received(j.id, j.acknowledged, w.machine), waits, v);
    AnswerOnline(v, j, w', waits);
  }

  lemma AnswerOnline(w: World, j: Job, w': World, waits: nat)
    requires Online(w, waits) && AnsweredJob(w, j, w')
    ensures Online(w', waits)
  {
    hide Online, EmitResult, MayDrop;
    if j.id in w.done {
      EmitOnline(w, Completed(j.id), j.sent, j.resultSaved, waits);
    } else {
      OnlineIs(w, waits);
      var v := Say(w, Dispatched(j.id, j.printed, w.machine));
      SayOnline(w, Dispatched(j.id, j.printed, w.machine), waits, v);
      if j.printed {
        var victims :| MayDrop(w.done[j.id := j.now], victims) && w' == Confirmed(v, j, victims);
        SayOnline(v, Forgot(victims), waits, Marked(v, j.id, j.now, victims, j.markSaved));
        EmitOnline(Marked(v, j.id, j.now, victims, j.markSaved), Completed(j.id), j.sent, j.resultSaved, waits);
      } else {
        EmitOnline(v, Failed(j.id), j.sent, j.resultSaved, waits);
      }
    }
  }

  lemma {:induction false} FlushedOnline(w: World, frames: seq<Frame>, waits: nat, w': World)
    requires Online(w, waits) && w'.log == SayFlushed(w.log, frames, Connected) && w'.machine == w.machine
    ensures Online(w', waits)
  {
    hide Disciplined;
    if frames != [] {
      var n := |frames| - 1;
      var v := w.(log := SayFlushed(w.log, frames[..n], Connected));
      FlushedOnline(w, frames[..n], waits, v);
      SayOnline(v, Flushed(frames[n], Connected), waits, w');
    }
  }

  lemma ServedOnline(w: World, inputs: seq<Input>, w': World, waits: nat)
    requires Online(w, waits) && Served(w, inputs, w')
    ensures Online(w', waits)
  {
    hide Online, HandledJob, Served;
    var inv := (v: World) => Online(v, waits);
    forall v, j, v' | inv(v) && HandledJob(v, j, v') ensures inv(v') {
      JobOnline(v, j, v', waits);
    }
    ServedKeeps(inv, j => true, w, inputs, w');
  }

  // ----- a connection attempt -----

  ghost predicate AtRest(s: State) { s == Starting || s == Reconnecting }

  // The states an attempt leaves the machine in.
  ghost predicate AttemptEnd(s: State, killed: bool) {
    s == Disconnected || s == Error || (killed && s == Connected)
  }

  lemma GoneOnline(w: World, a: Attempt)
    requires Tracks(w) && AtRest(w.machine)
    ensures var up := SetState(SetState(SetState(SetState(w, Connecting), Authenticating), Registering), Connected);
            Online(up, Waits(w.log)) && Online(FlushPending(up, a.flushed, a.saves), Waits(w.log))
  {
    hide Disciplined, SayFlushed, Rebuffered, MachineOf, Waits, EndsWith;
    var c := SetState(w, Connecting);
    MoveTracks(w, Connecting);
    var au := SetState(c, Authenticating);
    MoveTracks(c, Authenticating);
    var r := SetState(au, Registering);
    MoveTracks(au, Registering);
    Registered(w.log, w.machine, r.log);
    MoveTracks(r, Connected);
    var up := SetState(r, Connected);
    var k := if a.flushed < |up.pending| then a.flushed else |up.pending|;
    FlushedOnline(up, up.pending[..k], Waits(w.log), FlushPending(up, a.flushed, a.saves));
  }

  lemma Registered(before: seq<Obs>, s: State, log: seq<Obs>)
    requires AtRest(s)
    requires log == before + [Moved(s, Connecting)] + [Moved(Connecting, Authenticating)]
        + [Moved(Authenticating, Registering)]
    ensures JustRegistered(log)
  {
    assert log[..|log| - 2] == before + [Moved(s, Connecting)];
    assert log[|log| - 2..] == [Moved(Connecting, Authenticating), Moved(Authenticating, Registering)];
  }

  lemma RejectedTracks(w: World)
    requires Tracks(w) && w.machine == Authenticating
    ensures var r := SetState(SetState(w, Error), Disconnected);
            Tracks(r) && r.machine == Error && Waits(r.log) == Waits(w.log)
  {
    hide Disciplined, MachineOf, Waits, JustRegistered;
    MoveTracks(w, Error);
    var e := SetState(w, Error);
    LastSaid(w.log, Moved(Authenticating, Error));
    SayTracks(e, Refused(Error, Disconnected));
  }

  lemma AttemptTracks(w: World, a: Attempt, killed: bool, w': World)
    requires Tracks(w) && AtRest(w.machine) && Attempted(w, a, killed, w')
    ensures Tracks(w') && AttemptEnd(w'.machine, killed) && Waits(w'.log) == Waits(w.log)
  {
    hide Disciplined, Served, FlushPending, MachineOf, Waits;
    var c := SetState(w, Connecting);
    MoveTracks(w, Connecting);
    if !a.connected {
      MoveTracks(c, Disconnected);
    } else {
      var au := SetState(c, Authenticating);
      MoveTracks(c, Authenticating);
      if !a.greeted || a.reply.NoReply? {
        MoveTracks(au, Disconnected);
      } else if a.reply.Rejected? {
        RejectedTracks(au);
      } else {
        GoneOnline(w, a);
        var up := FlushPending(SetState(SetState(au, Registering), Connected), a.flushed, a.saves);
        var served :| Served(up, a.inputs, served) && w' == if killed then served else SetState(served, Disconnected);
        ServedOnline(up, a.inputs, served, Waits(w.log));
        if !killed {
          MoveTracks(served, Disconnected);
        }
      }
    }
  }

  // ----- runs -----

  ghost predicate Sound(p: Process) {
    Tracks(p.w) && (p.running ==> AtRest(p.w.machine) && p.backoff == WaitTime(Waits(p.w.log)))
  }

  lemma NextWait(n: nat)
    ensures NextBackoff(WaitTime(n)) == WaitTime(n + 1)
  {
  }

  lemma ReloadTracks(w: World)
    requires Tracks(w)
    ensures Tracks(Reloaded(w)) && Waits(Reloaded(w).log) == 0
  {
    hide Disciplined, MachineOf, Waits, EndsWith;
    var o := Restarted(Disk(w.done, w.pending), w.disk);
    SayDisciplined(w.log, o);
    LastSaid(w.log, o);
    var v := World(Starting, w.disk.done, w.disk.pending, w.disk, w.log + [o]);
    SayTracks(v, Forgot(w.done.Keys - w.disk.done.Keys));
  }

  lemma StepSound(p: Process, s: Step, p': Process)
    requires Sound(p) && Stepped(p, s, p')
    ensures Sound(p')
  {
    hide Tracks, Attempted, SetState, Waits, WaitTime, Reloaded;
    match s
    case Restart =>
      ReloadTracks(p.w);
      FirstWait();
      ReloadedState(p.w);
    case Try(a, ending) =>
      forall w | Attempted(p.w, a, ending.Killed?, w)
        ensures Tracks(w)
        ensures !ending.Killed? ==> Tracks(SetState(w, ShuttingDown))
        ensures !ending.Killed? ==> Tracks(SetState(SetState(w, Reconnecting), ShuttingDown))
        ensures !ending.Killed? ==>
                  var v := Say(SetState(w, Reconnecting), Waited(p.backoff));
                  Tracks(v) && v.machine == Reconnecting && NextBackoff(p.backoff) == WaitTime(Waits(v.log))
      {
        AttemptTracks(p.w, a, ending.Killed?, w);
        if !ending.Killed? {
          EndTracks(w, p.backoff);
        }
      }
  }

  lemma FirstWait()
    ensures WaitTime(0) == 1
  {
  }

  lemma ReloadedState(w: World)
    ensures AtRest(Reloaded(w).machine)
  {
  }

  lemma EndTracks(w: World, backoff: nat)
    requires Tracks(w) && AttemptEnd(w.machine, false) && backoff == WaitTime(Waits(w.log))
    ensures Tracks(SetState(w, ShuttingDown)) && Tracks(SetState(SetState(w, Reconnecting), ShuttingDown))
    ensures var v := Say(SetState(w, Reconnecting), Waited(backoff));
            Tracks(v) && v.machine == Reconnecting && NextBackoff(backoff) == WaitTime(Waits(v.log))
  {
    hide Disciplined, MachineOf, Waits, WaitTime, JustRegistered, NextBackoff;
    MoveTracks(w, ShuttingDown);
    MoveTracks(w, Reconnecting);
    MoveTracks(SetState(w, Reconnecting), ShuttingDown);
    SayTracks(SetState(w, Reconnecting), Waited(backoff));
    NextWait(Waits(w.log));
  }

  lemma {:induction false} RunSound(file: Disk, script: seq<Step>, p: Process)
    requires Runs(Initial(file), script, p)
    ensures Sound(p)
  {
    hide Stepped, Tracks;
    if script == [] {
      InitialSound(file);
    } else {
      var n := |script| - 1;
      var mid :| Runs(Initial(file), script[..n], mid) && Stepped(mid, script[n], p);
      RunSound(file, script[..n], mid);
      StepSound(mid, script[n], p);
    }
  }

  lemma InitialSound(file: Disk)
    ensures Sound(Initial(file))
  {
  }

  // Over any run: the machine moves along declared edges, never to OFFLINE, and enters CONNECTED
  // only straight from CONNECTING, AUTHENTICATING and REGISTERING; the only move ever refused is
  // the one from ERROR to DISCONNECTED right after an authentication was rejected; jobs are
  // dispatched, answered and flushed only in CONNECTED; nothing follows SHUTTING_DOWN but a new
  // process; and the n-th wait of a process takes min(60, 2^n) seconds.
  lemma RunDisciplined(file: Disk, script: seq<Step>, p: Process)
    requires Runs(Initial(file), script, p)
    ensures Disciplined(p.w.log) && MachineOf(p.w.log) == p.w.machine
  {
    hide Runs, Disciplined;
    RunSound(file, script, p);
  }

  // The delay before the next attempt depends on the number of waits of the process alone.
  lemma BackoffNotReset(file: Disk, script: seq<Step>, p: Process)
    requires Runs(Initial(file), script, p) && p.running
    ensures p.backoff == WaitTime(Waits(p.w.log))
  {
    hide Runs, WaitTime, Waits;
    RunSound(file, script, p);
  }

  lemma OneSecond(n: nat)
    ensures WaitTime(n) == 1 <==> n == 0
  {
  }

  // What an attempt that reaches CONNECTED says on the way.
  ghost function WayUp(s: State): seq<Obs> {
    [Moved(s, Connecting), Moved(Connecting, Authenticating), Moved(Authenticating, Registering),
     Moved(Registering, Connected)]
  }

  lemma UpIs(w: World)
    requires AtRest(w.machine)
    ensures Up(w) == w.(machine := Connected, log := w.log + WayUp(w.machine))
  {
    var log := w.log + [Moved(w.machine, Connecting)] + [Moved(Connecting, Authenticating)]
               + [Moved(Authenticating, Registering)] + [Moved(Registering, Connected)];
    assert log == w.log + WayUp(w.machine);
  }

  lemma {:induction false} FlushedExtends(log: seq<Obs>, frames: seq<Frame>, at: State)
    ensures log <= SayFlushed(log, frames, at)
  {
    if frames != [] {
      FlushedExtends(log, frames[..|frames| - 1], at);
    }
  }

  lemma ServedExtends(w: World, inputs: seq<Input>, w': World)
    requires Served(w, inputs, w')
    ensures w.log <= w'.log
  {
    hide Served, HandledJob;
    var inv := (v: World) => w.log <= v.log;
    forall v, j, v' | inv(v) && HandledJob(v, j, v') ensures inv(v') {
      JobExtends(v, j, v');
    }
    ServedKeeps(inv, j => true, w, inputs, w');
  }

  lemma JobExtends(w: World, j: Job, w': World)
    requires HandledJob(w, j, w')
    ensures w.log <= w'.log
  {
    hide MayDrop;
  }

  // The next delay is not reset by a session: after an attempt that came through to CONNECTED the
  // process waits as long as it would have without, and that is one second, as section 6 of
  // docs/protocol/websocket.md wants it, exactly if it had not waited before.
  lemma DelayAfterSession(file: Disk, script: seq<Step>, mid: Process, a: Attempt, p: Process)
    requires Runs(Initial(file), script, mid) && Stepped(mid, Try(a, GoesOn), p)
    requires ComesUp(a)
    ensures mid.w.log + WayUp(mid.w.machine) <= p.w.log && |mid.w.log| + 4 < |p.w.log|
    ensures p.w.log[|p.w.log| - 1] == Waited(WaitTime(Waits(mid.w.log)))
    ensures p.w.log[|p.w.log| - 1] == Waited(1) <==> Waits(mid.w.log) == 0
  {
    hide Runs, Waits, WaitTime, SetState, Served, Tracks, WayUp;
    RunSound(file, script, mid);
    OneSecond(Waits(mid.w.log));
    var s := Try(a, GoesOn);
    var w :| Attempted(mid.w, s.attempt, s.ending.Killed?, w)
             && p == Process(Say(SetState(w, Reconnecting), Waited(mid.backoff)), true, NextBackoff(mid.backoff));
    UpIs(mid.w);
    var up := FlushPending(Up(mid.w), a.flushed, a.saves);
    var served :| Served(up, a.inputs, served) && w == SetState(served, Disconnected);
    ServedExtends(up, a.inputs, served);
    var k := if a.flushed < |mid.w.pending| then a.flushed else |mid.w.pending|;
    FlushedExtends(Up(mid.w).log, mid.w.pending[..k], Connected);
    StateExtends(served, Disconnected);
    StateExtends(w, Reconnecting);
    FourLong(mid.w.machine);
  }

  lemma StateExtends(w: World, s: State)
    ensures w.log <= SetState(w, s).log
  {
  }

  lemma FourLong(s: State)
    ensures |WayUp(s)| == 4
  {
  }

  // What an attempt says and does: one that fails moves the machine as far as it got and touches
  // nothing else; one that comes up starts with the whole way to CONNECTED.
  lemma AttemptSays(w: World, a: Attempt, killed: bool, w': World)
    requires AtRest(w.machine) && Attempted(w, a, killed, w')
    ensures ComesUp(a) ==> w.log + WayUp(w.machine) <= w'.log
    ensures !ComesUp(a) ==>
              var said := if !a.connected then [Moved(w.machine, Connecting), Moved(Connecting, Disconnected)]
                          else [Moved(w.machine, Connecting), Moved(Connecting, Authenticating)]
                               + if a.greeted && a.reply.Rejected?
                                 then [Moved(Authenticating, Error), Refused(Error, Disconnected)]
                                 else [Moved(Authenticating, Disconnected)];
              var rejected := a.connected && a.greeted && a.reply.Rejected?;
              w' == w.(log := w.log + said, machine := if rejected then Error else Disconnected)
  {
    hide Served, WayUp, Up;
    if ComesUp(a) {
      UpIs(w);
      UpWay(w, a);
      var up := FlushPending(Up(w), a.flushed, a.saves);
      var k := if a.flushed < |w.pending| then a.flushed else |w.pending|;
      FlushedExtends(Up(w).log, w.pending[..k], Connected);
      var served :| Served(up, a.inputs, served) && w' == if killed then served else SetState(served, Disconnected);
      ServedExtends(up, a.inputs, served);
    }
  }

  lemma UpWay(w: World, a: Attempt)
    ensures Up(w) == SetState(SetState(SetState(SetState(w, Connecting), Authenticating), Registering), Connected)
  {
    hide SetState;
  }

  // What follows an attempt: nothing if the process is killed, SHUTTING_DOWN if it is cancelled,
  // and otherwise RECONNECTING and the wait.
  lemma StepSays(file: Disk, script: seq<Step>, mid: Process, a: Attempt, ending: Ending, p: Process)
    returns (w: World)
    requires Runs(Initial(file), script, mid) && Stepped(mid, Try(a, ending), p)
    ensures AtRest(mid.w.machine) && Attempted(mid.w, a, ending.Killed?, w)
    ensures p.w.log == w.log + match ending
                               case Killed => []
                               case CancelledDuring => [Moved(w.machine, ShuttingDown)]
                               case CancelledWaiting =>
                                 [Moved(w.machine, Reconnecting), Moved(Reconnecting, ShuttingDown)]
                               case GoesOn => [Moved(w.machine, Reconnecting), Waited(WaitTime(Waits(mid.w.log)))]
    ensures p.running <==> ending.GoesOn?
    ensures p.w.done == w.done && p.w.pending == w.pending && p.w.disk == w.disk
  {
    hide Runs, Waits, WaitTime, Served, Tracks, Attempted;
    RunSound(file, script, mid);
    w :| Attempted(mid.w, a, ending.Killed?, w)
         && p == match ending
                 case Killed => Process(w, false, mid.backoff)
                 case CancelledDuring => Process(SetState(w, ShuttingDown), false, mid.backoff)
                 case CancelledWaiting =>
                   Process(SetState(SetState(w, Reconnecting), ShuttingDown), false, mid.backoff)
                 case GoesOn =>
                   Process(Say(SetState(w, Reconnecting), Waited(mid.backoff)), true, NextBackoff(mid.backoff));
    AttemptTracks(mid.w, a, ending.Killed?, w);
  }
}
