/**
 Runs that show what the session does not promise: a frame lost and a frame repeated by a restart
 after a failed write, a job printed twice, and a delay that a session does not reset.
 */
module SessionWitness {
  import opened Agent
  import opened Store
  import opened Session
  import opened SessionLedger
  import opened SessionStates

  const EMPTY: Disk := Disk(map[], [])

  // Sessions that handle nothing, or one job, before the process is killed.
  const QUIET: Attempt := Attempt(true, true, Accepted, 1, [], [])
  const QUIET_UNSAVED: Attempt := Attempt(true, true, Accepted, 1, [false], [])

  function Busy(j: Job): Attempt { Attempt(true, true, Accepted, 0, [], [JobFrame(j)]) }

  lemma StepKilled(p: Process, a: Attempt, w': World)
    requires p.running && Attempted(p.w, a, true, w')
    ensures Stepped(p, Try(a, Killed), Process(w', false, p.backoff))
  {
    hide Attempted;
    var s := Try(a, Killed);
    assert Attempted(p.w, s.attempt, s.ending.Killed?, w');
  }

  lemma KilledQuiet(p: Process, a: Attempt)
    requires p.running && ComesUp(a) && a.inputs == []
    ensures Stepped(p, Try(a, Killed), Process(FlushPending(Up(p.w), a.flushed, a.saves), false, p.backoff))
  {
    hide SetState, FlushPending, Stepped;
    var up := FlushPending(Up(p.w), a.flushed, a.saves);
    assert Served(up, a.inputs, up);
    StepKilled(p, a, up);
  }

  lemma KilledBusy(p: Process, j: Job, w': World)
    requires p.running && HandledJob(FlushPending(Up(p.w), 0, []), j, w')
    ensures Stepped(p, Try(Busy(j), Killed), Process(w', false, p.backoff))
  {
    hide SetState, FlushPending, HandledJob, Stepped;
    var up := FlushPending(Up(p.w), 0, []);
    var inputs := [JobFrame(j)];
    assert inputs[..0] == [];
    assert Served(up, [], up) && HandledInput(up, JobFrame(j), w');
    assert Served(up, inputs, w');
    StepKilled(p, Busy(j), w');
  }

  // A script of one or more steps, each from where the one before led.
  lemma TwoSteps(p: Process, s: Step, mid: Process, t: Step, q: Process)
    requires Stepped(p, s, mid) && Stepped(mid, t, q)
    ensures Runs(p, [s, t], q)
  {
    hide Stepped;
    assert [] + [s] == [s] && [s] + [t] == [s, t];
    RunsThen(p, [], p, s, mid);
    RunsThen(p, [s], mid, t, q);
  }

  lemma ThreeSteps(p: Process, s: Step, m: Process, t: Step, n: Process, u: Step, q: Process)
    requires Stepped(p, s, m) && Stepped(m, t, n) && Stepped(n, u, q)
    ensures Runs(p, [s, t, u], q)
  {
    hide Stepped, Runs;
    TwoSteps(p, s, m, t, n);
    assert [s, t] + [u] == [s, t, u];
    RunsThen(p, [s, t], n, u, q);
  }

  // ----- a frame lost -----

  // The print fails, the result cannot be sent, and writing the buffer fails.
  const UNLUCKY: Job := Job("a", true, false, false, 0, true, false)
  const LOSING: seq<Step> := [Try(Busy(UNLUCKY), Killed), Restart]

  // The only result is neither delivered nor flushed nor pending.
  lemma FrameLost()
    ensures exists p :: Runs(Initial(EMPTY), LOSING, p) && Results(p.w.log) == [Failed("a")]
                        && Deliveries(p.w.log) == [] && Flushes(p.w.log) == [] && p.w.pending == []
  {
    hide Runs, Results, Deliveries, Flushes;
    var p := LosingRun();
  }

  lemma LosingRun() returns (p: Process)
    ensures Runs(Initial(EMPTY), LOSING, p)
    ensures Results(p.w.log) == [Failed("a")]
    ensures Deliveries(p.w.log) == [] && Flushes(p.w.log) == [] && p.w.pending == []
  {
    hide SetState, Stepped, Up, FlushPending, Results, Deliveries, Flushes, Buffers, EmitResult;
    var start := Initial(EMPTY);
    var up := FlushPending(Up(start.w), 0, []);
    UpQuiet(start.w);
    var w := Unanswered(up);
    KilledBusy(start, UNLUCKY, w);
    var dead := Process(w, false, 1);
    p := Process(Reloaded(w), true, 1);
    StepRestart(dead);
    TwoSteps(start, Try(Busy(UNLUCKY), Killed), dead, Restart, p);
    ReloadCounts(w);
  }

  lemma Unanswered(up: World) returns (w: World)
    requires up.machine == Connected && up.done == map[] && up.pending == [] && up.disk == EMPTY
    ensures HandledJob(up, UNLUCKY, w) && w.disk == EMPTY
    ensures Results(w.log) == Results(up.log) + [Failed("a")]
    ensures Deliveries(w.log) == Deliveries(up.log) && Flushes(w.log) == Flushes(up.log)
  {
    hide Results, Deliveries, Flushes, Buffers;
    var got := Say(up, Received("a", true, Connected));
    var tried := Say(got, Dispatched("a", false, Connected));
    w := EmitResult(tried, Failed("a"), false, false);
    assert AnsweredJob(got, UNLUCKY, w);
    OtherCounts(up.log, Received("a", true, Connected));
    OtherCounts(got.log, Dispatched("a", false, Connected));
    var told := tried.log + [Handled(Failed("a"))];
    SayCounts(tried.log, Handled(Failed("a")));
    SayCounts(told, Buffered(Failed("a")));
    EmptyTails(Results(told), Deliveries(told), Flushes(told), Deliveries(tried.log));
    EmptyTails(Flushes(tried.log), [], [], []);
  }

  lemma StepRestart(p: Process)
    ensures Stepped(p, Restart, Process(Reloaded(p.w), true, 1))
  {
  }

  lemma ReloadCounts(w: World)
    ensures Results(Reloaded(w).log) == Results(w.log) && Deliveries(Reloaded(w).log) == Deliveries(w.log)
    ensures Flushes(Reloaded(w).log) == Flushes(w.log) && Buffers(Reloaded(w).log) == Buffers(w.log)
  {
    hide Results, Deliveries, Flushes, Buffers;
    var o := Restarted(Disk(w.done, w.pending), w.disk);
    OtherCounts(w.log, o);
    OtherCounts(w.log + [o], Forgot(w.done.Keys - w.disk.done.Keys));
  }

  lemma UpCounts(w: World)
    requires w.machine == Starting || w.machine == Reconnecting
    ensures Results(Up(w).log) == Results(w.log) && Deliveries(Up(w).log) == Deliveries(w.log)
    ensures Flushes(Up(w).log) == Flushes(w.log) && Buffers(Up(w).log) == Buffers(w.log)
  {
    hide Results, Deliveries, Flushes, Buffers;
    UpIs(w);
    var a := w.log + [Moved(w.machine, Connecting)];
    var b, c := [Moved(Connecting, Authenticating)], [Moved(Authenticating, Registering)];
    OtherCounts(w.log, Moved(w.machine, Connecting));
    OtherCounts(a, Moved(Connecting, Authenticating));
    OtherCounts(a + b, Moved(Authenticating, Registering));
    OtherCounts(a + b + c, Moved(Registering, Connected));
    assert Up(w).log == a + b + c + [Moved(Registering, Connected)];
  }

  // With nothing pending, a session comes up without a word about frames.
  lemma UpQuiet(w: World)
    requires w == Initial(EMPTY).w
    ensures var up := FlushPending(Up(w), 0, []);
            && up == World(Connected, map[], [], EMPTY, Up(w).log)
            && Results(up.log) == [] && Deliveries(up.log) == [] && Flushes(up.log) == [] && Buffers(up.log) == []
  {
    UpIs(w);
    UpCounts(w);
  }

  // ----- a frame repeated -----

  // The pending frame goes out, but writing the empty buffer fails; the next process sends it again.
  const REPEATING: seq<Step> := [Try(QUIET_UNSAVED, Killed), Restart, Try(QUIET, Killed)]

  // No job was handled, and the one frame in the file has gone out twice.
  lemma FrameRepeated()
    ensures exists p :: Runs(Initial(Disk(map[], [Failed("a")])), REPEATING, p)
                        && Results(p.w.log) == [] && Flushes(p.w.log) == [Failed("a"), Failed("a")]
  {
    hide Runs, Results, Flushes;
    var p := RepeatingRun();
  }

  lemma RepeatingRun() returns (p: Process)
    ensures Runs(Initial(Disk(map[], [Failed("a")])), REPEATING, p)
    ensures Results(p.w.log) == []
    ensures Flushes(p.w.log) == [Failed("a"), Failed("a")]
  {
    hide Stepped, Runs, Up, FlushPending, Results, Flushes, Reloaded;
    var f := Failed("a");
    var start := Initial(Disk(map[], [f]));
    NoFrames();
    var sent := OneFlushed(start.w, [false], f);
    KilledQuiet(start, QUIET_UNSAVED);
    var dead := Process(sent, false, 1);
    StepRestart(dead);
    ReloadCounts(sent);
    ReloadIs(sent);
    var again := Process(Reloaded(sent), true, 1);
    var w := OneFlushed(again.w, [], f);
    KilledQuiet(again, QUIET);
    p := Process(w, false, 1);
    ThreeSteps(start, Try(QUIET_UNSAVED, Killed), dead, Restart, again, Try(QUIET, Killed), p);
    assert [] + [f] + [f] == [f, f];
  }

  lemma NoFrames()
    ensures Results([]) == [] && Flushes([]) == []
  {
  }

  lemma ReloadIs(w: World)
    ensures Reloaded(w).machine == Starting && Reloaded(w).pending == w.disk.pending
    ensures Reloaded(w).done == w.disk.done && Reloaded(w).disk == w.disk
  {
  }

  // A session that sends the one pending frame.
  lemma OneFlushed(w: World, saves: seq<bool>, f: Frame) returns (w': World)
    requires w.machine == Starting && w.pending == [f]
    ensures w' == FlushPending(Up(w), 1, saves)
    ensures Results(w'.log) == Results(w.log) && Flushes(w'.log) == Flushes(w.log) + [f]
    ensures w'.pending == [] && w'.done == w.done && w'.disk == if Saved(saves, 0) then Disk(w.done, []) else w.disk
  {
    hide SetState, Results, Flushes;
    UpIs(w);
    UpCounts(w);
    w' := FlushPending(Up(w), 1, saves);
    SayFlushedCounts(Up(w).log, [f], Connected);
    assert Up(w).pending[..1] == [f] && Up(w).pending[1..] == [];
  }

  // ----- a job printed twice -----

  // It prints and the result goes out, but marking it done is never written.
  const FORGETFUL: Job := Job("a", true, true, true, 0, false, false)
  const REPRINTING: seq<Step> := [Try(Busy(FORGETFUL), Killed), Restart, Try(Busy(FORGETFUL), Killed)]

  lemma PrintedTwice()
    ensures exists p, i, j ::
              Runs(Initial(EMPTY), REPRINTING, p) && 0 <= i < j < |p.w.log|
              && p.w.log[i] == p.w.log[j] == Dispatched("a", true, Connected)
  {
    hide Runs;
    var p, i, j := ReprintingRun();
  }

  lemma ReprintingRun() returns (p: Process, i: nat, j: nat)
    ensures Runs(Initial(EMPTY), REPRINTING, p)
    ensures i < j < |p.w.log| && p.w.log[i] == p.w.log[j] == Dispatched("a", true, Connected)
  {
    hide Stepped, Runs, Up, FlushPending, Reloaded;
    var start := Initial(EMPTY);
    var up := FlushPending(Up(start.w), 0, []);
    UpEmpty(start.w);
    var w := PrintedOnce(up);
    KilledBusy(start, FORGETFUL, w);
    i := |up.log| + 1;
    var dead := Process(w, false, 1);
    StepRestart(dead);
    ReloadIs(w);
    ReloadExtends(w);
    var again := Process(Reloaded(w), true, 1);
    UpEmpty(again.w);
    var up' := FlushPending(Up(again.w), 0, []);
    var w' := PrintedOnce(up');
    KilledBusy(again, FORGETFUL, w');
    j := |up'.log| + 1;
    p := Process(w', false, 1);
    ThreeSteps(start, Try(Busy(FORGETFUL), Killed), dead, Restart, again, Try(Busy(FORGETFUL), Killed), p);
    assert w.log <= up'.log <= w'.log;
    assert w'.log[i] == up'.log[i] == w.log[i];
  }

  lemma ReloadExtends(w: World)
    ensures w.log <= Reloaded(w).log
  {
  }

  // With nothing stored and nothing pending, a session comes up the same.
  lemma UpEmpty(w: World)
    requires w.machine == Starting && w.done == map[] && w.pending == [] && w.disk == EMPTY
    ensures var up := FlushPending(Up(w), 0, []);
            up.machine == Connected && up.done == map[] && up.pending == [] && up.disk == EMPTY && w.log <= up.log
  {
    hide Up;
    UpIs(w);
  }

  lemma PrintedOnce(up: World) returns (w: World)
    requires up.machine == Connected && up.done == map[] && up.pending == [] && up.disk == EMPTY
    ensures HandledJob(up, FORGETFUL, w)
    ensures w.done.Keys == {"a"} && w.pending == [] && w.disk == EMPTY
    ensures |w.log| > |up.log| + 1 && w.log[..|up.log|] == up.log
        && w.log[|up.log| + 1] == Dispatched("a", true, Connected)
  {
    var v := Say(Say(up, Received("a", true, Connected)), Dispatched("a", true, Connected));
    NoneDropped(map["a" := 0]);
    assert up.done["a" := 0] == map["a" := 0];
    var m := Marked(v, "a", 0, {}, false);
    w := EmitResult(m, Completed("a"), true, false);
    assert w == Confirmed(v, FORGETFUL, {});
    assert AnsweredJob(Say(up, Received("a", true, Connected)), FORGETFUL, w);
  }

  // ----- a delay that a session does not reset -----

  const UNREACHED: Attempt := Attempt(false, false, NoReply, 0, [], [])
  const DELAYED: seq<Step> := [Try(UNREACHED, GoesOn), Try(QUIET, GoesOn)]

  // One failed connect, then a session that is accepted: it reaches CONNECTED, and still the
  // process waits two seconds after it.
  lemma DelayKept()
    ensures exists p :: Runs(Initial(EMPTY), DELAYED, p) && Moved(Registering, Connected) in p.w.log
                        && p.w.log != [] && p.w.log[|p.w.log| - 1] == Waited(2)
  {
    hide Runs;
    var p := DelayedRun();
  }

  lemma DelayedRun() returns (p: Process)
    ensures Runs(Initial(EMPTY), DELAYED, p)
    ensures Moved(Registering, Connected) in p.w.log
    ensures p.w.log != [] && p.w.log[|p.w.log| - 1] == Waited(2)
  {
    hide Stepped, FlushPending, Up;
    var start := Initial(EMPTY);
    var log := [Moved(Starting, Connecting)] + [Moved(Connecting, Disconnected)]
               + [Moved(Disconnected, Reconnecting)] + [Waited(1)];
    var mid := Process(World(Reconnecting, map[], [], EMPTY, log), true, 2);
    StepUnreached(start, mid);
    var up := FlushPending(Up(mid.w), 1, []);
    p := Process(Say(SetState(SetState(up, Disconnected), Reconnecting), Waited(2)), true, 4);
    StepQuiet(mid, p);
    TwoSteps(start, Try(UNREACHED, GoesOn), mid, Try(QUIET, GoesOn), p);
    RunsThen(start, [], start, Try(UNREACHED, GoesOn), mid);
    assert [] + [Try(UNREACHED, GoesOn)] == [Try(UNREACHED, GoesOn)];
    DelayAfterSession(EMPTY, [Try(UNREACHED, GoesOn)], mid, QUIET, p);
    assert p.w.log[|mid.w.log| + 3] == (mid.w.log + WayUp(Reconnecting))[|mid.w.log| + 3];
  }

  lemma StepUnreached(p: Process, q: Process)
    requires p.running && p.w.machine == Starting
    requires var log := p.w.log + [Moved(Starting, Connecting)] + [Moved(Connecting, Disconnected)]
                        + [Moved(Disconnected, Reconnecting)] + [Waited(p.backoff)];
             q == Process(World(Reconnecting, p.w.done, p.w.pending, p.w.disk, log), true, NextBackoff(p.backoff))
    ensures Stepped(p, Try(UNREACHED, GoesOn), q)
  {
    var s := Try(UNREACHED, GoesOn);
    assert Attempted(p.w, s.attempt, s.ending.Killed?, SetState(SetState(p.w, Connecting), Disconnected));
  }

  lemma StepQuiet(p: Process, q: Process)
    requires p.running
    requires var over := SetState(SetState(FlushPending(Up(p.w), 1, []), Disconnected), Reconnecting);
             q == Process(Say(over, Waited(p.backoff)), true, NextBackoff(p.backoff))
    ensures Stepped(p, Try(QUIET, GoesOn), q)
  {
    hide SetState, FlushPending;
    var s := Try(QUIET, GoesOn);
    var up := FlushPending(Up(p.w), 1, []);
    assert Served(up, QUIET.inputs, up);
    assert Attempted(p.w, s.attempt, s.ending.Killed?, SetState(up, Disconnected));
  }
}
