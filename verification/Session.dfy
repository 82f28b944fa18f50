/**
 The backend session (internal/app/lifecycle/lifecycle.go) as a relation between worlds: what one
 job frame, one flush, one connection attempt and one restart may do, and what every run keeps.
 The environment decides whether connecting, sending, printing and saving succeed.
 */
module Session {
  import opened Agent
  import opened Store

  const MAX_BACKOFF: nat := 60

  // What happened, in order. Forgot tells which ids left the store without being asked to, and
  // Restarted what the process held in memory when it ended and what the next one found on disk.
  datatype Obs =
    | Moved(from: State, to: State)
    | Refused(from: State, to: State)
    | Received(id: string, acknowledged: bool, at: State)
    | Dispatched(id: string, printed: bool, at: State)
    | Forgot(ids: set<string>)
    | Handled(frame: Frame)
    | Delivered(frame: Frame)
    | Buffered(frame: Frame)
    | Flushed(frame: Frame, at: State)
    | Waited(seconds: nat)
    | Restarted(memory: Disk, file: Disk)

  datatype World = World(machine: State, done: map<string, int>, pending: seq<Frame>, disk: Disk, log: seq<Obs>)

  // One job frame and how its environment behaves: acknowledged is the outcome of sending the
  // receipt, printed that of Dispatch, sent that of sending the result, the others those of
  // writing the store.
  datatype Job = Job(id: string, acknowledged: bool, printed: bool, sent: bool, now: int, markSaved: bool,
                     resultSaved: bool)
  datatype Input = JobFrame(job: Job) | OtherFrame

  datatype Reply = Accepted | Rejected | NoReply
  // flushed is how many pending frames go out before a send fails; saves are the outcomes of
  // writing the store meanwhile.
  datatype Attempt = Attempt(connected: bool, greeted: bool, reply: Reply, flushed: nat, saves: seq<bool>,
                             inputs: seq<Input>)

  // The connection gets as far as serving frames.
  predicate ComesUp(a: Attempt) { a.connected && a.greeted && a.reply.Accepted? }

  datatype Ending = GoesOn | CancelledDuring | CancelledWaiting | Killed
  datatype Step = Try(attempt: Attempt, ending: Ending) | Restart

  datatype Process = Process(w: World, running: bool, backoff: nat)

  // ----- the parts of a step -----

  function Say(w: World, o: Obs): World { w.(log := w.log + [o]) }

  // What trying to move to s looks like.
  function Tried(w: World, s: State): Obs {
    if CanTransition(w.machine, s) then Moved(w.machine, s) else Refused(w.machine, s)
  }

  function SetState(w: World, s: State): World {
    Say(if CanTransition(w.machine, s) then w.(machine := s) else w, Tried(w, s))
  }

  function Save(w: World, saved: bool): World {
    w.(disk := if saved then Disk(w.done, w.pending) else w.disk)
  }

  function EmitResult(w: World, f: Frame, sent: bool, saved: bool): World {
    var v := Say(w, Handled(f));
    if sent then Say(v, Delivered(f)) else Save(Say(v.(pending := v.pending + [f]), Buffered(f)), saved)
  }

  function Marked(w: World, id: string, now: int, victims: set<string>, saved: bool): World {
    Save(Say(w.(done := w.done[id := now] - victims), Forgot(victims)), saved)
  }

  // A printed job is marked done and confirmed.
  function Confirmed(w: World, j: Job, victims: set<string>): World {
    EmitResult(Marked(w, j.id, j.now, victims, j.markSaved), Completed(j.id), j.sent, j.resultSaved)
  }

  // The receipt goes out first, and whether it arrives makes no difference.
  ghost predicate HandledJob(w: World, j: Job, w': World) {
    AnsweredJob(Say(w, Received(j.id, j.acknowledged, w.machine)), j, w')
  }

  ghost predicate AnsweredJob(w: World, j: Job, w': World) {
    if j.id in w.done then w' == EmitResult(w, Completed(j.id), j.sent, j.resultSaved)
    else
      var v := Say(w, Dispatched(j.id, j.printed, w.machine));
      if !j.printed then w' == EmitResult(v, Failed(j.id), j.sent, j.resultSaved)
      else exists victims :: MayDrop(w.done[j.id := j.now], victims) && w' == Confirmed(v, j, victims)
  }

  ghost predicate HandledInput(w: World, i: Input, w': World) {
    match i
    case JobFrame(j) => HandledJob(w, j, w')
    case OtherFrame => w' == w
  }

  ghost predicate Served(w: World, inputs: seq<Input>, w': World) {
    if inputs == [] then w' == w
    else
      var n := |inputs| - 1;
      exists mid :: Served(w, inputs[..n], mid) && HandledInput(mid, inputs[n], w')
  }

  function SayFlushed(log: seq<Obs>, frames: seq<Frame>, at: State): seq<Obs> {
    if frames == [] then log else SayFlushed(log, frames[..|frames| - 1], at) + [Flushed(frames[|frames| - 1], at)]
  }

  function Saved(saves: seq<bool>, i: nat): bool { i >= |saves| || saves[i] }

  ghost predicate AllSaved(saves: seq<bool>) { forall i :: 0 <= i < |saves| ==> saves[i] }

  // The file after frames have been put back one by one: the last write that succeeded.
  function Rebuffered(done: map<string, int>, frames: seq<Frame>, saves: seq<bool>, before: Disk): Disk {
    if frames == [] then if Saved(saves, 0) then Disk(done, []) else before
    else if Saved(saves, |frames|) then Disk(done, frames)
    else Rebuffered(done, frames[..|frames| - 1], saves, before)
  }

  function FlushPending(w: World, sent: nat, saves: seq<bool>): World {
    var k := if sent < |w.pending| then sent else |w.pending|;
    var rest := w.pending[k..];
    World(w.machine, w.done, rest, Rebuffered(w.done, rest, saves, w.disk),
          SayFlushed(w.log, w.pending[..k], w.machine))
  }

  // The world once a session is up.
  ghost function Up(w: World): World {
    SetState(SetState(SetState(SetState(w, Connecting), Authenticating), Registering), Connected)
  }

  ghost predicate Attempted(w: World, a: Attempt, killed: bool, w': World) {
    var connecting := SetState(w, Connecting);
    var authenticating := SetState(connecting, Authenticating);
    if !a.connected then w' == SetState(connecting, Disconnected)
    else if !a.greeted || a.reply.NoReply? then w' == SetState(authenticating, Disconnected)
    else if a.reply.Rejected? then w' == SetState(SetState(authenticating, Error), Disconnected)
    else
      var up := FlushPending(SetState(SetState(authenticating, Registering), Connected), a.flushed, a.saves);
      exists served :: Served(up, a.inputs, served) && w' == if killed then served else SetState(served, Disconnected)
  }

  // A new process: the machine starts over and the store is what the file holds.
  function Reloaded(w: World): World {
    var v := World(Starting, w.disk.done, w.disk.pending, w.disk, w.log);
    Say(Say(v, Restarted(Disk(w.done, w.pending), w.disk)), Forgot(w.done.Keys - w.disk.done.Keys))
  }

  function NextBackoff(b: nat): nat { if 2 * b > MAX_BACKOFF then MAX_BACKOFF else 2 * b }

  ghost predicate Stepped(p: Process, s: Step, p': Process) {
    match s
    case Restart => p' == Process(Reloaded(p.w), true, 1)
    case Try(a, ending) =>
      && p.running
      && exists w :: Attempted(p.w, a, ending.Killed?, w)
                     && p' == match ending
                              case Killed => Process(w, false, p.backoff)
                              case CancelledDuring => Process(SetState(w, ShuttingDown), false, p.backoff)
                              case CancelledWaiting =>
                                Process(SetState(SetState(w, Reconnecting), ShuttingDown), false, p.backoff)
                              case GoesOn =>
                                Process(Say(SetState(w, Reconnecting), Waited(p.backoff)), true, NextBackoff(p.backoff))
  }

  ghost predicate Runs(p: Process, script: seq<Step>, p': Process) {
    if script == [] then p' == p
    else
      var n := |script| - 1;
      exists mid :: Runs(p, script[..n], mid) && Stepped(mid, script[n], p')
  }

  function Initial(file: Disk): Process {
    Process(World(Starting, file.done, file.pending, file, []), true, 1)
  }

  // ----- invariants over runs -----

  ghost predicate FairInputs(inputs: seq<Input>, fair: Job -> bool) {
    forall i :: 0 <= i < |inputs| && inputs[i].JobFrame? ==> fair(inputs[i].job)
  }

  // Every job of the script is fair and, if asked for, every flush is saved.
  ghost predicate FairScript(script: seq<Step>, fair: Job -> bool, saved: bool) {
    forall i :: 0 <= i < |script| && script[i].Try? ==>
      FairInputs(script[i].attempt.inputs, fair) && (saved ==> AllSaved(script[i].attempt.saves))
  }

  // inv survives everything a step is made of.
  ghost predicate Kept(inv: World -> bool, fair: Job -> bool, saved: bool) {
    && (forall w, s :: inv(w) ==> inv(SetState(w, s)))
    && (forall w, n: nat :: inv(w) ==> inv(Say(w, Waited(n))))
    && (forall w :: inv(w) ==> inv(Reloaded(w)))
    && (forall w, n: nat, saves :: inv(w) && (saved ==> AllSaved(saves)) ==> inv(FlushPending(w, n, saves)))
    && (forall w, j, w' :: inv(w) && fair(j) && HandledJob(w, j, w') ==> inv(w'))
  }

  lemma {:induction false} ServedKeeps(inv: World -> bool, fair: Job -> bool, w: World, inputs: seq<Input>, w': World)
    requires forall v, j, v' :: inv(v) && fair(j) && HandledJob(v, j, v') ==> inv(v')
    requires inv(w) && FairInputs(inputs, fair) && Served(w, inputs, w')
    ensures inv(w')
  {
    hide HandledJob;
    if inputs != [] {
      var n := |inputs| - 1;
      var mid :| Served(w, inputs[..n], mid) && HandledInput(mid, inputs[n], w');
      ServedKeeps(inv, fair, w, inputs[..n], mid);
    }
  }

  lemma AttemptKeeps(inv: World -> bool, fair: Job -> bool, saved: bool, w: World, a: Attempt, killed: bool, w': World)
    requires Kept(inv, fair, saved) && inv(w) && Attempted(w, a, killed, w')
    requires FairInputs(a.inputs, fair) && (saved ==> AllSaved(a.saves))
    ensures inv(w')
  {
    hide HandledJob, SetState, FlushPending, Served, AllSaved, FairInputs;
    if ComesUp(a) {
      var up := FlushPending(Up(w), a.flushed, a.saves);
      var served :| Served(up, a.inputs, served) && w' == if killed then served else SetState(served, Disconnected);
      ServedKeeps(inv, fair, up, a.inputs, served);
    }
  }

  lemma {:induction false} RunKeeps(inv: World -> bool, fair: Job -> bool, saved: bool, p: Process, script: seq<Step>,
                                    p': Process)
    requires Kept(inv, fair, saved) && inv(p.w) && FairScript(script, fair, saved) && Runs(p, script, p')
    ensures inv(p'.w)
  {
    hide HandledJob, SetState, FlushPending, Attempted, Reloaded, FairInputs, AllSaved;
    if script != [] {
      var n := |script| - 1;
      var mid :| Runs(p, script[..n], mid) && Stepped(mid, script[n], p');
      RunKeeps(inv, fair, saved, p, script[..n], mid);
      if script[n].Try? {
        var a, ending := script[n].attempt, script[n].ending;
        forall w | Attempted(mid.w, a, ending.Killed?, w) ensures inv(w) {
          AttemptKeeps(inv, fair, saved, mid.w, a, ending.Killed?, w);
        }
      }
    }
  }

  lemma RunsThen(p: Process, script: seq<Step>, mid: Process, s: Step, p': Process)
    requires Runs(p, script, mid) && Stepped(mid, s, p')
    ensures Runs(p, script + [s], p')
  {
    hide Stepped;
    assert (script + [s])[..|script|] == script;
  }
}
