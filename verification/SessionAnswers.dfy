/**
 What each job frame is answered with: over every run the log tells, job by job and in the order in
 which the frames were served, the receipt, the attempt to print, the result and where it went.
 */
module SessionAnswers {
  import opened Agent
  import opened Store
  import opened Session

  // ----- what the log tells of one job -----

  // The result f is made at k, and goes out or into the buffer.
  ghost predicate Answered(log: seq<Obs>, k: nat, f: Frame, sent: bool) {
    k + 1 < |log| && log[k] == Handled(f) && log[k + 1] == if sent then Delivered(f) else Buffered(f)
  }

  // From i on the log tells of job j: the receipt, and then its completion if it is not dispatched,
  // its failure if the dispatch fails, and otherwise what the store dropped and its completion.
  ghost predicate Told(log: seq<Obs>, i: nat, j: Job) {
    && i + 1 < |log| && log[i].Received? && log[i].id == j.id && log[i].acknowledged == j.acknowledged
    && if !log[i + 1].Dispatched? then Answered(log, i + 1, Completed(j.id), j.sent)
       else
         && log[i + 1].id == j.id && log[i + 1].printed == j.printed
         && if j.printed then i + 2 < |log| && log[i + 2].Forgot?
                              && Answered(log, i + 3, Completed(j.id), j.sent)
            else Answered(log, i + 2, Failed(j.id), j.sent)
  }

  // Where the job frames arrive.
  ghost function Receipts(log: seq<Obs>): seq<nat> {
    if log == [] then []
    else Receipts(log[..|log| - 1]) + if log[|log| - 1].Received? then [|log| - 1] else []
  }

  // The log tells of these jobs and no other, in this order.
  ghost predicate AllTold(log: seq<Obs>, jobs: seq<Job>) {
    && |Receipts(log)| == |jobs|
    && forall k :: 0 <= k < |jobs| ==> Told(log, Receipts(log)[k], jobs[k])
  }

  // The jobs among inputs, and those that a script brings to a session that got as far as serving.
  ghost function Jobs(inputs: seq<Input>): seq<Job> {
    if inputs == [] then []
    else
      var n := |inputs| - 1;
      Jobs(inputs[..n]) + if inputs[n].JobFrame? then [inputs[n].job] else []
  }

  ghost function Brought(s: Step): seq<Job> {
    if s.Try? && ComesUp(s.attempt) then Jobs(s.attempt.inputs) else []
  }

  ghost function AllBrought(script: seq<Step>): seq<Job> {
    if script == [] then [] else AllBrought(script[..|script| - 1]) + Brought(script[|script| - 1])
  }

  // ----- more observations -----

  // The log grows by observations that are no receipts.
  ghost predicate Quiet(log: seq<Obs>, more: seq<Obs>) {
    log <= more && forall i :: |log| <= i < |more| ==> !more[i].Received?
  }

  lemma {:induction false} QuietReceipts(log: seq<Obs>, more: seq<Obs>)
    requires Quiet(log, more)
    ensures Receipts(more) == Receipts(log)
  {
    if |log| < |more| {
      QuietReceipts(log, more[..|more| - 1]);
    } else {
      assert log == more;
    }
  }

  lemma {:induction false} ReceiptsAt(log: seq<Obs>, i: nat)
    requires i < |log| && log[i].Received?
    ensures i in Receipts(log)
  {
    var n := |log| - 1;
    if i < n {
      ReceiptsAt(log[..n], i);
    }
  }

  lemma ToldStill(log: seq<Obs>, more: seq<Obs>, i: nat, j: Job)
    requires log <= more && Told(log, i, j)
    ensures Told(more, i, j)
  {
    forall k | 0 <= k < |log| ensures more[k] == log[k] {
    }
  }

  lemma QuietTold(log: seq<Obs>, more: seq<Obs>, jobs: seq<Job>)
    requires AllTold(log, jobs) && Quiet(log, more)
    ensures AllTold(more, jobs)
  {
    hide Told, Receipts;
    QuietReceipts(log, more);
    forall k | 0 <= k < |jobs| ensures Told(more, Receipts(more)[k], jobs[k]) {
      ToldStill(log, more, Receipts(log)[k], jobs[k]);
    }
  }

  // A job frame and all that it brings.
  lemma JobTold(log: seq<Obs>, more: seq<Obs>, jobs: seq<Job>, j: Job)
    requires AllTold(log, jobs) && |log| < |more| && log == more[..|log|] && Quiet(more[..|log| + 1], more)
    requires Told(more, |log|, j)
    ensures AllTold(more, jobs + [j])
  {
    hide Told;
    QuietReceipts(more[..|log| + 1], more);
    assert more[..|log| + 1][..|log|] == log;
    assert more[|log|].Received? by { ToldReceived(more, |log|, j); }
    assert Receipts(more) == Receipts(log) + [|log|];
    forall k | 0 <= k < |jobs| ensures Told(more, Receipts(more)[k], jobs[k]) {
      ToldStill(log, more, Receipts(log)[k], jobs[k]);
    }
  }

  lemma ToldReceived(log: seq<Obs>, i: nat, j: Job)
    requires Told(log, i, j)
    ensures i < |log| && log[i].Received?
  {
  }

  // ----- the parts of a run -----

  lemma FrameTold(w: World, j: Job, w': World)
    requires HandledJob(w, j, w')
    ensures w.log == w'.log[..|w.log|] && |w.log| < |w'.log| && Quiet(w'.log[..|w.log| + 1], w'.log)
    ensures Told(w'.log, |w.log|, j)
  {
    hide MayDrop, Marked, EmitResult, AnsweredJob;
    AnswerTold(Say(w, Received(j.id, j.acknowledged, w.machine)), j, w');
  }

  lemma AnswerTold(w: World, j: Job, w': World)
    requires w.log != [] && AnsweredJob(w, j, w')
    requires w.log[|w.log| - 1].Received? && w.log[|w.log| - 1].id == j.id
    requires w.log[|w.log| - 1].acknowledged == j.acknowledged
    ensures Quiet(w.log, w'.log) && Told(w'.log, |w.log| - 1, j)
  {
    hide MayDrop, Marked, EmitResult;
    if j.id in w.done {
      Emitted(w, Completed(j.id), j.sent, j.resultSaved);
    } else {
      var v := Say(w, Dispatched(j.id, j.printed, w.machine));
      if j.printed {
        var victims :| MayDrop(w.done[j.id := j.now], victims) && w' == Confirmed(v, j, victims);
        MarkedSays(v, j.id, j.now, victims, j.markSaved);
        Emitted(Marked(v, j.id, j.now, victims, j.markSaved), Completed(j.id), j.sent, j.resultSaved);
      } else {
        Emitted(v, Failed(j.id), j.sent, j.resultSaved);
      }
    }
  }

  lemma Emitted(w: World, f: Frame, sent: bool, saved: bool)
    ensures EmitResult(w, f, sent, saved).log == w.log + [Handled(f)] + [if sent then Delivered(f) else Buffered(f)]
  {
  }

  lemma MarkedSays(w: World, id: string, now: int, victims: set<string>, saved: bool)
    ensures Marked(w, id, now, victims, saved).log == w.log + [Forgot(victims)]
  {
  }

  lemma {:induction false} InputsTold(w: World, inputs: seq<Input>, w': World, jobs: seq<Job>)
    requires Served(w, inputs, w') && AllTold(w.log, jobs)
    ensures AllTold(w'.log, jobs + Jobs(inputs))
  {
    hide AllTold, HandledJob;
    if inputs == [] {
      assert jobs + [] == jobs;
    } else {
      var n := |inputs| - 1;
      var mid :| Served(w, inputs[..n], mid) && HandledInput(mid, inputs[n], w');
      InputsTold(w, inputs[..n], mid, jobs);
      if inputs[n].JobFrame? {
        assert jobs + Jobs(inputs) == jobs + Jobs(inputs[..n]) + [inputs[n].job];
        FrameTold(mid, inputs[n].job, w');
        JobTold(mid.log, w'.log, jobs + Jobs(inputs[..n]), inputs[n].job);
      } else {
        assert jobs + Jobs(inputs) == jobs + Jobs(inputs[..n]);
      }
    }
  }

  lemma {:induction false} FlushQuiet(log: seq<Obs>, frames: seq<Frame>, at: State)
    ensures Quiet(log, SayFlushed(log, frames, at))
  {
    if frames != [] {
      FlushQuiet(log, frames[..|frames| - 1], at);
    }
  }

  lemma AttemptTold(w: World, a: Attempt, killed: bool, w': World, jobs: seq<Job>)
    requires Attempted(w, a, killed, w') && AllTold(w.log, jobs)
    ensures AllTold(w'.log, jobs + if ComesUp(a) then Jobs(a.inputs) else [])
  {
    hide AllTold, Served, FlushPending, Jobs, Up, SetState;
    assert jobs + [] == jobs;
    if ComesUp(a) {
      UpQuiet(w, a);
      UpIs(w);
      var up := FlushPending(Up(w), a.flushed, a.saves);
      QuietTold(w.log, up.log, jobs);
      var served :| Served(up, a.inputs, served) && w' == if killed then served else SetState(served, Disconnected);
      InputsTold(up, a.inputs, served, jobs);
      StateQuiet(served, Disconnected);
      QuietTold(served.log, w'.log, jobs + Jobs(a.inputs));
    } else {
      FailedQuiet(w, a, killed, w');
      QuietTold(w.log, w'.log, jobs);
    }
  }

  lemma UpIs(w: World)
    ensures Up(w) == SetState(SetState(SetState(SetState(w, Connecting), Authenticating), Registering), Connected)
  {
    hide SetState;
  }

  lemma StateQuiet(w: World, s: State)
    ensures Quiet(w.log, SetState(w, s).log)
  {
  }

  lemma FailedQuiet(w: World, a: Attempt, killed: bool, w': World)
    requires Attempted(w, a, killed, w') && !ComesUp(a)
    ensures Quiet(w.log, w'.log)
  {
    hide SetState, Served, FlushPending;
    var c := SetState(w, Connecting);
    var au := SetState(c, Authenticating);
    StateQuiet(w, Connecting);
    StateQuiet(c, Disconnected);
    StateQuiet(c, Authenticating);
    StateQuiet(au, Disconnected);
    StateQuiet(au, Error);
    StateQuiet(SetState(au, Error), Disconnected);
  }

  lemma UpQuiet(w: World, a: Attempt)
    ensures Quiet(w.log, FlushPending(Up(w), a.flushed, a.saves).log)
  {
    hide SayFlushed, Rebuffered;
    var up := Up(w);
    var k := if a.flushed < |up.pending| then a.flushed else |up.pending|;
    FlushQuiet(up.log, up.pending[..k], up.machine);
  }

  lemma StepTold(p: Process, s: Step, p': Process, jobs: seq<Job>)
    requires Stepped(p, s, p') && AllTold(p.w.log, jobs)
    ensures AllTold(p'.w.log, jobs + Brought(s))
  {
    hide AllTold, Attempted, Jobs;
    match s
    case Restart =>
      assert jobs + [] == jobs;
      QuietTold(p.w.log, p'.w.log, jobs);
    case Try(a, ending) =>
      forall w | Attempted(p.w, a, ending.Killed?, w) && Quiet(w.log, p'.w.log)
        ensures AllTold(p'.w.log, jobs + Brought(s))
      {
        AttemptTold(p.w, a, ending.Killed?, w, jobs);
        QuietTold(w.log, p'.w.log, jobs + Brought(s));
      }
  }

  // Over any run, whatever fails: the log tells of exactly the jobs that were served, in order.
  lemma {:induction false} EveryJobTold(file: Disk, script: seq<Step>, p: Process)
    requires Runs(Initial(file), script, p)
    ensures AllTold(p.w.log, AllBrought(script))
  {
    hide AllTold, Stepped, Brought;
    if script == [] {
      NothingTold();
    } else {
      var n := |script| - 1;
      var mid :| Runs(Initial(file), script[..n], mid) && Stepped(mid, script[n], p);
      EveryJobTold(file, script[..n], mid);
      StepTold(mid, script[n], p, AllBrought(script[..n]));
    }
  }

  lemma NothingTold()
    ensures AllTold([], [])
  {
  }

  // ----- which result a frame gets -----

  // The first result made after observation i is the one at k.
  ghost predicate NextResult(log: seq<Obs>, i: nat, k: nat) {
    i < k < |log| && log[k].Handled? && forall j :: i < j < k ==> !log[j].Handled?
  }

  // Over any run, whatever fails: after a frame for a job the next result is its failure exactly if
  // what follows the frame is a dispatch of the job that fails, and its completion otherwise,
  // printed now or stored before.
  lemma ResultTells(file: Disk, script: seq<Step>, p: Process, i: nat) returns (k: nat)
    requires Runs(Initial(file), script, p) && i < |p.w.log| && p.w.log[i].Received?
    ensures NextResult(p.w.log, i, k)
    ensures var id, next := p.w.log[i].id, p.w.log[i + 1];
            && (p.w.log[k].frame == Failed(id) <==> next.Dispatched? && next.id == id && !next.printed)
            && (p.w.log[k].frame == Completed(id) <==> !next.Dispatched? || (next.id == id && next.printed))
  {
    hide Runs, Receipts, AllBrought;
    var log, jobs := p.w.log, AllBrought(script);
    EveryJobTold(file, script, p);
    ReceiptsAt(log, i);
    var n :| 0 <= n < |Receipts(log)| && Receipts(log)[n] == i;
    assert Told(log, i, jobs[n]);
    k := if !log[i + 1].Dispatched? then i + 1 else if log[i + 1].printed then i + 3 else i + 2;
  }

  // ----- what one frame and one flush leave in memory and on disk -----

  // done is what may be left of before when the store has dropped what it must.
  ghost predicate LeftOf(before: map<string, int>, done: map<string, int>) {
    exists victims :: MayDrop(before, victims) && done == before - victims
  }

  // A job that is printed is stored with the time of its marking, less what the store drops; any
  // other changes no id. A result that cannot be sent is pending. The disk is what the last write
  // that succeeded wrote.
  lemma JobStores(w: World, j: Job, w': World)
    requires HandledJob(w, j, w')
    ensures var isNew := j.id !in w.done && j.printed;
            && w'.machine == w.machine
            && (!isNew ==> w'.done == w.done)
            && (isNew ==> LeftOf(w.done[j.id := j.now], w'.done))
            && w'.pending == w.pending
                             + (if j.sent then []
                                else [if j.id in w.done || j.printed then Completed(j.id) else Failed(j.id)])
            && w'.disk == if !j.sent && j.resultSaved then Disk(w'.done, w'.pending)
                          else if isNew && j.markSaved then Disk(w'.done, w.pending) else w.disk
  {
    hide MayDrop;
    if j.id !in w.done && j.printed {
      var v := Say(Say(w, Received(j.id, j.acknowledged, w.machine)), Dispatched(j.id, true, w.machine));
      var victims :| MayDrop(w.done[j.id := j.now], victims) && w' == Confirmed(v, j, victims);
      assert w'.done == w.done[j.id := j.now] - victims;
    }
  }

  // After a flush the disk holds the frames put back up to the last write that succeeded, or what it
  // held before if none did.
  lemma {:induction false} FlushStores(done: map<string, int>, frames: seq<Frame>, saves: seq<bool>, before: Disk,
                                       i: int)
    requires -1 <= i <= |frames| && (i >= 0 ==> i >= |saves| || saves[i]) && (i < |frames| ==> |frames| < |saves|)
    requires forall k :: i < k <= |frames| ==> !saves[k]
    ensures Rebuffered(done, frames, saves, before) == if i == -1 then before else Disk(done, frames[..i])
  {
    if frames != [] && i < |frames| {
      var init := frames[..|frames| - 1];
      FlushStores(done, init, saves, before, i);
      assert i >= 0 ==> init[..i] == frames[..i];
    } else if i == |frames| {
      assert frames[..i] == frames;
    }
  }
}
