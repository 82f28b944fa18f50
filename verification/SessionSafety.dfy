/** What every run of the session keeps: no job printed twice, no result lost. */
module SessionSafety {
  import opened Agent
  import opened Store
  import opened Session

  // ----- at most one successful dispatch per id -----

  ghost predicate Success(o: Obs, id: string) { o.Dispatched? && o.printed && o.id == id }

  ghost predicate ForgottenBetween(log: seq<Obs>, i: int, j: int, id: string) {
    exists k :: 0 <= i < k < j <= |log| && log[k].Forgot? && id in log[k].ids
  }

  // A job that was printed is dispatched again only after the store has forgotten its id.
  ghost predicate NoRepeat(log: seq<Obs>) {
    forall i, j :: 0 <= i < j < |log| && log[j].Dispatched? && Success(log[i], log[j].id) ==>
      ForgottenBetween(log, i, j, log[j].id)
  }

  // A printed job is in the store, or has been forgotten since.
  ghost predicate Remembered(w: World) {
    forall i :: 0 <= i < |w.log| && w.log[i].Dispatched? && w.log[i].printed ==>
      w.log[i].id in w.done || ForgottenBetween(w.log, i, |w.log|, w.log[i].id)
  }

  ghost predicate Dedupes(w: World) { NoRepeat(w.log) && Remembered(w) }

  lemma ForgottenStill(log: seq<Obs>, o: Obs, i: int, j: int, id: string)
    requires ForgottenBetween(log, i, j, id)
    ensures ForgottenBetween(log + [o], i, j, id) && ForgottenBetween(log + [o], i, |log| + 1, id)
  {
    var k :| 0 <= i < k < j <= |log| && log[k].Forgot? && id in log[k].ids;
    assert (log + [o])[k] == log[k];
  }

  // An observation that dispatches nothing keeps both, as long as the ids that leave are told.
  lemma SayKeeps(w: World, o: Obs, w': World)
    requires Dedupes(w) && !o.Dispatched? && w'.log == w.log + [o]
    requires forall id :: id in w.done && id !in w'.done ==> o.Forgot? && id in o.ids
    ensures Dedupes(w')
  {
    hide ForgottenBetween;
    forall i, j | 0 <= i < j < |w'.log| && w'.log[j].Dispatched? && Success(w'.log[i], w'.log[j].id)
      ensures ForgottenBetween(w'.log, i, j, w'.log[j].id)
    {
      assert w.log[j] == w'.log[j] && w.log[i] == w'.log[i];
      ForgottenStill(w.log, o, i, j, w.log[j].id);
    }
    forall i | 0 <= i < |w'.log| && w'.log[i].Dispatched? && w'.log[i].printed
      ensures w'.log[i].id in w'.done || ForgottenBetween(w'.log, i, |w'.log|, w'.log[i].id)
    {
      var id := w'.log[i].id;
      assert w.log[i] == w'.log[i];
      if id in w.done {
        if id !in w'.done {
          ForgottenNow(w.log, o, i, id);
        }
      } else {
        ForgottenStill(w.log, o, i, |w.log|, id);
      }
    }
  }

  lemma ForgottenNow(log: seq<Obs>, o: Obs, i: nat, id: string)
    requires i < |log| && o.Forgot? && id in o.ids
    ensures ForgottenBetween(log + [o], i, |log| + 1, id)
  {
    assert (log + [o])[|log|] == o;
  }

  // Dispatching an id the store does not know.
  lemma DispatchKeeps(w: World, id: string, printed: bool)
    requires Dedupes(w) && id !in w.done
    ensures var v := Say(w, Dispatched(id, printed, w.machine));
            && NoRepeat(v.log)
            && forall i :: 0 <= i < |w.log| && w.log[i].Dispatched? && w.log[i].printed ==>
                 w.log[i].id in w.done || ForgottenBetween(v.log, i, |v.log|, w.log[i].id)
  {
    hide ForgottenBetween;
    var o := Dispatched(id, printed, w.machine);
    var v := Say(w, o);
    forall i, j | 0 <= i < j < |v.log| && v.log[j].Dispatched? && Success(v.log[i], v.log[j].id)
      ensures ForgottenBetween(v.log, i, j, v.log[j].id)
    {
      assert w.log[i] == v.log[i];
      if j < |w.log| {
        assert w.log[j] == v.log[j];
        ForgottenStill(w.log, o, i, j, w.log[j].id);
      } else {
        ForgottenStill(w.log, o, i, |w.log|, id);
      }
    }
    forall i | 0 <= i < |w.log| && w.log[i].Dispatched? && w.log[i].printed && w.log[i].id !in w.done
      ensures ForgottenBetween(v.log, i, |v.log|, w.log[i].id)
    {
      ForgottenStill(w.log, o, i, |w.log|, w.log[i].id);
    }
  }

  // Marking the job just printed closes the gap.
  lemma MarkKeeps(w: World, id: string, now: int, victims: set<string>, saved: bool)
    requires Dedupes(w) && id !in w.done
    ensures Dedupes(Marked(Say(w, Dispatched(id, true, w.machine)), id, now, victims, saved))
  {
    hide ForgottenBetween;
    DispatchKeeps(w, id, true);
    var v := Say(w, Dispatched(id, true, w.machine)).(done := w.done[id := now]);
    assert Dedupes(v);
    SayKeeps(v, Forgot(victims), Marked(Say(w, Dispatched(id, true, w.machine)), id, now, victims, saved));
  }

  lemma EmitKeeps(w: World, f: Frame, sent: bool, saved: bool)
    requires Dedupes(w)
    ensures Dedupes(EmitResult(w, f, sent, saved))
  {
    hide Dedupes;
    var v := Say(w, Handled(f));
    SayKeeps(w, Handled(f), v);
    if sent {
      SayKeeps(v, Delivered(f), EmitResult(w, f, sent, saved));
    } else {
      SayKeeps(v, Buffered(f), EmitResult(w, f, sent, saved));
    }
  }

  lemma JobKeepsDedupe(w: World, j: Job, w': World)
    requires Dedupes(w) && HandledJob(w, j, w')
    ensures Dedupes(w')
  {
    hide Dedupes, AnsweredJob;
    var v := Say(w, Received(j.id, j.acknowledged, w.machine));
    SayKeeps(w, Received(j.id, j.acknowledged, w.machine), v);
    AnswerKeepsDedupe(v, j, w');
  }

  lemma AnswerKeepsDedupe(w: World, j: Job, w': World)
    requires Dedupes(w) && AnsweredJob(w, j, w')
    ensures Dedupes(w')
  {
    hide Dedupes, EmitResult, Marked;
    if j.id in w.done {
      EmitKeeps(w, Completed(j.id), j.sent, j.resultSaved);
    } else {
      var v := Say(w, Dispatched(j.id, j.printed, w.machine));
      if j.printed {
        var victims :| MayDrop(w.done[j.id := j.now], victims) && w' == Confirmed(v, j, victims);
        MarkKeeps(w, j.id, j.now, victims, j.markSaved);
        EmitKeeps(Marked(v, j.id, j.now, victims, j.markSaved), Completed(j.id), j.sent, j.resultSaved);
      } else {
        FailedKeeps(w, j.id);
        EmitKeeps(v, Failed(j.id), j.sent, j.resultSaved);
      }
    }
  }

  lemma FailedKeeps(w: World, id: string)
    requires Dedupes(w) && id !in w.done
    ensures Dedupes(Say(w, Dispatched(id, false, w.machine)))
  {
    hide ForgottenBetween;
    DispatchKeeps(w, id, false);
  }

  lemma {:induction false} FlushedKeeps(w: World, frames: seq<Frame>, w': World)
    requires Dedupes(w) && w'.log == SayFlushed(w.log, frames, w.machine) && w'.done == w.done
    ensures Dedupes(w')
  {
    hide Dedupes;
    if frames == [] {
      SameDedupes(w, w');
    } else {
      var n := |frames| - 1;
      var v := w.(log := SayFlushed(w.log, frames[..n], w.machine));
      FlushedKeeps(w, frames[..n], v);
      SayKeeps(v, Flushed(frames[n], w.machine), w');
    }
  }

  lemma SameDedupes(w: World, w': World)
    requires Dedupes(w) && w'.log == w.log && w'.done == w.done
    ensures Dedupes(w')
  {
  }

  lemma DedupesKept()
    ensures Kept(w => Dedupes(w), j => true, false)
  {
    hide Dedupes, HandledJob;
    forall w, s | Dedupes(w) ensures Dedupes(SetState(w, s)) {
      SayKeeps(w, Tried(w, s), SetState(w, s));
    }
    forall w, n: nat | Dedupes(w) ensures Dedupes(Say(w, Waited(n))) {
      SayKeeps(w, Waited(n), Say(w, Waited(n)));
    }
    forall w | Dedupes(w) ensures Dedupes(Reloaded(w)) {
      var o := Restarted(Disk(w.done, w.pending), w.disk);
      var v := w.(log := w.log + [o]);
      SayKeeps(w, o, v);
      SayKeeps(v, Forgot(w.done.Keys - w.disk.done.Keys), Reloaded(w));
    }
    forall w, n: nat, saves | Dedupes(w) ensures Dedupes(FlushPending(w, n, saves)) {
      var k := if n < |w.pending| then n else |w.pending|;
      FlushedKeeps(w, w.pending[..k], FlushPending(w, n, saves));
    }
    forall w, j, w' | Dedupes(w) && HandledJob(w, j, w') ensures Dedupes(w') {
      JobKeepsDedupe(w, j, w');
    }
  }

  // Over any run, with any failures, reconnections and restarts: between a successful dispatch of
  // an id and any other dispatch of it, the store has forgotten the id.
  lemma AtMostOnceUntilForgotten(file: Disk, script: seq<Step>, p: Process)
    requires Runs(Initial(file), script, p)
    ensures NoRepeat(p.w.log)
  {
    hide Kept, Runs;
    DedupesKept();
    RunKeeps(w => Dedupes(w), j => true, false, Initial(file), script, p);
  }

  // ----- nothing is forgotten -----

  ghost predicate ForgetsNothing(log: seq<Obs>) {
    forall k :: 0 <= k < |log| && log[k].Forgot? ==> log[k].ids == {}
  }

  // Every new process finds on disk all the ids that the one before had in memory.
  ghost predicate IdsSurvive(log: seq<Obs>) {
    forall k :: 0 <= k < |log| && log[k].Restarted? ==> log[k].memory.done.Keys <= log[k].file.done.Keys
  }

  // Memory and disk hold only ids of known, and as long as ids survive restarts none is forgotten.
  ghost predicate Retains(w: World, known: set<string>) {
    w.done.Keys <= known && w.disk.done.Keys <= known && (IdsSurvive(w.log) ==> ForgetsNothing(w.log))
  }

  // A job that prints is one of known.
  ghost predicate Expected(j: Job, known: set<string>) { j.printed ==> j.id in known }

  lemma NothingToDrop(done: map<string, int>, victims: set<string>, known: set<string>)
    requires MayDrop(done, victims) && done.Keys <= known && |known| <= MAX_DONE
    ensures victims == {} && done - victims == done
  {
    SubsetSize(done.Keys, known);
    assert |done| == |done.Keys|;
  }

  lemma SayRetains(w: World, o: Obs, w': World, known: set<string>)
    requires Retains(w, known) && w'.log == w.log + [o] && (o.Forgot? ==> o.ids == {})
    requires w'.done.Keys <= known && w'.disk.done.Keys <= known
    ensures Retains(w', known)
  {
    if IdsSurvive(w'.log) {
      forall k | 0 <= k < |w.log| && w.log[k].Restarted? ensures w.log[k].memory.done.Keys <= w.log[k].file.done.Keys {
        assert w'.log[k] == w.log[k];
      }
    }
  }

  lemma EmitRetains(w: World, f: Frame, sent: bool, saved: bool, known: set<string>)
    requires Retains(w, known)
    ensures Retains(EmitResult(w, f, sent, saved), known)
  {
    hide IdsSurvive, ForgetsNothing;
    var v := Say(w, Handled(f));
    SayRetains(w, Handled(f), v, known);
    SayRetains(v, if sent then Delivered(f) else Buffered(f), EmitResult(w, f, sent, saved), known);
  }

  lemma MarkRetains(w: World, id: string, now: int, victims: set<string>, saved: bool, known: set<string>)
    requires Retains(w, known) && |known| <= MAX_DONE && id in known && MayDrop(w.done[id := now], victims)
    ensures Retains(Marked(w, id, now, victims, saved), known)
  {
    hide IdsSurvive, ForgetsNothing;
    assert w.done[id := now].Keys == w.done.Keys + {id};
    NothingToDrop(w.done[id := now], victims, known);
    SayRetains(w, Forgot(victims), Marked(w, id, now, victims, saved), known);
  }

  lemma JobRetains(w: World, j: Job, w': World, known: set<string>)
    requires |known| <= MAX_DONE && Retains(w, known) && Expected(j, known) && HandledJob(w, j, w')
    ensures Retains(w', known)
  {
    hide IdsSurvive, ForgetsNothing, AnsweredJob;
    var v := Say(w, Received(j.id, j.acknowledged, w.machine));
    SayRetains(w, Received(j.id, j.acknowledged, w.machine), v, known);
    AnswerRetains(v, j, w', known);
  }

  lemma AnswerRetains(w: World, j: Job, w': World, known: set<string>)
    requires |known| <= MAX_DONE && Retains(w, known) && Expected(j, known) && AnsweredJob(w, j, w')
    ensures Retains(w', known)
  {
    hide IdsSurvive, ForgetsNothing, EmitResult, Marked, MayDrop;
    if j.id in w.done {
      EmitRetains(w, Completed(j.id), j.sent, j.resultSaved, known);
    } else {
      var o := Dispatched(j.id, j.printed, w.machine);
      var v := Say(w, o);
      SayRetains(w, o, v, known);
      if j.printed {
        var victims :| MayDrop(w.done[j.id := j.now], victims) && w' == Confirmed(v, j, victims);
        MarkRetains(v, j.id, j.now, victims, j.markSaved, known);
        EmitRetains(Marked(v, j.id, j.now, victims, j.markSaved), Completed(j.id), j.sent, j.resultSaved, known);
      } else {
        EmitRetains(v, Failed(j.id), j.sent, j.resultSaved, known);
      }
    }
  }

  lemma {:induction false} FlushedRetains(w: World, frames: seq<Frame>, w': World, known: set<string>)
    requires Retains(w, known) && w'.log == SayFlushed(w.log, frames, w.machine)
    requires w'.done.Keys <= known && w'.disk.done.Keys <= known
    ensures Retains(w', known)
  {
    hide IdsSurvive, ForgetsNothing;
    if frames != [] {
      var n := |frames| - 1;
      var v := w.(log := SayFlushed(w.log, frames[..n], w.machine));
      FlushedRetains(w, frames[..n], v, known);
      SayRetains(v, Flushed(frames[n], w.machine), w', known);
    }
  }

  // What a flush leaves on disk has the ids of the memory or those of the disk before.
  lemma {:induction false} RebufferedIds(done: map<string, int>, frames: seq<Frame>, saves: seq<bool>, before: Disk)
    ensures var d := Rebuffered(done, frames, saves, before); d.done == done || d.done == before.done
  {
    if frames != [] {
      RebufferedIds(done, frames[..|frames| - 1], saves, before);
    }
  }

  lemma ReloadRetains(w: World, known: set<string>)
    requires Retains(w, known)
    ensures Retains(Reloaded(w), known)
  {
    hide ForgetsNothing;
    var o := Restarted(Disk(w.done, w.pending), w.disk);
    var v := World(Starting, w.disk.done, w.disk.pending, w.disk, w.log + [o]);
    SayRetains(w, o, v, known);
    if IdsSurvive(Reloaded(w).log) {
      assert Reloaded(w).log[|w.log|] == o;
      assert w.done.Keys - w.disk.done.Keys == {};
      SayRetains(v, Forgot({}), Reloaded(w), known);
    }
  }

  lemma RetainsKept(known: set<string>)
    requires |known| <= MAX_DONE
    ensures Kept(w => Retains(w, known), j => Expected(j, known), false)
  {
    hide HandledJob, Retains, SayFlushed, Rebuffered, Reloaded;
    forall w, s | Retains(w, known) ensures Retains(SetState(w, s), known) {
      IdsKnown(w, known);
      SayRetains(w, Tried(w, s), SetState(w, s), known);
    }
    forall w, n: nat | Retains(w, known) ensures Retains(Say(w, Waited(n)), known) {
      IdsKnown(w, known);
      SayRetains(w, Waited(n), Say(w, Waited(n)), known);
    }
    forall w | Retains(w, known) ensures Retains(Reloaded(w), known) {
      ReloadRetains(w, known);
    }
    forall w, n: nat, saves | Retains(w, known) ensures Retains(FlushPending(w, n, saves), known) {
      var k := if n < |w.pending| then n else |w.pending|;
      IdsKnown(w, known);
      RebufferedIds(w.done, w.pending[k..], saves, w.disk);
      FlushedRetains(w, w.pending[..k], FlushPending(w, n, saves), known);
    }
    forall w, j, w' | Retains(w, known) && Expected(j, known) && HandledJob(w, j, w') ensures Retains(w', known) {
      JobRetains(w, j, w', known);
    }
  }

  lemma IdsKnown(w: World, known: set<string>)
    requires Retains(w, known)
    ensures w.done.Keys <= known && w.disk.done.Keys <= known
  {
  }

  // If no more than MAX_DONE distinct ids are ever printed or stored and every restart finds on disk
  // the ids of the process before, then every id is successfully dispatched at most once in the
  // whole run, whatever else fails: sends, connections, and any write that a later one makes good.
  lemma AtMostOnce(file: Disk, script: seq<Step>, p: Process, known: set<string>, i: nat, j: nat)
    requires Runs(Initial(file), script, p)
    requires |known| <= MAX_DONE && file.done.Keys <= known && FairScript(script, job => Expected(job, known), false)
    requires IdsSurvive(p.w.log)
    requires i < |p.w.log| && j < |p.w.log| && i != j && p.w.log[i].Dispatched? && p.w.log[j].Dispatched?
    requires p.w.log[i].printed && p.w.log[j].printed
    ensures p.w.log[i].id != p.w.log[j].id
  {
    hide Runs, Kept, FairScript, IdsSurvive;
    AtMostOnceUntilForgotten(file, script, p);
    RetainsKept(known);
    RunKeeps(w => Retains(w, known), job => Expected(job, known), false, Initial(file), script, p);
    NoRepeatAtAll(p.w.log, if i < j then i else j, if i < j then j else i);
  }

  lemma NoRepeatAtAll(log: seq<Obs>, a: nat, b: nat)
    requires NoRepeat(log) && ForgetsNothing(log) && a < b < |log|
    requires log[a].Dispatched? && log[a].printed && log[b].Dispatched?
    ensures log[a].id != log[b].id
  {
    hide NoRepeat, ForgottenBetween, ForgetsNothing;
    NotForgotten(log, a, b, log[b].id);
    RepeatForgotten(log, a, b);
  }

  lemma NotForgotten(log: seq<Obs>, i: int, j: int, id: string)
    requires ForgetsNothing(log)
    ensures !ForgottenBetween(log, i, j, id)
  {
  }

  lemma RepeatForgotten(log: seq<Obs>, a: nat, b: nat)
    requires NoRepeat(log) && a < b < |log| && log[b].Dispatched?
    ensures Success(log[a], log[b].id) ==> ForgottenBetween(log, a, b, log[b].id)
  {
  }

  // ----- when ids survive -----

  ghost predicate IdsOnDisk(w: World) { w.disk.done == w.done && IdsSurvive(w.log) }

  // The write after marking a printed job succeeds.
  ghost predicate MarksSaved(j: Job) { j.printed ==> j.markSaved }

  lemma SayOnDisk(w: World, o: Obs, w': World)
    requires IdsOnDisk(w) && w'.log == w.log + [o] && w'.disk.done == w'.done
    requires o.Restarted? ==> o.memory.done == o.file.done
    ensures IdsOnDisk(w')
  {
  }

  lemma EmitOnDisk(w: World, f: Frame, sent: bool, saved: bool)
    requires IdsOnDisk(w)
    ensures IdsOnDisk(EmitResult(w, f, sent, saved))
  {
    hide IdsSurvive;
    var v := Say(w, Handled(f));
    SayOnDisk(w, Handled(f), v);
    SayOnDisk(v, if sent then Delivered(f) else Buffered(f), EmitResult(w, f, sent, saved));
  }

  lemma JobOnDisk(w: World, j: Job, w': World)
    requires IdsOnDisk(w) && MarksSaved(j) && HandledJob(w, j, w')
    ensures IdsOnDisk(w')
  {
    hide IdsSurvive, AnsweredJob;
    var v := Say(w, Received(j.id, j.acknowledged, w.machine));
    SayOnDisk(w, Received(j.id, j.acknowledged, w.machine), v);
    AnswerOnDisk(v, j, w');
  }

  lemma AnswerOnDisk(w: World, j: Job, w': World)
    requires IdsOnDisk(w) && MarksSaved(j) && AnsweredJob(w, j, w')
    ensures IdsOnDisk(w')
  {
    hide IdsSurvive, EmitResult, MayDrop;
    if j.id in w.done {
      EmitOnDisk(w, Completed(j.id), j.sent, j.resultSaved);
    } else {
      var o := Dispatched(j.id, j.printed, w.machine);
      var v := Say(w, o);
      SayOnDisk(w, o, v);
      if j.printed {
        var victims :| MayDrop(w.done[j.id := j.now], victims) && w' == Confirmed(v, j, victims);
        SayOnDisk(v, Forgot(victims), Marked(v, j.id, j.now, victims, j.markSaved));
        EmitOnDisk(Marked(v, j.id, j.now, victims, j.markSaved), Completed(j.id), j.sent, j.resultSaved);
      } else {
        EmitOnDisk(v, Failed(j.id), j.sent, j.resultSaved);
      }
    }
  }

  lemma {:induction false} FlushedOnDisk(w: World, frames: seq<Frame>, w': World)
    requires IdsOnDisk(w) && w'.log == SayFlushed(w.log, frames, w.machine) && w'.disk.done == w'.done
    ensures IdsOnDisk(w')
  {
    hide IdsSurvive;
    if frames != [] {
      var n := |frames| - 1;
      var v := w.(log := SayFlushed(w.log, frames[..n], w.machine));
      FlushedOnDisk(w, frames[..n], v);
      SayOnDisk(v, Flushed(frames[n], w.machine), w');
    }
  }

  lemma OnDiskKept()
    ensures Kept(w => IdsOnDisk(w), j => MarksSaved(j), false)
  {
    hide HandledJob, IdsSurvive, SayFlushed, Rebuffered;
    forall w, s | IdsOnDisk(w) ensures IdsOnDisk(SetState(w, s)) {
      SayOnDisk(w, Tried(w, s), SetState(w, s));
    }
    forall w, n: nat | IdsOnDisk(w) ensures IdsOnDisk(Say(w, Waited(n))) {
      SayOnDisk(w, Waited(n), Say(w, Waited(n)));
    }
    forall w | IdsOnDisk(w) ensures IdsOnDisk(Reloaded(w)) {
      var o := Restarted(Disk(w.done, w.pending), w.disk);
      var v := World(Starting, w.disk.done, w.disk.pending, w.disk, w.log + [o]);
      SayOnDisk(w, o, v);
      SayOnDisk(v, Forgot(w.done.Keys - w.disk.done.Keys), Reloaded(w));
    }
    forall w, n: nat, saves | IdsOnDisk(w) ensures IdsOnDisk(FlushPending(w, n, saves)) {
      var k := if n < |w.pending| then n else |w.pending|;
      RebufferedIds(w.done, w.pending[k..], saves, w.disk);
      FlushedOnDisk(w, w.pending[..k], FlushPending(w, n, saves));
    }
    forall w, j, w' | IdsOnDisk(w) && MarksSaved(j) && HandledJob(w, j, w') ensures IdsOnDisk(w') {
      JobOnDisk(w, j, w');
    }
  }

  // For the ids to survive it is enough that the write after each printed job succeeds; writes of
  // results and of flushes may fail.
  lemma SavedMarksSurvive(file: Disk, script: seq<Step>, p: Process)
    requires Runs(Initial(file), script, p) && FairScript(script, j => MarksSaved(j), false)
    ensures IdsSurvive(p.w.log)
  {
    hide Kept, Runs, FairScript, IdsSurvive;
    OnDiskKept();
    NoRestart();
    RunKeeps(w => IdsOnDisk(w), j => MarksSaved(j), false, Initial(file), script, p);
  }

  lemma NoRestart()
    ensures IdsSurvive([])
  {
  }
}
