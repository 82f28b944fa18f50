/**
 The result frames of every run of the session: none lost, doubled or reordered within a process,
 and across restarts exactly as far as the file follows the memory.
 */
module SessionLedger {
  import opened Agent
  import opened Store
  import opened Session

  // The frames of the observations of one kind, in order.
  ghost function Results(log: seq<Obs>): seq<Frame> {
    if log == [] then []
    else Results(log[..|log| - 1]) + if log[|log| - 1].Handled? then [log[|log| - 1].frame] else []
  }

  ghost function Deliveries(log: seq<Obs>): seq<Frame> {
    if log == [] then []
    else Deliveries(log[..|log| - 1]) + if log[|log| - 1].Delivered? then [log[|log| - 1].frame] else []
  }

  ghost function Buffers(log: seq<Obs>): seq<Frame> {
    if log == [] then []
    else Buffers(log[..|log| - 1]) + if log[|log| - 1].Buffered? then [log[|log| - 1].frame] else []
  }

  ghost function Flushes(log: seq<Obs>): seq<Frame> {
    if log == [] then []
    else Flushes(log[..|log| - 1]) + if log[|log| - 1].Flushed? then [log[|log| - 1].frame] else []
  }

  // What was in memory when a process ended, and what the next one loaded, over all restarts.
  ghost function Dropped(log: seq<Obs>): seq<Frame> {
    if log == [] then []
    else Dropped(log[..|log| - 1]) + if log[|log| - 1].Restarted? then log[|log| - 1].memory.pending else []
  }

  ghost function Loaded(log: seq<Obs>): seq<Frame> {
    if log == [] then []
    else Loaded(log[..|log| - 1]) + if log[|log| - 1].Restarted? then log[|log| - 1].file.pending else []
  }

  // What is pending after log, when old frames were in the file at the start.
  ghost function PendingAfter(log: seq<Obs>, old0: seq<Frame>): seq<Frame> {
    if log == [] then old0 else NextPending(PendingAfter(log[..|log| - 1], old0), log[|log| - 1])
  }

  ghost function NextPending(before: seq<Frame>, o: Obs): seq<Frame> {
    match o
    case Buffered(f) => before + [f]
    case Flushed(_, _) => if before == [] then [] else before[1..]
    case Restarted(_, file) => file.pending
    case _ => before
  }

  // o may follow log: a flushed frame is the first pending one, and a process ends with what is pending.
  ghost predicate Fits(log: seq<Obs>, o: Obs, old0: seq<Frame>) {
    && (o.Flushed? ==> PendingAfter(log, old0) != [] && PendingAfter(log, old0)[0] == o.frame)
    && (o.Restarted? ==> o.memory.pending == PendingAfter(log, old0))
  }

  ghost predicate Booked(log: seq<Obs>, old0: seq<Frame>) {
    forall i :: 0 <= i < |log| ==> Fits(log[..i], log[i], old0)
  }

  // Every result was delivered or buffered, once.
  ghost predicate Accounted(log: seq<Obs>) {
    multiset(Results(log)) == multiset(Deliveries(log)) + multiset(Buffers(log))
  }

  // What was ever buffered is what was flushed, then what is pending, in order.
  ghost predicate Balanced(log: seq<Obs>, old0: seq<Frame>) {
    old0 + Buffers(log) == Flushes(log) + PendingAfter(log, old0)
  }

  // Every new process finds on disk the pending frames that the one before had in memory.
  ghost predicate FramesSurvive(log: seq<Obs>) {
    forall i :: 0 <= i < |log| && log[i].Restarted? ==> log[i].file.pending == log[i].memory.pending
  }

  lemma SayPending(log: seq<Obs>, o: Obs, old0: seq<Frame>)
    ensures Booked(log + [o], old0) <==> Booked(log, old0) && Fits(log, o, old0)
    ensures PendingAfter(log + [o], old0) == NextPending(PendingAfter(log, old0), o)
  {
    hide Fits;
    var all := log + [o];
    assert all[..|log|] == log && all[|log|] == o;
    forall i | 0 <= i < |log| ensures all[..i] == log[..i] && all[i] == log[i] {
    }
    if Booked(all, old0) {
      forall i | 0 <= i < |log| ensures Fits(log[..i], log[i], old0) {
        assert Fits(all[..i], all[i], old0);
      }
    }
  }

  lemma SayCounts(log: seq<Obs>, o: Obs)
    ensures Results(log + [o]) == Results(log) + if o.Handled? then [o.frame] else []
    ensures Deliveries(log + [o]) == Deliveries(log) + if o.Delivered? then [o.frame] else []
    ensures Buffers(log + [o]) == Buffers(log) + if o.Buffered? then [o.frame] else []
    ensures Flushes(log + [o]) == Flushes(log) + if o.Flushed? then [o.frame] else []
  {
    assert (log + [o])[..|log|] == log;
  }

  lemma OtherCounts(log: seq<Obs>, o: Obs)
    requires !o.Handled? && !o.Delivered? && !o.Buffered? && !o.Flushed?
    ensures Results(log + [o]) == Results(log) && Deliveries(log + [o]) == Deliveries(log)
    ensures Buffers(log + [o]) == Buffers(log) && Flushes(log + [o]) == Flushes(log)
  {
    SayCounts(log, o);
  }

  lemma EmptyTails(a: seq<Frame>, b: seq<Frame>, c: seq<Frame>, d: seq<Frame>)
    ensures a + [] == a && b + [] == b && c + [] == c && d + [] == d
  {
  }

  lemma {:induction false} SayFlushedCounts(log: seq<Obs>, frames: seq<Frame>, at: State)
    ensures var l := SayFlushed(log, frames, at);
            && Flushes(l) == Flushes(log) + frames
            && Buffers(l) == Buffers(log) && Results(l) == Results(log) && Deliveries(l) == Deliveries(log)
  {
    hide Results, Deliveries, Buffers, Flushes;
    EmptyTails(Results(log), Deliveries(log), Buffers(log), Flushes(log));
    if frames != [] {
      var n := |frames| - 1;
      SayFlushedCounts(log, frames[..n], at);
      var l := SayFlushed(log, frames[..n], at);
      SayCounts(l, Flushed(frames[n], at));
      EmptyTails(Results(l), Deliveries(l), Buffers(l), Flushes(l));
      assert Flushes(log) + frames[..n] + [frames[n]] == Flushes(log) + frames;
    }
  }

  lemma SayRestarts(log: seq<Obs>, o: Obs)
    ensures Dropped(log + [o]) == Dropped(log) + if o.Restarted? then o.memory.pending else []
    ensures Loaded(log + [o]) == Loaded(log) + if o.Restarted? then o.file.pending else []
  {
    assert (log + [o])[..|log|] == log;
  }

  // ----- what a log says of frames -----

  lemma SayBalance(log: seq<Obs>, o: Obs, old0: seq<Frame>)
    requires Fits(log, o, old0)
    ensures !o.Restarted? ==> (Balanced(log + [o], old0) <==> Balanced(log, old0))
    ensures o.Restarted? && Balanced(log, old0) ==> (Balanced(log + [o], old0) <==> o.file.pending == o.memory.pending)
  {
    hide Buffers, Flushes, PendingAfter, Booked, Results, Deliveries;
    SayCounts(log, o);
    SayPending(log, o, old0);
    var b, f, p := Buffers(log), Flushes(log), PendingAfter(log, old0);
    EmptyTails(b, f, [], []);
    if o.Buffered? {
      assert old0 + (b + [o.frame]) == (old0 + b) + [o.frame];
      assert f + (p + [o.frame]) == (f + p) + [o.frame];
      SameInit(old0 + b, f + p, o.frame);
    } else if o.Flushed? {
      assert f + [o.frame] + p[1..] == f + p;
    } else if o.Restarted? {
      SameTail(f, p, o.file.pending);
    }
  }

  lemma SameInit(a: seq<Frame>, b: seq<Frame>, x: Frame)
    ensures a + [x] == b + [x] <==> a == b
  {
    assert (a + [x])[..|a|] == a && (b + [x])[..|b|] == b;
    assert a + [x] == b + [x] ==> |a| == |b|;
  }

  lemma SameTail(f: seq<Frame>, p: seq<Frame>, q: seq<Frame>)
    ensures f + p == f + q <==> p == q
  {
    assert (f + p)[|f|..] == p && (f + q)[|f|..] == q;
  }

  ghost predicate AlwaysBalanced(log: seq<Obs>, old0: seq<Frame>) {
    forall k :: 0 <= k <= |log| ==> Balanced(log[..k], old0)
  }

  lemma SayAlways(log: seq<Obs>, o: Obs, old0: seq<Frame>)
    ensures AlwaysBalanced(log + [o], old0) <==> AlwaysBalanced(log, old0) && Balanced(log + [o], old0)
    ensures FramesSurvive(log + [o]) <==> FramesSurvive(log) && (o.Restarted? ==> o.file.pending == o.memory.pending)
    ensures AlwaysBalanced(log, old0) ==> Balanced(log, old0)
  {
    hide Balanced;
    var all, n := log + [o], |log|;
    assert all[..n + 1] == all && all[n] == o && log[..n] == log;
    forall k | 0 <= k <= n ensures all[..k] == log[..k] {
    }
    if AlwaysBalanced(all, old0) {
      forall k | 0 <= k <= n ensures Balanced(log[..k], old0) {
        assert Balanced(all[..k], old0);
      }
      assert Balanced(all[..n + 1], old0);
    }
    if FramesSurvive(all) {
      forall i | 0 <= i < n && log[i].Restarted? ensures log[i].file.pending == log[i].memory.pending {
        assert all[i] == log[i];
      }
    }
    assert FramesSurvive(log) ==> forall i :: 0 <= i < n && all[i].Restarted? ==> log[i] == all[i];
  }

  // The ledger balances at every moment exactly when the pending frames survive every restart.
  lemma {:induction false} BalancedIff(log: seq<Obs>, old0: seq<Frame>)
    requires Booked(log, old0)
    ensures AlwaysBalanced(log, old0) <==> FramesSurvive(log)
  {
    hide Balanced, Booked, Fits, AlwaysBalanced, FramesSurvive;
    if log == [] {
      NothingYet(old0);
    } else {
      var n := |log| - 1;
      var before, o := log[..n], log[n];
      assert log == before + [o];
      SayPending(before, o, old0);
      BalancedIff(before, old0);
      SayBalance(before, o, old0);
      SayAlways(before, o, old0);
    }
  }

  lemma NothingYet(old0: seq<Frame>)
    ensures AlwaysBalanced([], old0) && FramesSurvive([]) && Booked([], old0) && PendingAfter([], old0) == old0
    ensures Accounted([])
  {
    assert old0 + [] == old0 && [] + old0 == old0;
  }

  // Over any number of restarts: what was buffered or loaded was flushed or dropped, or is pending.
  lemma {:induction false} BookedTotals(log: seq<Obs>, old0: seq<Frame>)
    requires Booked(log, old0)
    ensures multiset(old0) + multiset(Buffers(log)) + multiset(Loaded(log))
         == multiset(Flushes(log)) + multiset(PendingAfter(log, old0)) + multiset(Dropped(log))
  {
    hide Booked, Fits;
    if log != [] {
      var n := |log| - 1;
      var before, o := log[..n], log[n];
      assert log == before + [o];
      SayPending(before, o, old0);
      BookedTotals(before, old0);
      hide Buffers, Flushes, PendingAfter, Loaded, Dropped;
      SayTotals(before, o, old0);
    }
  }

  lemma SayTotals(log: seq<Obs>, o: Obs, old0: seq<Frame>)
    requires Fits(log, o, old0)
    requires multiset(old0) + multiset(Buffers(log)) + multiset(Loaded(log))
          == multiset(Flushes(log)) + multiset(PendingAfter(log, old0)) + multiset(Dropped(log))
    ensures var all := log + [o];
            multiset(old0) + multiset(Buffers(all)) + multiset(Loaded(all))
            == multiset(Flushes(all)) + multiset(PendingAfter(all, old0)) + multiset(Dropped(all))
  {
    hide Buffers, Flushes, PendingAfter, Loaded, Dropped, Results, Deliveries, Booked;
    SayCounts(log, o);
    SayRestarts(log, o);
    SayPending(log, o, old0);
    var p := PendingAfter(log, old0);
    EmptyTails(Buffers(log), Flushes(log), Loaded(log), Dropped(log));
    if o.Buffered? {
      assert multiset(Buffers(log) + [o.frame]) == multiset(Buffers(log)) + multiset{o.frame};
      assert multiset(p + [o.frame]) == multiset(p) + multiset{o.frame};
      Deposited(multiset(old0), multiset(Buffers(log)), multiset(Loaded(log)), multiset(Flushes(log)), multiset(p),
                multiset(Dropped(log)), multiset{o.frame});
    } else if o.Flushed? {
      assert p == [o.frame] + p[1..];
      assert multiset(p) == multiset{o.frame} + multiset(p[1..]);
      assert multiset(Flushes(log) + [o.frame]) == multiset(Flushes(log)) + multiset{o.frame};
      MovedOver(multiset(Flushes(log)), multiset{o.frame}, multiset(p[1..]));
    } else if o.Restarted? {
      assert multiset(Loaded(log) + o.file.pending) == multiset(Loaded(log)) + multiset(o.file.pending);
      assert multiset(Dropped(log) + p) == multiset(Dropped(log)) + multiset(p);
      Exchanged(multiset(old0) + multiset(Buffers(log)), multiset(Loaded(log)), multiset(Flushes(log)), multiset(p),
                multiset(Dropped(log)), multiset(o.file.pending));
    }
  }

  lemma Deposited(a: multiset<Frame>, b: multiset<Frame>, l: multiset<Frame>, f: multiset<Frame>, p: multiset<Frame>,
                  d: multiset<Frame>, m: multiset<Frame>)
    requires a + b + l == f + p + d
    ensures a + (b + m) + l == f + (p + m) + d
  {
    forall x ensures (a + (b + m) + l)[x] == (f + (p + m) + d)[x] {
      assert (a + b + l)[x] == (f + p + d)[x];
    }
  }

  lemma MovedOver(f: multiset<Frame>, x: multiset<Frame>, q: multiset<Frame>)
    ensures f + (x + q) == (f + x) + q
  {
  }

  // The pending frames p are dropped and m are loaded.
  lemma Exchanged(a: multiset<Frame>, l: multiset<Frame>, f: multiset<Frame>, p: multiset<Frame>, d: multiset<Frame>,
                  m: multiset<Frame>)
    requires a + l == f + p + d
    ensures a + (l + m) == f + m + (d + p)
  {
    forall x ensures (a + (l + m))[x] == (f + m + (d + p))[x] {
      assert (a + l)[x] == (f + p + d)[x];
    }
  }

  // ----- one process -----

  // What the process that is running loaded, and what it has done since.
  ghost function LoadedLast(log: seq<Obs>, old0: seq<Frame>): seq<Frame> {
    if log == [] then old0
    else if log[|log| - 1].Restarted? then log[|log| - 1].file.pending
    else LoadedLast(log[..|log| - 1], old0)
  }

  ghost function Since(log: seq<Obs>): seq<Obs> {
    if log == [] || log[|log| - 1].Restarted? then [] else Since(log[..|log| - 1]) + [log[|log| - 1]]
  }

  lemma {:induction false} InProcess(log: seq<Obs>, old0: seq<Frame>)
    requires Booked(log, old0)
    ensures LoadedLast(log, old0) + Buffers(Since(log)) == Flushes(Since(log)) + PendingAfter(log, old0)
  {
    hide Booked, Fits;
    if log == [] {
      EmptyTails(old0, [], [], []);
      assert [] + old0 == old0;
    } else {
      var n := |log| - 1;
      var before, o := log[..n], log[n];
      assert log == before + [o];
      SayPending(before, o, old0);
      if o.Restarted? {
        EmptyTails(o.file.pending, [], [], []);
        assert [] + o.file.pending == o.file.pending;
      } else {
        InProcess(before, old0);
        ProcessStep(before, o, old0);
      }
    }
  }

  lemma ProcessStep(log: seq<Obs>, o: Obs, old0: seq<Frame>)
    requires Fits(log, o, old0) && !o.Restarted?
    requires LoadedLast(log, old0) + Buffers(Since(log)) == Flushes(Since(log)) + PendingAfter(log, old0)
    ensures var s := Since(log) + [o];
            LoadedLast(log, old0) + Buffers(s) == Flushes(s) + PendingAfter(log + [o], old0)
  {
    hide Buffers, Flushes, PendingAfter, Results, Deliveries, Booked, LoadedLast, Since;
    SayCounts(Since(log), o);
    SayPending(log, o, old0);
    var l, b, f, p := LoadedLast(log, old0), Buffers(Since(log)), Flushes(Since(log)), PendingAfter(log, old0);
    EmptyTails(b, f, [], []);
    if o.Buffered? {
      assert l + (b + [o.frame]) == (l + b) + [o.frame];
      assert f + (p + [o.frame]) == (f + p) + [o.frame];
    } else if o.Flushed? {
      assert f + [o.frame] + p[1..] == f + p;
    }
  }

  // ----- every run keeps its books -----

  ghost predicate KeepsBooks(w: World, old0: seq<Frame>) {
    Booked(w.log, old0) && PendingAfter(w.log, old0) == w.pending && Accounted(w.log)
  }

  // An observation that moves no frame.
  ghost predicate Idle(o: Obs) {
    !o.Handled? && !o.Delivered? && !o.Buffered? && !o.Flushed? && !o.Restarted?
  }

  lemma IdleKeeps(w: World, o: Obs, w': World, old0: seq<Frame>)
    requires KeepsBooks(w, old0) && Idle(o) && w'.log == w.log + [o] && w'.pending == w.pending
    ensures KeepsBooks(w', old0)
  {
    hide Results, Deliveries, Buffers, Flushes, PendingAfter, Booked;
    OtherCounts(w.log, o);
    SayPending(w.log, o, old0);
  }

  lemma EmitConserves(w: World, f: Frame, sent: bool, saved: bool, old0: seq<Frame>)
    requires KeepsBooks(w, old0)
    ensures KeepsBooks(EmitResult(w, f, sent, saved), old0)
  {
    hide Results, Deliveries, Buffers, Flushes, PendingAfter, Booked;
    var log := w.log + [Handled(f)];
    var o := if sent then Delivered(f) else Buffered(f);
    SayCounts(w.log, Handled(f));
    SayCounts(log, o);
    SayPending(w.log, Handled(f), old0);
    SayPending(log, o, old0);
    EmptyTails(Results(log), Deliveries(log), Buffers(log), Flushes(log));
    EmptyTails(Results(w.log), Deliveries(w.log), Buffers(w.log), Flushes(w.log));
  }

  lemma JobConserves(w: World, j: Job, w': World, old0: seq<Frame>)
    requires KeepsBooks(w, old0) && HandledJob(w, j, w')
    ensures KeepsBooks(w', old0)
  {
    hide KeepsBooks, AnsweredJob;
    var o := Received(j.id, j.acknowledged, w.machine);
    IdleKeeps(w, o, Say(w, o), old0);
    AnswerConserves(Say(w, o), j, w', old0);
  }

  lemma AnswerConserves(w: World, j: Job, w': World, old0: seq<Frame>)
    requires KeepsBooks(w, old0) && AnsweredJob(w, j, w')
    ensures KeepsBooks(w', old0)
  {
    hide KeepsBooks, EmitResult, MayDrop;
    if j.id in w.done {
      EmitConserves(w, Completed(j.id), j.sent, j.resultSaved, old0);
    } else {
      var o := Dispatched(j.id, j.printed, w.machine);
      var v := Say(w, o);
      IdleKeeps(w, o, v, old0);
      if j.printed {
        var victims :| MayDrop(w.done[j.id := j.now], victims) && w' == Confirmed(v, j, victims);
        IdleKeeps(v, Forgot(victims), Marked(v, j.id, j.now, victims, j.markSaved), old0);
        EmitConserves(Marked(v, j.id, j.now, victims, j.markSaved), Completed(j.id), j.sent, j.resultSaved, old0);
      } else {
        EmitConserves(v, Failed(j.id), j.sent, j.resultSaved, old0);
      }
    }
  }

  lemma {:induction false} FlushedBooked(log: seq<Obs>, frames: seq<Frame>, rest: seq<Frame>, at: State,
                                         old0: seq<Frame>)
    requires Booked(log, old0) && PendingAfter(log, old0) == frames + rest
    ensures Booked(SayFlushed(log, frames, at), old0) && PendingAfter(SayFlushed(log, frames, at), old0) == rest
  {
    hide Booked, PendingAfter;
    if frames == [] {
      assert frames + rest == rest;
    } else {
      var n := |frames| - 1;
      assert frames + rest == frames[..n] + ([frames[n]] + rest);
      FlushedBooked(log, frames[..n], [frames[n]] + rest, at, old0);
      SayPending(SayFlushed(log, frames[..n], at), Flushed(frames[n], at), old0);
    }
  }

  // A flush, wherever it stops, loses, doubles and reorders nothing.
  lemma FlushConserves(w: World, n: nat, saves: seq<bool>, old0: seq<Frame>)
    requires KeepsBooks(w, old0)
    ensures KeepsBooks(FlushPending(w, n, saves), old0)
  {
    hide Results, Deliveries, Buffers, Flushes, SayFlushed, Rebuffered, PendingAfter, Booked;
    var k := if n < |w.pending| then n else |w.pending|;
    assert w.pending == w.pending[..k] + w.pending[k..];
    SayFlushedCounts(w.log, w.pending[..k], w.machine);
    FlushedBooked(w.log, w.pending[..k], w.pending[k..], w.machine, old0);
  }

  // A restart keeps the books too; what it loads is what the file holds.
  lemma ReloadConserves(w: World, old0: seq<Frame>)
    requires KeepsBooks(w, old0)
    ensures KeepsBooks(Reloaded(w), old0)
  {
    hide Results, Deliveries, Buffers, Flushes, PendingAfter, Booked;
    var o := Restarted(Disk(w.done, w.pending), w.disk);
    OtherCounts(w.log, o);
    SayPending(w.log, o, old0);
    var v := World(Starting, w.disk.done, w.disk.pending, w.disk, w.log + [o]);
    IdleKeeps(v, Forgot(w.done.Keys - w.disk.done.Keys), Reloaded(w), old0);
  }

  // The step at which frames can go: the ledger balances after a restart exactly when the file
  // holds what is pending.
  lemma RestartBalances(w: World, old0: seq<Frame>)
    requires KeepsBooks(w, old0) && Balanced(w.log, old0)
    ensures Balanced(Reloaded(w).log, old0) <==> w.disk.pending == w.pending
  {
    hide Balanced, PendingAfter, Booked, Accounted;
    var o := Restarted(Disk(w.done, w.pending), w.disk);
    SayBalance(w.log, o, old0);
    ForgotFits(w.log + [o], w.done.Keys - w.disk.done.Keys, old0);
    SayBalance(w.log + [o], Forgot(w.done.Keys - w.disk.done.Keys), old0);
  }

  lemma ForgotFits(log: seq<Obs>, ids: set<string>, old0: seq<Frame>)
    ensures Fits(log, Forgot(ids), old0)
  {
  }

  lemma BooksKept(old0: seq<Frame>)
    ensures Kept(w => KeepsBooks(w, old0), j => true, false)
  {
    hide HandledJob, FlushPending, KeepsBooks, Reloaded;
    forall w, s | KeepsBooks(w, old0) ensures KeepsBooks(SetState(w, s), old0) {
      IdleKeeps(w, Tried(w, s), SetState(w, s), old0);
    }
    forall w, n: nat | KeepsBooks(w, old0) ensures KeepsBooks(Say(w, Waited(n)), old0) {
      IdleKeeps(w, Waited(n), Say(w, Waited(n)), old0);
    }
    forall w | KeepsBooks(w, old0) ensures KeepsBooks(Reloaded(w), old0) {
      ReloadConserves(w, old0);
    }
    forall w, n: nat, saves | KeepsBooks(w, old0) ensures KeepsBooks(FlushPending(w, n, saves), old0) {
      FlushConserves(w, n, saves, old0);
    }
    forall w, j, w' | KeepsBooks(w, old0) && HandledJob(w, j, w') ensures KeepsBooks(w', old0) {
      JobConserves(w, j, w', old0);
    }
  }

  lemma RunKeepsBooks(file: Disk, script: seq<Step>, p: Process)
    requires Runs(Initial(file), script, p)
    ensures KeepsBooks(p.w, file.pending)
  {
    hide Kept, Runs, KeepsBooks;
    BooksKept(file.pending);
    StartsBooks(file);
    RunKeeps(w => KeepsBooks(w, file.pending), j => true, false, Initial(file), script, p);
  }

  lemma StartsBooks(file: Disk)
    ensures KeepsBooks(Initial(file).w, file.pending)
  {
    NothingYet(file.pending);
  }

  // Over any run, whatever fails, disk writes included: within the process that is running, the
  // frames it loaded and buffered are the ones it flushed followed by the pending ones, in order,
  // and every result of the whole run was delivered or buffered, once.
  lemma ProcessConserves(file: Disk, script: seq<Step>, p: Process)
    requires Runs(Initial(file), script, p)
    ensures LoadedLast(p.w.log, file.pending) + Buffers(Since(p.w.log)) == Flushes(Since(p.w.log)) + p.w.pending
    ensures multiset(Results(p.w.log)) == multiset(Deliveries(p.w.log)) + multiset(Buffers(p.w.log))
  {
    hide Runs, Booked, PendingAfter, Buffers, Flushes, Results, Deliveries, Since, LoadedLast;
    RunKeepsBooks(file, script, p);
    InProcess(p.w.log, file.pending);
  }

  // Over any run, whatever fails: the ledger of the whole run balances at every moment exactly when
  // every new process finds on disk the frames that were pending.
  lemma ResultsConserved(file: Disk, script: seq<Step>, p: Process)
    requires Runs(Initial(file), script, p)
    ensures AlwaysBalanced(p.w.log, file.pending) <==> FramesSurvive(p.w.log)
    ensures PendingAfter(p.w.log, file.pending) == p.w.pending
  {
    hide Runs, Booked, AlwaysBalanced, FramesSurvive, Accounted, PendingAfter;
    RunKeepsBooks(file, script, p);
    BalancedIff(p.w.log, file.pending);
  }

  // In numbers: what was in the file at the start, handled, or loaded at a restart was delivered,
  // flushed or dropped at a restart, or is pending. So results and deliveries add up exactly when
  // the frames dropped are, as many times each, the frames loaded.
  lemma FramesAddUp(file: Disk, script: seq<Step>, p: Process)
    requires Runs(Initial(file), script, p)
    ensures var log := p.w.log;
            var ins, outs := multiset(file.pending) + multiset(Results(log)),
                             multiset(Deliveries(log)) + multiset(Flushes(log)) + multiset(p.w.pending);
            && ins + multiset(Loaded(log)) == outs + multiset(Dropped(log))
            && (ins == outs <==> multiset(Loaded(log)) == multiset(Dropped(log)))
  {
    hide Runs, Booked, PendingAfter, Buffers, Flushes, Results, Deliveries, Loaded, Dropped;
    RunKeepsBooks(file, script, p);
    BookedTotals(p.w.log, file.pending);
    var log := p.w.log;
    Totals(multiset(file.pending), multiset(Results(log)), multiset(Deliveries(log)), multiset(Buffers(log)),
           multiset(Flushes(log)), multiset(p.w.pending), multiset(Loaded(log)), multiset(Dropped(log)));
  }

  lemma Totals(a: multiset<Frame>, r: multiset<Frame>, s: multiset<Frame>, b: multiset<Frame>,
               f: multiset<Frame>, p: multiset<Frame>, l: multiset<Frame>, d: multiset<Frame>)
    requires a + b + l == f + p + d && r == s + b
    ensures (a + r) + l == (s + f + p) + d
    ensures a + r == s + f + p <==> l == d
  {
    forall x ensures (a + r)[x] + l[x] == (s + f + p)[x] + d[x] {
      assert (a + b + l)[x] == (f + p + d)[x];
    }
  }

  // ----- when frames survive -----

  ghost predicate FramesOnDisk(w: World) { w.disk.pending == w.pending && FramesSurvive(w.log) }

  // The write after buffering a result succeeds.
  ghost predicate ResultSaved(j: Job) { !j.sent ==> j.resultSaved }

  lemma SayFramesOnDisk(w: World, o: Obs, w': World)
    requires FramesOnDisk(w) && w'.log == w.log + [o] && w'.disk.pending == w'.pending
    requires o.Restarted? ==> o.memory.pending == o.file.pending
    ensures FramesOnDisk(w')
  {
  }

  lemma EmitFramesOnDisk(w: World, f: Frame, sent: bool, saved: bool)
    requires FramesOnDisk(w) && (!sent ==> saved)
    ensures FramesOnDisk(EmitResult(w, f, sent, saved))
  {
    hide FramesSurvive;
    var v := Say(w, Handled(f));
    SayFramesOnDisk(w, Handled(f), v);
    SayFramesOnDisk(v, if sent then Delivered(f) else Buffered(f), EmitResult(w, f, sent, saved));
  }

  lemma JobFramesOnDisk(w: World, j: Job, w': World)
    requires FramesOnDisk(w) && ResultSaved(j) && HandledJob(w, j, w')
    ensures FramesOnDisk(w')
  {
    hide FramesSurvive, AnsweredJob;
    var o := Received(j.id, j.acknowledged, w.machine);
    SayFramesOnDisk(w, o, Say(w, o));
    AnswerFramesOnDisk(Say(w, o), j, w');
  }

  lemma AnswerFramesOnDisk(w: World, j: Job, w': World)
    requires FramesOnDisk(w) && ResultSaved(j) && AnsweredJob(w, j, w')
    ensures FramesOnDisk(w')
  {
    hide FramesSurvive, EmitResult, MayDrop;
    if j.id in w.done {
      EmitFramesOnDisk(w, Completed(j.id), j.sent, j.resultSaved);
    } else {
      var o := Dispatched(j.id, j.printed, w.machine);
      var v := Say(w, o);
      SayFramesOnDisk(w, o, v);
      if j.printed {
        var victims :| MayDrop(w.done[j.id := j.now], victims) && w' == Confirmed(v, j, victims);
        SayFramesOnDisk(v, Forgot(victims), Marked(v, j.id, j.now, victims, j.markSaved));
        EmitFramesOnDisk(Marked(v, j.id, j.now, victims, j.markSaved), Completed(j.id), j.sent, j.resultSaved);
      } else {
        EmitFramesOnDisk(v, Failed(j.id), j.sent, j.resultSaved);
      }
    }
  }

  lemma {:induction false} FlushedFramesOnDisk(w: World, frames: seq<Frame>, w': World)
    requires FramesOnDisk(w) && w'.log == SayFlushed(w.log, frames, w.machine) && w'.disk.pending == w'.pending
    ensures FramesOnDisk(w')
  {
    hide FramesSurvive;
    if frames != [] {
      var n := |frames| - 1;
      var v := w.(log := SayFlushed(w.log, frames[..n], w.machine));
      FlushedFramesOnDisk(w, frames[..n], v);
      SayFramesOnDisk(v, Flushed(frames[n], w.machine), w');
    }
  }

  lemma FlushSaved(w: World, n: nat, saves: seq<bool>)
    requires AllSaved(saves)
    ensures var w' := FlushPending(w, n, saves); w'.disk.pending == w'.pending
  {
  }

  lemma FramesOnDiskKept()
    ensures Kept(w => FramesOnDisk(w), j => ResultSaved(j), true)
  {
    hide HandledJob, FramesSurvive, SayFlushed, Rebuffered, AllSaved;
    forall w, s | FramesOnDisk(w) ensures FramesOnDisk(SetState(w, s)) {
      SayFramesOnDisk(w, Tried(w, s), SetState(w, s));
    }
    forall w, n: nat | FramesOnDisk(w) ensures FramesOnDisk(Say(w, Waited(n))) {
      SayFramesOnDisk(w, Waited(n), Say(w, Waited(n)));
    }
    forall w | FramesOnDisk(w) ensures FramesOnDisk(Reloaded(w)) {
      var o := Restarted(Disk(w.done, w.pending), w.disk);
      var v := World(Starting, w.disk.done, w.disk.pending, w.disk, w.log + [o]);
      SayFramesOnDisk(w, o, v);
      SayFramesOnDisk(v, Forgot(w.done.Keys - w.disk.done.Keys), Reloaded(w));
    }
    forall w, n: nat, saves | FramesOnDisk(w) && AllSaved(saves) ensures FramesOnDisk(FlushPending(w, n, saves)) {
      var k := if n < |w.pending| then n else |w.pending|;
      FlushSaved(w, n, saves);
      FlushedFramesOnDisk(w, w.pending[..k], FlushPending(w, n, saves));
    }
    forall w, j, w' | FramesOnDisk(w) && ResultSaved(j) && HandledJob(w, j, w') ensures FramesOnDisk(w') {
      JobFramesOnDisk(w, j, w');
    }
  }

  // For the frames to survive it is enough that the writes of a flush and the one after each
  // buffered result succeed.
  lemma SavedFramesSurvive(file: Disk, script: seq<Step>, p: Process)
    requires Runs(Initial(file), script, p) && FairScript(script, j => ResultSaved(j), true)
    ensures FramesSurvive(p.w.log)
  {
    hide Kept, Runs, FairScript, FramesSurvive;
    FramesOnDiskKept();
    NothingYet(file.pending);
    RunKeeps(w => FramesOnDisk(w), j => ResultSaved(j), true, Initial(file), script, p);
  }

  // ----- every job frame is answered once -----

  ghost function Ids(frames: seq<Frame>): seq<string> {
    if frames == [] then [] else Ids(frames[..|frames| - 1]) + [frames[|frames| - 1].id]
  }

  // The ids of the job frames among inputs.
  ghost function JobIds(inputs: seq<Input>): seq<string> {
    if inputs == [] then []
    else
      var n := |inputs| - 1;
      JobIds(inputs[..n]) + if inputs[n].JobFrame? then [inputs[n].job.id] else []
  }

  // The job frames that a script brings to a session that got as far as serving.
  ghost function Asked(script: seq<Step>): seq<string> {
    if script == [] then []
    else
      var n := |script| - 1;
      var s := script[n];
      Asked(script[..n])
      + if s.Try? && ComesUp(s.attempt) then JobIds(s.attempt.inputs) else []
  }

  ghost function Answers(log: seq<Obs>): seq<string> { Ids(Results(log)) }

  lemma AnswersSay(log: seq<Obs>, o: Obs)
    ensures Answers(log + [o]) == if o.Handled? then Answers(log) + [o.frame.id] else Answers(log)
  {
    hide Results;
    SayCounts(log, o);
    if o.Handled? {
      assert (Results(log) + [o.frame])[..|Results(log)|] == Results(log);
    } else {
      assert Results(log) + [] == Results(log);
    }
  }

  lemma EmitAnswers(w: World, f: Frame, sent: bool, saved: bool)
    ensures Answers(EmitResult(w, f, sent, saved).log) == Answers(w.log) + [f.id]
  {
    hide Answers;
    AnswersSay(w.log, Handled(f));
    AnswersSay(w.log + [Handled(f)], if sent then Delivered(f) else Buffered(f));
  }

  lemma JobAnswered(w: World, j: Job, w': World)
    requires HandledJob(w, j, w')
    ensures Answers(w'.log) == Answers(w.log) + [j.id]
  {
    hide Answers, AnsweredJob;
    AnswersSay(w.log, Received(j.id, j.acknowledged, w.machine));
    AnsweredOnce(Say(w, Received(j.id, j.acknowledged, w.machine)), j, w');
  }

  lemma AnsweredOnce(w: World, j: Job, w': World)
    requires AnsweredJob(w, j, w')
    ensures Answers(w'.log) == Answers(w.log) + [j.id]
  {
    hide Answers, EmitResult;
    if j.id in w.done {
      EmitAnswers(w, Completed(j.id), j.sent, j.resultSaved);
    } else {
      var o := Dispatched(j.id, j.printed, w.machine);
      var v := Say(w, o);
      AnswersSay(w.log, o);
      if j.printed {
        var victims :| MayDrop(w.done[j.id := j.now], victims) && w' == Confirmed(v, j, victims);
        AnswersSay(v.log, Forgot(victims));
        EmitAnswers(Marked(v, j.id, j.now, victims, j.markSaved), Completed(j.id), j.sent, j.resultSaved);
      } else {
        EmitAnswers(v, Failed(j.id), j.sent, j.resultSaved);
      }
    }
  }

  lemma {:induction false} InputsAnswered(w: World, inputs: seq<Input>, w': World)
    requires Served(w, inputs, w')
    ensures Answers(w'.log) == Answers(w.log) + JobIds(inputs)
  {
    hide Answers, HandledJob;
    if inputs == [] {
      assert Answers(w.log) + [] == Answers(w.log);
    } else {
      var n := |inputs| - 1;
      var mid :| Served(w, inputs[..n], mid) && HandledInput(mid, inputs[n], w');
      InputsAnswered(w, inputs[..n], mid);
      if inputs[n].JobFrame? {
        JobAnswered(mid, inputs[n].job, w');
        assert Answers(w.log) + JobIds(inputs[..n]) + [inputs[n].job.id] == Answers(w.log) + JobIds(inputs);
      } else {
        assert JobIds(inputs[..n]) + [] == JobIds(inputs[..n]);
      }
    }
  }

  lemma StateAnswers(w: World, s: State)
    ensures Answers(SetState(w, s).log) == Answers(w.log)
  {
    hide Answers;
    AnswersSay(w.log, Moved(w.machine, s));
    AnswersSay(w.log, Refused(w.machine, s));
  }

  lemma FlushAnswers(w: World, n: nat, saves: seq<bool>)
    ensures Answers(FlushPending(w, n, saves).log) == Answers(w.log)
  {
    hide Results, SayFlushed, Rebuffered;
    var k := if n < |w.pending| then n else |w.pending|;
    SayFlushedCounts(w.log, w.pending[..k], w.machine);
  }

  lemma AttemptAnswers(w: World, a: Attempt, killed: bool, w': World)
    requires Attempted(w, a, killed, w')
    ensures Answers(w'.log) == Answers(w.log)
         + if ComesUp(a) then JobIds(a.inputs) else []
  {
    hide Answers, SetState, FlushPending, Served, JobIds;
    var connecting := SetState(w, Connecting);
    var authenticating := SetState(connecting, Authenticating);
    StateAnswers(w, Connecting);
    StateAnswers(connecting, Authenticating);
    assert Answers(w.log) + [] == Answers(w.log);
    if !a.connected {
      StateAnswers(connecting, Disconnected);
    } else if !a.greeted || a.reply.NoReply? {
      StateAnswers(authenticating, Disconnected);
    } else if a.reply.Rejected? {
      StateAnswers(authenticating, Error);
      StateAnswers(SetState(authenticating, Error), Disconnected);
    } else {
      var registering := SetState(authenticating, Registering);
      var connected := SetState(registering, Connected);
      StateAnswers(authenticating, Registering);
      StateAnswers(registering, Connected);
      FlushAnswers(connected, a.flushed, a.saves);
      var up := FlushPending(connected, a.flushed, a.saves);
      var served :| Served(up, a.inputs, served) && w' == if killed then served else SetState(served, Disconnected);
      InputsAnswered(up, a.inputs, served);
      StateAnswers(served, Disconnected);
    }
  }

  // Over any run, whatever fails: the results, in order, are one per job frame served.
  lemma {:induction false} EveryJobAnswered(file: Disk, script: seq<Step>, p: Process)
    requires Runs(Initial(file), script, p)
    ensures Answers(p.w.log) == Asked(script)
  {
    hide Answers, SetState, Attempted, JobIds;
    if script == [] {
      NoAnswers();
    } else {
      var n := |script| - 1;
      var mid :| Runs(Initial(file), script[..n], mid) && Stepped(mid, script[n], p);
      EveryJobAnswered(file, script[..n], mid);
      StepAnswers(mid, script[n], p);
    }
  }

  lemma NoAnswers()
    ensures Answers([]) == []
  {
  }

  lemma StepAnswers(p: Process, s: Step, p': Process)
    requires Stepped(p, s, p')
    ensures Answers(p'.w.log) == Answers(p.w.log)
         + if s.Try? && ComesUp(s.attempt) then JobIds(s.attempt.inputs) else []
  {
    hide Answers, SetState, Attempted, JobIds;
    match s
    case Restart =>
      var o := Restarted(Disk(p.w.done, p.w.pending), p.w.disk);
      AnswersSay(p.w.log, o);
      AnswersSay(p.w.log + [o], Forgot(p.w.done.Keys - p.w.disk.done.Keys));
      assert Answers(p.w.log) + [] == Answers(p.w.log);
    case Try(a, ending) =>
      forall w | Attempted(p.w, a, ending.Killed?, w)
        ensures Answers(w.log) == Answers(p.w.log) + if ComesUp(a) then JobIds(a.inputs) else []
        ensures Answers(SetState(w, ShuttingDown).log) == Answers(w.log)
        ensures Answers(SetState(w, Reconnecting).log) == Answers(w.log)
        ensures Answers(SetState(SetState(w, Reconnecting), ShuttingDown).log) == Answers(w.log)
        ensures Answers(Say(SetState(w, Reconnecting), Waited(p.backoff)).log) == Answers(w.log)
      {
        AttemptAnswers(p.w, a, ending.Killed?, w);
        StateAnswers(w, ShuttingDown);
        StateAnswers(w, Reconnecting);
        StateAnswers(SetState(w, Reconnecting), ShuttingDown);
        AnswersSay(SetState(w, Reconnecting).log, Waited(p.backoff));
      }
  }
}
