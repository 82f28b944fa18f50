/**
 When a job is printed again: exactly when a frame for it arrives while its id is not stored, and
 when that is so, told from the log of the run alone.
 */
module SessionReprint {
  import opened Agent
  import opened Store
  import opened Session
  import opened SessionSafety

  // ----- the ids stored after a log -----

  // The ids stored after log, when those of ids0 were in the file at the start.
  ghost function StoredAfter(log: seq<Obs>, ids0: set<string>): set<string> {
    if log == [] then ids0 else NextStored(StoredAfter(log[..|log| - 1], ids0), log[|log| - 1])
  }

  ghost function NextStored(ids: set<string>, o: Obs): set<string> {
    match o
    case Dispatched(id, printed, _) => if printed then ids + {id} else ids
    case Forgot(gone) => ids - gone
    case Restarted(_, file) => file.done.Keys
    case _ => ids
  }

  // What brings an id into the store, and what takes it out.
  ghost predicate Stores(o: Obs, id: string) {
    Success(o, id) || (o.Restarted? && id in o.file.done)
  }

  ghost predicate Loses(o: Obs, id: string) {
    (o.Forgot? && id in o.ids) || (o.Restarted? && id !in o.file.done)
  }

  // From observation a on, id is not lost.
  ghost predicate KeptFrom(log: seq<Obs>, a: int, id: string) {
    forall k :: a <= k < |log| && 0 <= k ==> !Loses(log[k], id)
  }

  // Observation a is the one by which id is stored after log; -1 stands for the file at the start.
  ghost predicate StoredBy(log: seq<Obs>, ids0: set<string>, id: string, a: int) {
    && -1 <= a < |log|
    && (if a == -1 then id in ids0 else Stores(log[a], id))
    && KeptFrom(log, a + 1, id)
  }

  lemma SayStored(log: seq<Obs>, o: Obs, ids0: set<string>)
    ensures StoredAfter(log + [o], ids0) == NextStored(StoredAfter(log, ids0), o)
  {
    assert (log + [o])[..|log|] == log;
  }

  lemma NextStoredIs(ids: set<string>, o: Obs, id: string)
    ensures id in NextStored(ids, o) <==> Stores(o, id) || (id in ids && !Loses(o, id))
  {
  }

  lemma StoredBySay(log: seq<Obs>, o: Obs, ids0: set<string>, id: string, a: int)
    ensures -1 <= a < |log| ==>
              (StoredBy(log + [o], ids0, id, a) <==> StoredBy(log, ids0, id, a) && !Loses(o, id))
    ensures StoredBy(log + [o], ids0, id, |log|) <==> Stores(o, id)
  {
    hide Loses, Stores;
    var all := log + [o];
    assert all[|log|] == o;
    if -1 <= a < |log| {
      assert a >= 0 ==> all[a] == log[a];
      if KeptFrom(all, a + 1, id) {
        forall k | a + 1 <= k < |log| && 0 <= k ensures !Loses(log[k], id) {
          assert all[k] == log[k];
        }
      }
      if KeptFrom(log, a + 1, id) && !Loses(o, id) {
        forall k | a + 1 <= k < |all| && 0 <= k ensures !Loses(all[k], id) {
          assert k < |log| ==> all[k] == log[k];
        }
      }
    }
  }

  // An id is stored exactly when something stored it and nothing has lost it since: it was printed,
  // or was in a file that was loaded, and neither pruned nor missing from a file loaded later.
  lemma {:induction false} StoredIff(log: seq<Obs>, ids0: set<string>, id: string)
    ensures id in StoredAfter(log, ids0) <==> exists a :: StoredBy(log, ids0, id, a)
  {
    hide StoredBy, NextStored, Stores, Loses;
    if log == [] {
      StoredAtStart(ids0, id);
    } else {
      var n := |log| - 1;
      var before, o := log[..n], log[n];
      assert log == before + [o];
      StoredIff(before, ids0, id);
      SayStored(before, o, ids0);
      NextStoredIs(StoredAfter(before, ids0), o, id);
      StoredBySay(before, o, ids0, id, n);
      if exists a :: StoredBy(log, ids0, id, a) {
        var a :| StoredBy(log, ids0, id, a);
        StoredByRange(log, ids0, id, a);
        StoredBySay(before, o, ids0, id, a);
      }
      if id in StoredAfter(before, ids0) && !Loses(o, id) {
        var a :| StoredBy(before, ids0, id, a);
        StoredByRange(before, ids0, id, a);
        StoredBySay(before, o, ids0, id, a);
      }
    }
  }

  lemma StoredByRange(log: seq<Obs>, ids0: set<string>, id: string, a: int)
    ensures StoredBy(log, ids0, id, a) ==> -1 <= a < |log|
  {
  }

  lemma StoredAtStart(ids0: set<string>, id: string)
    ensures id in StoredAfter([], ids0) <==> exists a :: StoredBy([], ids0, id, a)
  {
    assert StoredBy([], ids0, id, -1) <==> id in ids0;
  }

  // ----- what follows a frame -----

  // After each job frame its id is dispatched exactly if it is not stored, and nothing else is.
  ghost predicate Follows(log: seq<Obs>, ids0: set<string>, i: nat)
    requires i < |log|
  {
    && (log[i].Received? ==>
          && i + 1 < |log|
          && (log[i + 1].Dispatched? <==> log[i].id !in StoredAfter(log[..i], ids0)))
    && (log[i].Dispatched? ==> i > 0 && log[i - 1].Received? && log[i - 1].id == log[i].id)
  }

  ghost predicate Tells(w: World, ids0: set<string>) {
    StoredAfter(w.log, ids0) == w.done.Keys && forall i :: 0 <= i < |w.log| ==> Follows(w.log, ids0, i)
  }

  // One observation more, of anything but a frame or a dispatch.
  lemma FollowsMore(log: seq<Obs>, o: Obs, ids0: set<string>)
    requires forall i :: 0 <= i < |log| ==> Follows(log, ids0, i)
    requires !o.Received? && !o.Dispatched?
    ensures forall i :: 0 <= i < |log| + 1 ==> Follows(log + [o], ids0, i)
  {
    hide StoredAfter;
    var all := log + [o];
    forall i | 0 <= i < |all| ensures Follows(all, ids0, i) {
      if i < |log| {
        assert Follows(log, ids0, i);
        assert all[..i] == log[..i];
      }
    }
  }

  // A frame and what comes first after it.
  lemma FollowsFrame(log: seq<Obs>, id: string, acknowledged: bool, at: State, next: Obs, ids0: set<string>)
    requires forall i :: 0 <= i < |log| ==> Follows(log, ids0, i)
    requires !next.Received? && (next.Dispatched? ==> next.id == id)
    requires next.Dispatched? <==> id !in StoredAfter(log, ids0)
    ensures var all := log + [Received(id, acknowledged, at)] + [next];
            forall i :: 0 <= i < |all| ==> Follows(all, ids0, i)
  {
    hide StoredAfter;
    var all := log + [Received(id, acknowledged, at)] + [next];
    forall i | 0 <= i < |all| ensures Follows(all, ids0, i) {
      if i < |log| {
        assert Follows(log, ids0, i);
        assert all[..i] == log[..i];
        assert i + 1 < |log| ==> all[i + 1] == log[i + 1];
      } else if i == |log| {
        assert all[..i] == log;
      }
    }
  }

  lemma SayTells(w: World, o: Obs, w': World, ids0: set<string>)
    requires Tells(w, ids0) && !o.Received? && !o.Dispatched? && w'.log == w.log + [o]
    requires w'.done.Keys == NextStored(w.done.Keys, o)
    ensures Tells(w', ids0)
  {
    hide StoredAfter, Follows;
    SayStored(w.log, o, ids0);
    FollowsMore(w.log, o, ids0);
  }

  // A job frame with all that it brings.
  lemma JobTells(w: World, j: Job, w': World, ids0: set<string>)
    requires Tells(w, ids0) && HandledJob(w, j, w')
    ensures Tells(w', ids0)
  {
    hide StoredAfter, Follows, EmitResult, MayDrop, Marked;
    var r := Received(j.id, j.acknowledged, w.machine);
    var v := Say(w, r);
    SayStored(w.log, r, ids0);
    if j.id in w.done {
      KnownTells(w, r, Completed(j.id), j.sent, j.resultSaved, ids0);
    } else {
      var o := Dispatched(j.id, j.printed, w.machine);
      SayStored(v.log, o, ids0);
      FollowsFrame(w.log, j.id, j.acknowledged, w.machine, o, ids0);
      if j.printed {
        var u := Say(v, o);
        var victims :| MayDrop(v.done[j.id := j.now], victims) && w' == Confirmed(u, j, victims);
        MarkTells(u, j, victims, ids0);
        EmitTells(Marked(u, j.id, j.now, victims, j.markSaved), Completed(j.id), j.sent, j.resultSaved, ids0);
      } else {
        EmitTells(Say(v, o), Failed(j.id), j.sent, j.resultSaved, ids0);
      }
    }
  }

  lemma EmitTells(w: World, f: Frame, sent: bool, saved: bool, ids0: set<string>)
    requires Tells(w, ids0)
    ensures Tells(EmitResult(w, f, sent, saved), ids0)
  {
    hide Tells;
    var v := Say(w, Handled(f));
    SayTells(w, Handled(f), v, ids0);
    SayTells(v, if sent then Delivered(f) else Buffered(f), EmitResult(w, f, sent, saved), ids0);
  }

  lemma KnownTells(w: World, r: Obs, f: Frame, sent: bool, saved: bool, ids0: set<string>)
    requires Tells(w, ids0) && r.Received? && r.id in w.done
    ensures Tells(EmitResult(Say(w, r), f, sent, saved), ids0)
  {
    hide StoredAfter, Follows;
    var v := Say(w, r);
    SayStored(w.log, r, ids0);
    SayStored(v.log, Handled(f), ids0);
    FollowsFrame(w.log, r.id, r.acknowledged, r.at, Handled(f), ids0);
    var u := Say(v, Handled(f));
    assert Tells(u, ids0);
    SayTells(u, if sent then Delivered(f) else Buffered(f), EmitResult(v, f, sent, saved), ids0);
  }

  // Marking a job closes the gap between what the log says and what the memory holds.
  lemma MarkTells(u: World, j: Job, victims: set<string>, ids0: set<string>)
    requires StoredAfter(u.log, ids0) == u.done.Keys + {j.id}
    requires forall i :: 0 <= i < |u.log| ==> Follows(u.log, ids0, i)
    ensures Tells(Marked(u, j.id, j.now, victims, j.markSaved), ids0)
  {
    hide StoredAfter, Follows;
    var v := u.(done := u.done[j.id := j.now]);
    assert v.done.Keys == u.done.Keys + {j.id};
    assert Tells(v, ids0);
    SayTells(v, Forgot(victims), Marked(u, j.id, j.now, victims, j.markSaved), ids0);
  }

  lemma {:induction false} FlushedTells(w: World, frames: seq<Frame>, w': World, ids0: set<string>)
    requires Tells(w, ids0) && w'.log == SayFlushed(w.log, frames, w.machine) && w'.done == w.done
    ensures Tells(w', ids0)
  {
    hide StoredAfter, Follows;
    if frames != [] {
      var n := |frames| - 1;
      var v := w.(log := SayFlushed(w.log, frames[..n], w.machine));
      FlushedTells(w, frames[..n], v, ids0);
      SayTells(v, Flushed(frames[n], w.machine), w', ids0);
    }
  }

  lemma ReloadTells(w: World, ids0: set<string>)
    requires Tells(w, ids0)
    ensures Tells(Reloaded(w), ids0)
  {
    hide Tells;
    var o := Restarted(Disk(w.done, w.pending), w.disk);
    var v := World(Starting, w.disk.done, w.disk.pending, w.disk, w.log + [o]);
    SayTells(w, o, v, ids0);
    SayTells(v, Forgot(w.done.Keys - w.disk.done.Keys), Reloaded(w), ids0);
  }

  lemma TellsKept(ids0: set<string>)
    ensures Kept(w => Tells(w, ids0), j => true, false)
  {
    hide HandledJob, Tells, SayFlushed, Rebuffered, Reloaded;
    forall w, s | Tells(w, ids0) ensures Tells(SetState(w, s), ids0) {
      SayTells(w, Tried(w, s), SetState(w, s), ids0);
    }
    forall w, n: nat | Tells(w, ids0) ensures Tells(Say(w, Waited(n)), ids0) {
      SayTells(w, Waited(n), Say(w, Waited(n)), ids0);
    }
    forall w | Tells(w, ids0) ensures Tells(Reloaded(w), ids0) {
      ReloadTells(w, ids0);
    }
    forall w, n: nat, saves | Tells(w, ids0) ensures Tells(FlushPending(w, n, saves), ids0) {
      var k := if n < |w.pending| then n else |w.pending|;
      FlushedTells(w, w.pending[..k], FlushPending(w, n, saves), ids0);
    }
    forall w, j, w' | Tells(w, ids0) && HandledJob(w, j, w') ensures Tells(w', ids0) {
      JobTells(w, j, w', ids0);
    }
  }

  lemma RunTells(file: Disk, script: seq<Step>, p: Process)
    requires Runs(Initial(file), script, p)
    ensures Tells(p.w, file.done.Keys)
  {
    hide Kept, Runs;
    TellsKept(file.done.Keys);
    RunKeeps(w => Tells(w, file.done.Keys), j => true, false, Initial(file), script, p);
  }

  // ----- when a job is printed again -----

  // Over any run, whatever fails: what the log says is stored is what the memory holds, and a job
  // frame leads to a dispatch of its id exactly if that id is not stored.
  lemma DispatchedIff(file: Disk, script: seq<Step>, p: Process, i: nat)
    requires Runs(Initial(file), script, p)
    requires i < |p.w.log| && p.w.log[i].Received?
    ensures StoredAfter(p.w.log, file.done.Keys) == p.w.done.Keys
    ensures i + 1 < |p.w.log|
    ensures p.w.log[i + 1].Dispatched? <==> p.w.log[i].id !in StoredAfter(p.w.log[..i], file.done.Keys)
    ensures p.w.log[i + 1].Dispatched? ==> p.w.log[i + 1].id == p.w.log[i].id
  {
    hide Runs, StoredAfter;
    RunTells(file, script, p);
    assert Follows(p.w.log, file.done.Keys, i);
    assert Follows(p.w.log, file.done.Keys, i + 1);
  }

  // id was printed in the first n observations.
  ghost predicate PrintedIn(log: seq<Obs>, n: int, id: string) {
    exists a :: 0 <= a < n <= |log| && Success(log[a], id)
  }

  // The frame at i is for an id printed before, finds it not stored, and prints.
  ghost predicate Reprints(log: seq<Obs>, ids0: set<string>, i: int, id: string) {
    && 0 <= i && i + 1 < |log| && log[i].Received? && log[i].id == id
    && PrintedIn(log, i, id)
    && id !in StoredAfter(log[..i], ids0)
    && log[i + 1].Dispatched? && log[i + 1].printed
  }

  ghost predicate PrintedAgain(log: seq<Obs>, id: string) {
    exists a, b :: 0 <= a < b < |log| && Success(log[a], id) && Success(log[b], id)
  }

  // Over any run, whatever fails: an id is printed twice exactly when a frame for it arrives and
  // prints after it has been printed, while it is not stored.
  lemma PrintedAgainIff(file: Disk, script: seq<Step>, p: Process, id: string)
    requires Runs(Initial(file), script, p)
    ensures PrintedAgain(p.w.log, id) <==> exists i :: Reprints(p.w.log, file.done.Keys, i, id)
  {
    hide Runs, StoredAfter, PrintedIn;
    RunTells(file, script, p);
    var log, ids0 := p.w.log, file.done.Keys;
    if PrintedAgain(log, id) {
      var a, b :| 0 <= a < b < |log| && Success(log[a], id) && Success(log[b], id);
      AgainReprints(log, ids0, a, b, id);
    }
    if exists i :: Reprints(log, ids0, i, id) {
      var i :| Reprints(log, ids0, i, id);
      ReprintsAgain(log, ids0, i, id);
    }
  }

  lemma AgainReprints(log: seq<Obs>, ids0: set<string>, a: nat, b: nat, id: string)
    requires a < b < |log| && Success(log[a], id) && Success(log[b], id)
    requires forall i :: 0 <= i < |log| ==> Follows(log, ids0, i)
    ensures Reprints(log, ids0, b - 1, id)
  {
    hide StoredAfter;
    assert Follows(log, ids0, b) && Follows(log, ids0, b - 1);
  }

  lemma ReprintsAgain(log: seq<Obs>, ids0: set<string>, i: int, id: string)
    requires Reprints(log, ids0, i, id)
    requires forall k :: 0 <= k < |log| ==> Follows(log, ids0, k)
    ensures PrintedAgain(log, id)
  {
    hide StoredAfter;
    assert Follows(log, ids0, i + 1);
    var a :| 0 <= a < i && Success(log[a], id);
    assert Success(log[i + 1], id);
  }

  // ----- restarts -----

  // The ids that were printed and are stored.
  ghost predicate PrintedStored(w: World, id: string) { PrintedIn(w.log, |w.log|, id) && id in w.done }

  // A restart keeps the printed ids stored exactly if the file holds them: each one of them, and so
  // all of them.
  lemma RestartKeepsPrinted(file: Disk, script: seq<Step>, p: Process, q: Process)
    requires Runs(Initial(file), script, p) && Stepped(p, Restart, q)
    ensures forall id :: PrintedStored(p.w, id) ==> (PrintedStored(q.w, id) <==> id in p.w.disk.done)
    ensures (forall id :: PrintedStored(p.w, id) ==> id in StoredAfter(q.w.log, file.done.Keys))
            <==> (forall id :: PrintedStored(p.w, id) ==> id in p.w.disk.done)
  {
    hide Runs, StoredAfter, PrintedIn;
    RunsThen(Initial(file), script, p, Restart, q);
    RunTells(file, script + [Restart], q);
    forall id | PrintedStored(p.w, id) ensures PrintedIn(q.w.log, |q.w.log|, id) {
      PrintedStill(p.w.log, q.w.log, id);
    }
  }

  lemma PrintedStill(log: seq<Obs>, more: seq<Obs>, id: string)
    requires log <= more && PrintedIn(log, |log|, id)
    ensures PrintedIn(more, |more|, id)
  {
    var a :| 0 <= a < |log| && Success(log[a], id);
    assert more[a] == log[a];
  }
}
