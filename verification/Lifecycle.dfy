/**
 The session loop of internal/app/lifecycle/lifecycle.go over its machine and its store. Each
 method does to the world what the relation of module Session allows; the environment comes in
 as the script of attempts and frames.
 */
module Lifecycle {
  import opened Agent
  import opened Store
  import opened Session

  class Lifecycle {
    const machine: Machine
    const store: JobStore
    ghost var log: seq<Obs>

    // A process starts: a new machine, and the store that the file holds.
    constructor (file: Disk)
      ensures fresh(machine) && fresh(store)
      ensures View() == Initial(file).w
    {
      machine := new Machine();
      store := new JobStore(file);
      log := [];
    }

    ghost function View(): World
      reads this, machine, store
    {
      World(machine.current, store.done, store.pending, store.disk, log)
    }

    // A refused transition is logged and otherwise ignored.
    method SetState(s: State)
      modifies this, machine
      ensures View() == Session.SetState(old(View()), s)
    {
      ghost var from := machine.current;
      var ok := machine.Transition(s);
      log := log + [if ok then Moved(from, s) else Refused(from, s)];
    }

    // emitResult: what cannot be sent is buffered.
    method EmitResult(f: Frame, sent: bool, saved: bool)
      modifies this, store
      ensures View() == Session.EmitResult(old(View()), f, sent, saved)
    {
      log := log + [Handled(f)];
      if !sent {
        store.AddPending(f, saved);
        log := log + [Buffered(f)];
      } else {
        log := log + [Delivered(f)];
      }
    }

    // handleJob: the receipt first; then a known id is confirmed again without printing.
    method HandleJob(j: Job)
      modifies this, store
      ensures HandledJob(old(View()), j, View())
    {
      hide Session.EmitResult, MayDrop;
      log := log + [Received(j.id, j.acknowledged, machine.current)];
      ghost var w := View();
      var seen := store.Seen(j.id);
      if seen {
        EmitResult(Completed(j.id), j.sent, j.resultSaved);
        return;
      }
      log := log + [Dispatched(j.id, j.printed, machine.current)];
      if !j.printed {
        EmitResult(Failed(j.id), j.sent, j.resultSaved);
        return;
      }
      ghost var v := View();
      assert v == Say(w, Dispatched(j.id, j.printed, w.machine));
      ghost var victims := store.MarkDone(j.id, j.now, j.markSaved);
      log := log + [Forgot(victims)];
      assert View() == Marked(v, j.id, j.now, victims, j.markSaved);
      ghost var m := View();
      EmitResult(Completed(j.id), j.sent, j.resultSaved);
      assert View() == Confirmed(v, j, victims);
    }

    // flushPending: resends in order; at the first failure the rest goes back to the buffer.
    method FlushPending(canSend: nat, saves: seq<bool>)
      modifies this, store
      ensures View() == Session.FlushPending(old(View()), canSend, saves)
    {
      ghost var w := View();
      var frames := store.TakePending(Saved(saves, 0));
      for i := 0 to |frames|
        invariant i <= canSend && store.pending == [] && store.done == w.done && machine.current == w.machine
        invariant store.disk == Rebuffered(w.done, [], saves, w.disk)
        invariant log == SayFlushed(w.log, frames[..i], w.machine)
      {
        if i == canSend {
          for k := i to |frames|
            invariant store.pending == frames[i..k] && store.done == w.done && machine.current == w.machine
            invariant store.disk == Rebuffered(w.done, frames[i..k], saves, w.disk)
            invariant log == SayFlushed(w.log, frames[..i], w.machine)
          {
            assert frames[i..k + 1][..k - i] == frames[i..k];
            store.AddPending(frames[k], Saved(saves, k - i + 1));
          }
          assert frames[i..|frames|] == frames[i..];
          return;
        }
        assert frames[..i + 1][..i] == frames[..i];
        log := log + [Flushed(frames[i], machine.current)];
      }
      assert frames[..|frames|] == frames;
    }

    // serve: frames one by one until the connection ends.
    method Serve(inputs: seq<Input>)
      modifies this, store
      ensures Served(old(View()), inputs, View())
    {
      hide HandledJob;
      ghost var w := View();
      for i := 0 to |inputs|
        invariant Served(w, inputs[..i], View())
      {
        ghost var mid := View();
        if inputs[i].JobFrame? {
          HandleJob(inputs[i].job);
        }
        ServedSnoc(w, inputs, i, mid, View());
      }
      assert inputs[..|inputs|] == inputs;
    }

    // authenticate
    method Authenticate(greeted: bool, reply: Reply) returns (ok: bool)
      modifies this, machine
      ensures ok <==> greeted && reply.Accepted?
      ensures var w := Session.SetState(old(View()), Authenticating);
              View() == if greeted && reply.Rejected? then Session.SetState(w, Error) else w
    {
      SetState(Authenticating);
      if !greeted {
        return false;
      }
      match reply
      case Accepted =>
        ok := true;
      case Rejected =>
        SetState(Error);
        ok := false;
      case NoReply =>
        ok := false;
    }

    // runOnce: one connection; DISCONNECTED is set on the way out, unless the process is killed.
    method RunOnce(a: Attempt, killed: bool)
      modifies this, machine, store
      ensures Attempted(old(View()), a, killed, View())
    {
      hide Session.SetState, Session.FlushPending, Served;
      SetState(Connecting);
      if !a.connected {
        SetState(Disconnected);
        return;
      }
      var ok := Authenticate(a.greeted, a.reply);
      if !ok {
        SetState(Disconnected);
        return;
      }
      SetState(Registering);
      SetState(Connected);
      FlushPending(a.flushed, a.saves);
      Serve(a.inputs);
      if !killed {
        SetState(Disconnected);
      }
    }

    // Run: attempts until the process is cancelled or killed. n attempts are made, and they
    // take the process from its start to last.
    method Run(script: seq<Step>) returns (ghost last: Process, ghost n: nat)
      requires forall i :: 0 <= i < |script| ==> script[i].Try?
      modifies this, machine, store
      ensures n <= |script| && Runs(Process(old(View()), true, 1), script[..n], last)
      ensures last.w == View() && (n == |script| || !last.running)
    {
      hide Session.SetState, Attempted;
      ghost var start := Process(View(), true, 1);
      var backoff: nat := 1;
      last, n := start, 0;
      for i := 0 to |script|
        invariant last == Process(View(), true, backoff) && n == i
        invariant Runs(start, script[..i], last)
      {
        var a, ending := script[i].attempt, script[i].ending;
        ghost var before := last;
        RunOnce(a, ending.Killed?);
        n := i + 1;
        match ending
        case Killed =>
          last := Process(View(), false, backoff);
          RunsSnoc(start, script, i, before, last);
          return;
        case CancelledDuring =>
          SetState(ShuttingDown);
          last := Process(View(), false, backoff);
          RunsSnoc(start, script, i, before, last);
          return;
        case CancelledWaiting =>
          SetState(Reconnecting);
          SetState(ShuttingDown);
          last := Process(View(), false, backoff);
          RunsSnoc(start, script, i, before, last);
          return;
        case GoesOn =>
          SetState(Reconnecting);
          log := log + [Waited(backoff)];
          backoff := if 2 * backoff > MAX_BACKOFF then MAX_BACKOFF else 2 * backoff;
          last := Process(View(), true, backoff);
          RunsSnoc(start, script, i, before, last);
      }
      assert script[..|script|] == script;
    }
  }

  lemma ServedSnoc(w: World, inputs: seq<Input>, i: nat, mid: World, w': World)
    requires i < |inputs| && Served(w, inputs[..i], mid) && HandledInput(mid, inputs[i], w')
    ensures Served(w, inputs[..i + 1], w')
  {
    hide HandledInput;
    assert inputs[..i + 1][..i] == inputs[..i];
  }

  lemma RunsSnoc(start: Process, script: seq<Step>, i: nat, mid: Process, last: Process)
    requires i < |script| && Runs(start, script[..i], mid) && Stepped(mid, script[i], last)
    ensures Runs(start, script[..i + 1], last)
  {
    hide Stepped;
    assert script[..i + 1][..i] == script[..i];
  }
}
