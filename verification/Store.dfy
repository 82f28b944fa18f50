/**
 The job store (internal/adapters/store/filestore.go): ids of processed jobs, result frames that
 could not be sent, and the copy of both on disk.
 */
module Store {
  import opened Sorting

  const MAX_DONE: nat := 2000

  datatype Frame = Completed(id: string) | Failed(id: string)
  datatype Disk = Disk(done: map<string, int>, pending: seq<Frame>)

  // victims are what prune may drop of done: just enough ids to come down to MAX_DONE, none of
  // them newer than an id that stays. Among equal timestamps any choice will do.
  ghost predicate MayDrop(done: map<string, int>, victims: set<string>) {
    && victims <= done.Keys
    && |victims| == (if |done| > MAX_DONE then |done| - MAX_DONE else 0)
    && forall v, k :: v in victims && k in done && k !in victims ==> done[v] <= done[k]
  }

  // The ids strictly older than a time.
  ghost function Older(done: map<string, int>, time: int): set<string> {
    set k | k in done && done[k] < time
  }

  // The id just marked survives whenever enough ids are strictly older than it.
  lemma MarkedSurvives(done: map<string, int>, id: string, now: int, victims: set<string>)
    requires MayDrop(done[id := now], victims)
    requires |Older(done[id := now], now)| >= |victims|
    ensures id !in victims
  {
    var m := done[id := now];
    if id in victims {
      forall k | k in Older(m, now) ensures k in victims - {id} {
      }
      SubsetSize(Older(m, now), victims - {id});
    }
  }

  lemma {:induction false} SubsetSize<T>(a: set<T>, b: set<T>)
    requires a <= b
    ensures |a| <= |b|
  {
    if a != {} {
      var x :| x in a;
      SubsetSize(a - {x}, b - {x});
    }
  }

  // What is left when victims are dropped: all ids, or 2000 of them when there are more, with their
  // timestamps, and none that goes is newer than one that stays.
  lemma DroppedSize(done: map<string, int>, victims: set<string>)
    requires MayDrop(done, victims)
    ensures |done - victims| == if |done| > 2000 then 2000 else |done|
    ensures forall k :: k in done - victims ==> (done - victims)[k] == done[k]
    ensures forall v, k :: v in done && v !in done - victims && k in done - victims ==> done[v] <= done[k]
  {
    assert (done - victims).Keys == done.Keys - victims;
    assert done.Keys == (done.Keys - victims) + victims;
  }

  datatype Item = Item(id: string, ts: int)

  predicate OlderFirst(a: Item, b: Item) { a.ts <= b.ts }

  class JobStore {
    var done: map<string, int>
    var pending: seq<Frame>
    var disk: Disk

    // New: loads what the file holds.
    constructor (file: Disk)
      ensures done == file.done && pending == file.pending && disk == file
    {
      done, pending, disk := file.done, file.pending, file;
    }

    // Writing the file may fail; the failure is ignored.
    method Persist(saved: bool)
      modifies this`disk
      ensures disk == if saved then Disk(done, pending) else old(disk)
    {
      if saved {
        disk := Disk(done, pending);
      }
    }

    method Seen(id: string) returns (seen: bool)
      ensures seen <==> id in done
    {
      seen := id in done;
    }

    method MarkDone(id: string, now: int, saved: bool) returns (ghost victims: set<string>)
      modifies this
      ensures MayDrop(old(done)[id := now], victims)
      ensures done == old(done)[id := now] - victims && pending == old(pending)
      ensures disk == if saved then Disk(done, pending) else old(disk)
    {
      done := done[id := now];
      victims := Prune();
      Persist(saved);
    }

    method AddPending(frame: Frame, saved: bool)
      modifies this
      ensures pending == old(pending) + [frame] && done == old(done)
      ensures disk == if saved then Disk(done, pending) else old(disk)
    {
      pending := pending + [frame];
      Persist(saved);
    }

    method TakePending(saved: bool) returns (frames: seq<Frame>)
      modifies this
      ensures frames == old(pending) && pending == [] && done == old(done)
      ensures disk == if saved then Disk(done, pending) else old(disk)
    {
      frames := pending;
      pending := [];
      Persist(saved);
    }

    method Prune() returns (ghost victims: set<string>)
      modifies this`done
      ensures MayDrop(old(done), victims) && done == old(done) - victims
    {
      hide Lists, MayDrop;
      if |done| <= MAX_DONE {
        NoneDropped(done);
        victims := {};
        assert done - victims == done;
        return;
      }
      var items := ItemsOf(done);
      var sorted := SortByAge(items);
      SortedItems(done, items, sorted);
      ListSize(done, sorted);
      victims := DropFirst(sorted, |sorted| - MAX_DONE);
      OldestMayGo(old(done), sorted, |sorted| - MAX_DONE);
    }

    // Deletes the first n ids of the list.
    method DropFirst(sorted: seq<Item>, n: nat) returns (ghost victims: set<string>)
      requires Lists(done, sorted) && n <= |sorted|
      modifies this`done
      ensures victims == Ids(sorted, n) && |victims| == n
      ensures done == old(done) - victims
    {
      hide Ids, Lists;
      victims := {};
      NoIds(sorted);
      for k := 0 to n
        invariant victims == Ids(sorted, k) && |victims| == k
        invariant done == old(done) - victims
      {
        OneMore(old(done), sorted, k);
        done := done - {sorted[k].id};
        victims := victims + {sorted[k].id};
        assert done == old(done) - victims;
      }
    }
  }

  // The ids of the first n items.
  ghost function Ids(items: seq<Item>, n: nat): set<string>
    requires n <= |items|
  {
    set i | 0 <= i < n :: items[i].id
  }

  lemma NoIds(items: seq<Item>)
    ensures Ids(items, 0) == {}
  {
  }

  lemma OneMore(done: map<string, int>, items: seq<Item>, k: nat)
    requires Lists(done, items) && k < |items|
    ensures items[k].id !in Ids(items, k) && Ids(items, k + 1) == Ids(items, k) + {items[k].id}
  {
    forall x ensures x in Ids(items, k + 1) <==> x in Ids(items, k) + {items[k].id} {
      if x in Ids(items, k + 1) {
        var i :| 0 <= i < k + 1 && items[i].id == x;
        assert i < k ==> x in Ids(items, k);
      }
      assert items[k].id in Ids(items, k + 1);
    }
  }

  lemma NoneDropped(done: map<string, int>)
    requires |done| <= MAX_DONE
    ensures MayDrop(done, {})
  {
  }

  lemma ListSize(done: map<string, int>, items: seq<Item>)
    requires Lists(done, items)
    ensures |items| == |done|
  {
  }

  method SortByAge(items: seq<Item>) returns (sorted: seq<Item>)
    ensures multiset(sorted) == multiset(items) && |sorted| == |items|
    ensures Sorted(OlderFirst, sorted)
  {
    sorted := Sort(OlderFirst, items);
  }

  // items lists done, each id once.
  ghost predicate Lists(done: map<string, int>, items: seq<Item>) {
    && |items| == |done|
    && (forall k :: k in done ==> Item(k, done[k]) in items)
    && (forall i :: 0 <= i < |items| ==> items[i].id in done && items[i].ts == done[items[i].id])
    && (forall i, j :: 0 <= i < j < |items| ==> items[i].id != items[j].id)
  }

  // The entries of the map, in some order.
  method ItemsOf(done: map<string, int>) returns (items: seq<Item>)
    ensures Lists(done, items)
  {
    items := [];
    var left := done.Keys;
    while left != {}
      invariant left <= done.Keys && |items| + |left| == |done|
      invariant forall i :: 0 <= i < |items| ==>
          items[i].id in done && items[i].id !in left
          && items[i].ts == done[items[i].id]
      invariant forall k :: k in done && k !in left ==> Item(k, done[k]) in items
      invariant forall i, j :: 0 <= i < j < |items| ==> items[i].id != items[j].id
    {
      var id :| id in left;
      items := items + [Item(id, done[id])];
      left := left - {id};
    }
  }

  lemma SortedItems(done: map<string, int>, items: seq<Item>, sorted: seq<Item>)
    requires Lists(done, items) && multiset(sorted) == multiset(items) && |sorted| == |items|
    ensures Lists(done, sorted)
  {
    forall i | 0 <= i < |sorted| ensures sorted[i] in items {
      assert sorted[i] in multiset(sorted);
    }
    forall k | k in done ensures Item(k, done[k]) in sorted {
      assert Item(k, done[k]) in multiset(items);
    }
    StillOnce(items, sorted);
    forall i, j | 0 <= i < j < |sorted| ensures sorted[i].id != sorted[j].id {
      assert sorted[i] in items && sorted[j] in items;
    }
  }

  // The first n of the list sorted by age may go.
  lemma OldestMayGo(done: map<string, int>, sorted: seq<Item>, n: nat)
    requires Lists(done, sorted) && Sorted(OlderFirst, sorted)
    requires |done| > MAX_DONE && n == |done| - MAX_DONE
    requires |Ids(sorted, n)| == n
    ensures MayDrop(done, Ids(sorted, n))
  {
    var victims := Ids(sorted, n);
    forall v, k | v in victims && k in done && k !in victims ensures done[v] <= done[k] {
      var i :| 0 <= i < n && sorted[i].id == v;
      assert Item(k, done[k]) in sorted;
      var j :| 0 <= j < |sorted| && sorted[j] == Item(k, done[k]);
      assert j >= n;
      assert OlderFirst(sorted[i], sorted[j]);
    }
  }
}
