/**
 The resource section writer of tools/winres/coff.go: resources, sorted by type and id, laid
 out as a three-level directory tree (type, id, language), data entries and blobs.
 */
module Rsrc {
  import opened Bytes
  import opened Sorting

  const LANG_EN_US: u32 := 0x0409

  datatype Resource = Resource(typ: u16, id: u16, data: seq<byte>)
  datatype Group = Group(typ: u16, list: seq<Resource>)
  datatype Section = Section(bytes: seq<byte>, relocs: seq<u32>)

  predicate KeyLe(a: Resource, b: Resource) {
    a.typ < b.typ || (a.typ == b.typ && a.id <= b.id)
  }

  predicate KeyLt(a: Resource, b: Resource) {
    a.typ < b.typ || (a.typ == b.typ && a.id < b.id)
  }

  ghost predicate SortOf(sorted: seq<Resource>, res: seq<Resource>) {
    multiset(sorted) == multiset(res) && Sorted(KeyLe, sorted) && |sorted| == |res|
  }

  function Align(n: nat, to: nat): (r: nat)
    requires to > 0
    ensures n <= r < n + to
  {
    var r := n % to;
    if r != 0 then n + to - r else n
  }

  // Of the positions from n on, the first that is a multiple.
  lemma AlignFirst(n: nat, to: nat, m: nat)
    requires to > 0 && n <= m && m % to == 0
    ensures Align(n, to) % to == 0 && Align(n, to) <= m
  {
    var q, r, k := n / to, n % to, m / to;
    DivMod(n, to);
    DivMod(m, to);
    if r != 0 {
      NextMultiple(to, q, r, k);
      Multiple(q + 1, to);
    }
  }

  lemma DivMod(n: nat, to: nat)
    requires to > 0
    ensures n == to * (n / to) + n % to && to * (n / to + 1) == to * (n / to) + to
  {
  }

  lemma NextMultiple(to: nat, q: nat, r: nat, k: nat)
    requires 0 < r < to && to * q + r <= to * k
    ensures to * (q + 1) <= to * k
  {
    if k <= q {
      Times(to, k, q);
    } else {
      Times(to, q + 1, k);
    }
  }

  lemma Times(c: nat, a: nat, b: nat)
    requires a <= b
    ensures c * a <= c * b
  {
  }

  lemma Multiple(k: nat, to: nat)
    requires to > 0
    ensures (to * k) % to == 0
  {
    var m := to * k;
    var q, r := m / to, m % to;
    assert m == to * q + r;
    if k < q {
      Times(to, k + 1, q);
    } else if q < k {
      Times(to, q + 1, k);
    }
  }

  // ----- grouping by type -----

  // How many resources the groups before g hold.
  ghost function First(gs: seq<Group>, g: nat): nat
    requires g <= |gs|
  {
    if g == 0 then 0 else First(gs, g - 1) + |gs[g - 1].list|
  }

  lemma {:induction false} FirstMono(gs: seq<Group>, a: nat, b: nat)
    requires a < b <= |gs|
    ensures First(gs, a) + |gs[a].list| <= First(gs, b)
  {
    if a < b - 1 {
      FirstMono(gs, a, b - 1);
    }
  }

  lemma {:induction false} FirstAgrees(gs: seq<Group>, hs: seq<Group>, g: nat)
    requires g <= |gs| && g <= |hs|
    requires forall k :: 0 <= k < g ==> gs[k] == hs[k]
    ensures First(gs, g) == First(hs, g)
  {
    if g > 0 {
      FirstAgrees(gs, hs, g - 1);
    }
  }

  // The resources of group g are at their places in sorted, and of its type.
  ghost predicate Placed(sorted: seq<Resource>, gs: seq<Group>, g: nat)
    requires g < |gs|
  {
    var at, list := First(gs, g), gs[g].list;
    && at + |list| <= |sorted| && sorted[at..at + |list|] == list
    && forall i :: 0 <= i < |list| ==> list[i].typ == gs[g].typ
  }

  // The groups split sorted into maximal runs of one type, in order.
  ghost predicate Grouped(sorted: seq<Resource>, gs: seq<Group>) {
    && |sorted| == First(gs, |gs|)
    && (forall g :: 0 <= g < |gs| ==> gs[g].list != [])
    && (forall g, h :: 0 <= g < h < |gs| ==> gs[g].typ < gs[h].typ)
    && (forall g :: 0 <= g < |gs| ==> Placed(sorted, gs, g))
  }

  lemma {:induction false} FirstAppend(gs: seq<Group>, last: Group)
    ensures forall g :: 0 <= g <= |gs| ==> First(gs + [last], g) == First(gs, g)
    ensures First(gs + [last], |gs| + 1) == First(gs, |gs|) + |last.list|
  {
    forall g | 0 <= g <= |gs| ensures First(gs + [last], g) == First(gs, g) {
      FirstAgrees(gs, gs + [last], g);
    }
  }

  lemma {:induction false} PlacedAt(sorted: seq<Resource>, gs: seq<Group>, g: nat, i: nat)
    requires g < |gs| && Placed(sorted, gs, g) && i < |gs[g].list|
    ensures First(gs, g) + i < |sorted|
    ensures sorted[First(gs, g) + i] == gs[g].list[i]
    ensures gs[g].list[i].typ == gs[g].typ
  {
    hide First;
    var at, list := First(gs, g), gs[g].list;
    assert sorted[at..at + |list|][i] == sorted[at + i];
  }

  lemma {:induction false} PlacedStill(sorted: seq<Resource>, gs: seq<Group>, r: Resource, hs: seq<Group>, g: nat)
    requires g < |gs| && g < |hs| && gs[g] == hs[g] && First(gs, g) == First(hs, g) && Placed(sorted, gs, g)
    ensures Placed(sorted + [r], hs, g)
  {
    hide First;
    var at, list := First(gs, g), gs[g].list;
    assert (sorted + [r])[at..at + |list|] == sorted[at..at + |list|];
  }

  lemma {:induction false} AppendGrouped(sorted: seq<Resource>, gs: seq<Group>, r: Resource)
    requires Grouped(sorted, gs)
    requires gs == [] || gs[|gs| - 1].typ < r.typ
    ensures Grouped(sorted + [r], gs + [Group(r.typ, [r])])
  {
    hide First, Placed;
    var hs := gs + [Group(r.typ, [r])];
    FirstAppend(gs, Group(r.typ, [r]));
    forall g | 0 <= g < |hs| ensures Placed(sorted + [r], hs, g) {
      if g < |gs| {
        PlacedStill(sorted, gs, r, hs, g);
      } else {
        PlacedNew(sorted, hs, r);
      }
    }
  }

  lemma {:induction false} PlacedNew(sorted: seq<Resource>, hs: seq<Group>, r: Resource)
    requires hs != [] && hs[|hs| - 1] == Group(r.typ, [r]) && First(hs, |hs| - 1) == |sorted|
    ensures Placed(sorted + [r], hs, |hs| - 1)
  {
    hide First;
    assert (sorted + [r])[|sorted|..|sorted| + 1] == [r];
  }

  lemma {:induction false} ExtendGrouped(sorted: seq<Resource>, gs: seq<Group>, r: Resource)
    requires Grouped(sorted, gs) && gs != []
    requires gs[|gs| - 1].typ == r.typ
    ensures Grouped(sorted + [r], gs[..|gs| - 1] + [Group(r.typ, gs[|gs| - 1].list + [r])])
  {
    hide First, Placed;
    var init, last := gs[..|gs| - 1], gs[|gs| - 1];
    var longer := Group(r.typ, last.list + [r]);
    var hs := init + [longer];
    assert gs == init + [last];
    FirstAppend(init, last);
    FirstAppend(init, longer);
    forall g | 0 <= g < |hs| ensures Placed(sorted + [r], hs, g) {
      if g < |init| {
        PlacedStill(sorted, gs, r, hs, g);
      } else {
        PlacedLonger(sorted, gs, r, hs);
      }
    }
  }

  lemma {:induction false} PlacedLonger(sorted: seq<Resource>, gs: seq<Group>, r: Resource, hs: seq<Group>)
    requires gs != [] && |hs| == |gs|
    requires var g := |gs| - 1;
             && Placed(sorted, gs, g) && First(gs, g) == First(hs, g) && |sorted| == First(gs, g) + |gs[g].list|
             && hs[g] == Group(r.typ, gs[g].list + [r]) && gs[g].typ == r.typ
    ensures Placed(sorted + [r], hs, |gs| - 1)
  {
    hide First;
    var at, list := First(gs, |gs| - 1), gs[|gs| - 1].list;
    assert (sorted + [r])[at..at + |list| + 1] == sorted[at..at + |list|] + [r];
  }

  method GroupByType(sorted: seq<Resource>) returns (groups: seq<Group>)
    requires Sorted(KeyLe, sorted)
    ensures Grouped(sorted, groups)
  {
    groups := [];
    for k := 0 to |sorted|
      invariant Grouped(sorted[..k], groups)
      invariant k > 0 ==> groups != [] && groups[|groups| - 1].typ == sorted[k - 1].typ
    {
      var r, n := sorted[k], |groups|;
      assert sorted[..k + 1] == sorted[..k] + [r];
      assert k > 0 ==> KeyLe(sorted[k - 1], r);
      if n > 0 && groups[n - 1].typ == r.typ {
        ExtendGrouped(sorted[..k], groups, r);
        groups := groups[..n - 1] + [Group(r.typ, groups[n - 1].list + [r])];
      } else {
        AppendGrouped(sorted[..k], groups, r);
        groups := groups + [Group(r.typ, [r])];
      }
    }
    assert sorted[..|sorted|] == sorted;
  }

  // ----- where everything goes -----

  // The parts of a section: each head and entry of the root and name directories, and for
  // each resource its language directory, its data entry and its bytes.
  datatype Slot =
    | RootHead
    | RootEntry(g: nat)
    | NameHead(g: nat)
    | NameEntry(g: nat, i: nat)
    | LangDir(j: nat)
    | DataEntry(j: nat)
    | Blob(j: nat)

  ghost function TypeDir(gs: seq<Group>, g: nat): nat
    requires g <= |gs|
  {
    16 + 8 * |gs| + 16 * g + 8 * First(gs, g)
  }

  function LangAt(groups: nat, n: nat, j: nat): nat { 16 + 24 * groups + 8 * n + 24 * j }

  function EntryAt(groups: nat, n: nat, j: nat): nat { 16 + 24 * groups + 32 * n + 16 * j }

  function DataStart(groups: nat, n: nat): nat { 16 + 24 * groups + 48 * n }

  // Where the bytes of resource j start; j == |sorted| gives the size of the section.
  ghost function BlobAt(sorted: seq<Resource>, start: nat, j: nat): nat
    requires j <= |sorted|
  {
    if j == 0 then start else Align(BlobAt(sorted, start, j - 1) + |sorted[j - 1].data|, 8)
  }

  lemma {:induction false} BlobMono(sorted: seq<Resource>, start: nat, a: nat, b: nat)
    requires a <= b <= |sorted|
    ensures start <= BlobAt(sorted, start, a) <= BlobAt(sorted, start, b)
    ensures a < b ==> BlobAt(sorted, start, a) + |sorted[a].data| <= BlobAt(sorted, start, b)
  {
    if a < b {
      BlobMono(sorted, start, a, b - 1);
    } else if a > 0 {
      BlobMono(sorted, start, a - 1, a);
    }
  }

  // The bytes of each resource start at the first multiple of eight after those of the one before.
  lemma BlobAligned(p: Plan, j: nat)
    requires j <= |p.sorted|
    ensures p.Blob(j) % 8 == 0
    ensures j > 0 ==> var end := p.Blob(j - 1) + |p.sorted[j - 1].data|; end <= p.Blob(j) < end + 8
  {
    hide Align, DataStart;
    if j > 0 {
      AlignedByEight(p.Blob(j - 1) + |p.sorted[j - 1].data|);
    } else {
      StartAligned(|p.gs|, |p.sorted|);
    }
  }

  lemma AlignedByEight(n: nat)
    ensures Align(n, 8) % 8 == 0
  {
    hide Align;
    AlignFirst(n, 8, n * 8);
  }

  lemma StartAligned(groups: nat, n: nat)
    ensures DataStart(groups, n) % 8 == 0
  {
  }

  // The count fields of a directory head, and an entry or the two words of a data entry.
  function HeadBytes(count: nat): (b: seq<byte>)
    ensures |b| == 4
  {
    Le16(0) + Le16(Trunc16(count))
  }

  function PairBytes(a: u32, b: u32): (r: seq<byte>)
    ensures |r| == 8
  {
    Le32(a) + Le32(b)
  }

  datatype Plan = Plan(sorted: seq<Resource>, gs: seq<Group>) {
    ghost predicate Valid() { Grouped(sorted, gs) }

    ghost function Blob(j: nat): nat
      requires j <= |sorted|
    {
      BlobAt(sorted, DataStart(|gs|, |sorted|), j)
    }

    ghost function Total(): nat { Blob(|sorted|) }

    ghost predicate Has(o: Slot) {
      match o
      case RootHead => true
      case RootEntry(g) => g < |gs|
      case NameHead(g) => g < |gs|
      case NameEntry(g, i) => g < |gs| && i < |gs[g].list|
      case LangDir(j) => j < |sorted|
      case DataEntry(j) => j < |sorted|
      case Blob(j) => j < |sorted|
    }

    ghost function Start(o: Slot): nat
      requires Has(o)
    {
      match o
      case RootHead => 0
      case RootEntry(g) => 16 + 8 * g
      case NameHead(g) => TypeDir(gs, g)
      case NameEntry(g, i) => TypeDir(gs, g) + 16 + 8 * i
      case LangDir(j) => LangAt(|gs|, |sorted|, j)
      case DataEntry(j) => EntryAt(|gs|, |sorted|, j)
      case Blob(j) => Blob(j)
    }

    ghost function Size(o: Slot): nat
      requires Has(o)
    {
      match o
      case RootHead => 16
      case RootEntry(g) => 8
      case NameHead(g) => 16
      case NameEntry(g, i) => 8
      case LangDir(j) => 24
      case DataEntry(j) => 16
      case Blob(j) => |sorted[j].data|
    }

    // The first twelve bytes of a directory stay zero.
    ghost function Skip(o: Slot): nat {
      if o.RootHead? || o.NameHead? || o.LangDir? then 12 else 0
    }

    // The bytes written, every number truncated as the code truncates it, with the data
    // entries pointing at base plus the offset of the blob.
    ghost function Content(base: nat, o: Slot): seq<byte>
      requires Has(o)
    {
      match o
      case RootHead => HeadBytes(|gs|)
      case RootEntry(g) => PairBytes(gs[g].typ, SetHigh(Trunc32(TypeDir(gs, g))))
      case NameHead(g) => HeadBytes(|gs[g].list|)
      case NameEntry(g, i) =>
        PairBytes(gs[g].list[i].id, SetHigh(Trunc32(LangAt(|gs|, |sorted|, First(gs, g) + i))))
      case LangDir(j) =>
        HeadBytes(1) + PairBytes(LANG_EN_US, Trunc32(EntryAt(|gs|, |sorted|, j)))
      case DataEntry(j) =>
        PairBytes(Trunc32(base + Blob(j)), Trunc32(|sorted[j].data|)) + PairBytes(0, 0)
      case Blob(j) => sorted[j].data
    }

    lemma ContentSize(base: nat, o: Slot)
      requires Has(o)
      ensures Skip(o) + |Content(base, o)| == Size(o)
    {
      match o
      case RootHead =>
      case RootEntry(g) =>
      case NameHead(g) =>
      case NameEntry(g, i) =>
      case LangDir(j) =>
      case DataEntry(j) =>
      case Blob(j) =>
    }

    ghost predicate Holds(s: seq<byte>, base: nat, o: Slot) {
      Has(o) && HoldsBytes(s, Start(o) + Skip(o), Content(base, o))
    }

    ghost predicate Covers(o: Slot, p: int) {
      Has(o) && Start(o) <= p < Start(o) + Size(o)
    }

    // Every part is in s and every byte outside the parts is zero.
    ghost predicate LaidOut(s: seq<byte>, base: nat) {
      && |s| == Total()
      && (forall o :: Has(o) ==> Holds(s, base, o))
      && (forall p :: 0 <= p < |s| && s[p] != 0 ==> exists o :: Covers(o, p))
    }

    // Parts of one rank lie together, between two edges.
    ghost function Rank(o: Slot): nat {
      match o
      case RootHead => 0
      case RootEntry(_) => 1
      case NameHead(_) => 2
      case NameEntry(_, _) => 2
      case LangDir(_) => 3
      case DataEntry(_) => 4
      case Blob(_) => 5
    }

    ghost function Edge(rank: nat): nat {
      if rank == 0 then 0
      else if rank == 1 then 16
      else if rank == 2 then 16 + 8 * |gs|
      else if rank == 3 then LangAt(|gs|, |sorted|, 0)
      else if rank == 4 then EntryAt(|gs|, |sorted|, 0)
      else if rank == 5 then DataStart(|gs|, |sorted|)
      else Total()
    }

    lemma BetweenEdges(o: Slot)
      requires Valid() && Has(o)
      ensures Edge(Rank(o)) <= Start(o) && Start(o) + Size(o) <= Edge(Rank(o) + 1)
    {
      if o.NameHead? || o.NameEntry? {
        FirstMono(gs, o.g, |gs|);
      } else if o.Blob? {
        BlobMono(sorted, DataStart(|gs|, |sorted|), o.j, |sorted|);
      }
    }

    lemma EdgeMono(a: nat, b: nat)
      requires a <= b <= 6
      ensures Edge(a) <= Edge(b)
    {
      BlobMono(sorted, DataStart(|gs|, |sorted|), 0, |sorted|);
    }

    // The parts lie inside the section, and no two of them overlap.
    lemma InBounds(o: Slot)
      requires Valid() && Has(o)
      ensures Start(o) + Size(o) <= Total()
    {
      BetweenEdges(o);
      EdgeMono(Rank(o) + 1, 6);
    }

    lemma Disjoint(a: Slot, b: Slot)
      requires Valid() && Has(a) && Has(b) && a != b
      ensures Start(a) + Size(a) <= Start(b) || Start(b) + Size(b) <= Start(a)
    {
      BetweenEdges(a);
      BetweenEdges(b);
      if Rank(a) < Rank(b) {
        EdgeMono(Rank(a) + 1, Rank(b));
      } else if Rank(b) < Rank(a) {
        EdgeMono(Rank(b) + 1, Rank(a));
      } else if Rank(a) == 5 {
        BlobsDisjoint(a.j, b.j);
      } else if Rank(a) == 2 && a.g != b.g {
        NamesDisjoint(a, b);
      }
    }

    lemma BlobsDisjoint(i: nat, j: nat)
      requires i < |sorted| && j < |sorted| && i != j
      ensures Blob(i) + |sorted[i].data| <= Blob(j) || Blob(j) + |sorted[j].data| <= Blob(i)
    {
      BlobMono(sorted, DataStart(|gs|, |sorted|), if i < j then i else j, if i < j then j else i);
    }

    lemma NamesDisjoint(a: Slot, b: Slot)
      requires Has(a) && Has(b) && Rank(a) == 2 == Rank(b) && a.g != b.g
      ensures Start(a) + Size(a) <= Start(b) || Start(b) + Size(b) <= Start(a)
    {
      if a.g < b.g {
        NamesInOrder(a, b);
      } else {
        NamesInOrder(b, a);
      }
    }

    lemma NamesInOrder(a: Slot, b: Slot)
      requires Has(a) && Has(b) && Rank(a) == 2 == Rank(b) && a.g < b.g
      ensures Start(a) + Size(a) <= Start(b)
    {
      FirstMono(gs, a.g, b.g);
    }

    // ----- filling a section part by part -----

    // The parts in done are in s; everything else in s is still zero.
    ghost predicate Filled(s: seq<byte>, base: nat, done: set<Slot>) {
      && |s| == Total()
      && (forall o :: o in done ==> Holds(s, base, o))
      && (forall p :: 0 <= p < |s| && s[p] != 0 ==> exists o :: o in done && Covers(o, p))
    }

    lemma Fill(s: seq<byte>, base: nat, done: set<Slot>, o: Slot)
      requires Valid() && Has(o) && Filled(s, base, done) && o !in done
      ensures Start(o) + Skip(o) + |Content(base, o)| <= |s|
      ensures Filled(Patch(s, Start(o) + Skip(o), Content(base, o)), base, done + {o})
    {
      hide Content, Size, Start, Skip, Patch, Grouped, HoldsBytes;
      ContentSize(base, o);
      InBounds(o);
      var at, b := Start(o) + Skip(o), Content(base, o);
      var t := Patch(s, at, b);
      PatchHolds(s, at, b);
      forall q | q in done ensures Holds(t, base, q) {
        Disjoint(o, q);
        ContentSize(base, q);
        PatchKeeps(s, at, b, Start(q) + Skip(q), Content(base, q));
      }
      forall p | 0 <= p < |t| && t[p] != 0 ensures exists q :: q in done + {o} && Covers(q, p) {
        if at <= p < at + |b| {
          assert Covers(o, p);
        } else {
          var q :| q in done && Covers(q, p);
          assert q in done + {o};
        }
      }
    }

    lemma Complete(s: seq<byte>, base: nat, done: set<Slot>)
      requires Filled(s, base, done)
      requires forall o :: Has(o) ==> o in done
      ensures LaidOut(s, base)
    {
      forall p | 0 <= p < |s| && s[p] != 0 ensures exists o :: Covers(o, p) {
        var o :| o in done && Covers(o, p);
      }
    }
  }

  // The two counts of a directory head.
  method PutHead(out: array<byte>, dir: nat, count: nat)
    requires dir + 16 <= out.Length
    modifies out
    ensures out[..] == Patch(old(out[..]), dir + 12, HeadBytes(count))
  {
    Put16(out, dir + 12, 0);
    Put16(out, dir + 14, Trunc16(count));
    PatchJoin(old(out[..]), dir + 12, Le16(0), Le16(Trunc16(count)));
  }

  method PutPair(out: array<byte>, at: nat, a: u32, b: u32)
    requires at + 8 <= out.Length
    modifies out
    ensures out[..] == Patch(old(out[..]), at, PairBytes(a, b))
  {
    Put32(out, at, a);
    Put32(out, at + 4, b);
    PatchJoin(old(out[..]), at, Le32(a), Le32(b));
  }

  // The type entries, and the heads of the name directories.
  method WriteTypes(out: array<byte>, gs: seq<Group>, ghost p: Plan) returns (cursor: nat, ghost done: set<Slot>)
    requires p.Valid() && p.gs == gs && p.Filled(out[..], 0, {})
    modifies out
    ensures cursor == LangAt(|gs|, |p.sorted|, 0)
    ensures p.Filled(out[..], 0, done)
    ensures forall o :: o in done <==> p.Has(o) && (o.RootHead? || o.RootEntry? || o.NameHead?)
  {
    hide Plan.Filled, Patch, HeadBytes, PairBytes, Trunc32, SetHigh, Trunc16;
    done := {};
    p.InBounds(RootHead);
    p.Fill(out[..], 0, done, RootHead);
    assert p.Content(0, RootHead) == HeadBytes(|gs|);
    PutHead(out, 0, |gs|);
    done := done + {RootHead};
    cursor := 16 + 8 * |gs|;
    for i := 0 to |gs|
      invariant cursor == TypeDir(gs, i)
      invariant p.Filled(out[..], 0, done)
      invariant forall o :: o in done <==> o.RootHead? || (o.RootEntry? && o.g < i) || (o.NameHead? && o.g < i)
    {
      p.InBounds(RootEntry(i));
      p.Fill(out[..], 0, done, RootEntry(i));
      PutPair(out, 16 + 8 * i, gs[i].typ, SetHigh(Trunc32(cursor)));
      done := done + {RootEntry(i)};
      p.InBounds(NameHead(i));
      p.Fill(out[..], 0, done, NameHead(i));
      PutHead(out, cursor, |gs[i].list|);
      done := done + {NameHead(i)};
      cursor := cursor + 16 + 8 * |gs[i].list|;
    }
  }

  // The entries of the name directories; the language directories follow one another.
  method WriteNames(out: array<byte>, gs: seq<Group>, langStart: nat, ghost p: Plan, ghost filled: set<Slot>)
    returns (nameDirs: seq<nat>, ghost done: set<Slot>)
    requires p.Valid() && p.gs == gs && p.Filled(out[..], 0, filled)
    requires langStart == LangAt(|gs|, |p.sorted|, 0)
    requires forall o :: o in filled <==> p.Has(o) && (o.RootHead? || o.RootEntry? || o.NameHead?)
    modifies out
    ensures |nameDirs| == |p.sorted|
    ensures forall j :: 0 <= j < |nameDirs| ==> nameDirs[j] == LangAt(|gs|, |p.sorted|, j)
    ensures p.Filled(out[..], 0, done)
    ensures forall o :: o in done <==> p.Has(o) && p.Rank(o) <= 2
  {
    hide Plan.Filled, Patch, HeadBytes, PairBytes, Trunc32, SetHigh, Trunc16;
    nameDirs, done := [], filled;
    var cursor, langAt := 16 + 8 * |gs|, langStart;
    for g := 0 to |gs|
      invariant cursor == TypeDir(gs, g) && |nameDirs| == First(gs, g) && langAt == LangAt(|gs|, |p.sorted|, |nameDirs|)
      invariant forall j :: 0 <= j < |nameDirs| ==> nameDirs[j] == LangAt(|gs|, |p.sorted|, j)
      invariant p.Filled(out[..], 0, done)
      invariant forall o :: o in done <==> o in filled || (o.NameEntry? && p.Has(o) && o.g < g)
    {
      for i := 0 to |gs[g].list|
        invariant |nameDirs| == First(gs, g) + i && langAt == LangAt(|gs|, |p.sorted|, |nameDirs|)
        invariant forall j :: 0 <= j < |nameDirs| ==> nameDirs[j] == LangAt(|gs|, |p.sorted|, j)
        invariant p.Filled(out[..], 0, done)
        invariant forall o ::
            o in done <==> o in filled || (o.NameEntry? && p.Has(o) && (o.g < g || (o.g == g && o.i < i)))
      {
        p.InBounds(NameEntry(g, i));
        p.Fill(out[..], 0, done, NameEntry(g, i));
        PutPair(out, cursor + 16 + 8 * i, gs[g].list[i].id, SetHigh(Trunc32(langAt)));
        done := done + {NameEntry(g, i)};
        nameDirs := nameDirs + [langAt];
        langAt := langAt + 16 + 8;
      }
      cursor := cursor + 16 + 8 * |gs[g].list|;
    }
  }

  // The language directory, the data entry and the bytes of one resource.
  method WriteLeaf(out: array<byte>, r: Resource, lang: nat, entry: nat, dataOff: nat, ghost p: Plan, ghost j: nat,
                   ghost filled: set<Slot>)
    returns (ghost done: set<Slot>)
    requires p.Valid() && p.Filled(out[..], 0, filled) && j < |p.sorted| && r == p.sorted[j]
    requires lang == LangAt(|p.gs|, |p.sorted|, j) && entry == EntryAt(|p.gs|, |p.sorted|, j) && dataOff == p.Blob(j)
    requires LangDir(j) !in filled && DataEntry(j) !in filled && Slot.Blob(j) !in filled
    modifies out
    ensures done == filled + {LangDir(j), DataEntry(j), Slot.Blob(j)}
    ensures p.Filled(out[..], 0, done)
  {
    hide Plan.Filled, Patch, HeadBytes, PairBytes, Trunc32, SetHigh, Trunc16;
    p.InBounds(LangDir(j));
    p.Fill(out[..], 0, filled, LangDir(j));
    ghost var s0 := out[..];
    PutHead(out, lang, 1);
    PutPair(out, lang + 16, LANG_EN_US, Trunc32(entry));
    PatchJoin(s0, lang + 12, HeadBytes(1), PairBytes(LANG_EN_US, Trunc32(entry)));
    done := filled + {LangDir(j)};

    p.InBounds(DataEntry(j));
    p.Fill(out[..], 0, done, DataEntry(j));
    ghost var s1 := out[..];
    PutPair(out, entry, Trunc32(dataOff), Trunc32(|r.data|));
    PutPair(out, entry + 8, 0, 0);
    PatchJoin(s1, entry, PairBytes(Trunc32(dataOff), Trunc32(|r.data|)), PairBytes(0, 0));
    done := done + {DataEntry(j)};

    p.InBounds(Slot.Blob(j));
    p.Fill(out[..], 0, done, Slot.Blob(j));
    CopyInto(out, dataOff, r.data);
    done := done + {Slot.Blob(j)};
  }

  // The offsets of the first k data entries, which the linker relocates.
  function Relocs(groups: nat, n: nat, k: nat): (r: seq<u32>)
    ensures |r| == k
  {
    seq(k, (j: nat) => Trunc32(EntryAt(groups, n, j)))
  }

  // The leaves of the tree, one after another.
  method WriteLeaves(out: array<byte>, sorted: seq<Resource>, nameDirs: seq<nat>, entriesAt: nat, dataAt: nat,
                     ghost p: Plan, ghost filled: set<Slot>)
    returns (relocs: seq<u32>)
    requires p.Valid() && p.sorted == sorted && p.Filled(out[..], 0, filled)
    requires entriesAt == EntryAt(|p.gs|, |sorted|, 0) && dataAt == DataStart(|p.gs|, |sorted|)
    requires |nameDirs| == |sorted| && forall j :: 0 <= j < |sorted| ==> nameDirs[j] == LangAt(|p.gs|, |sorted|, j)
    requires forall o :: o in filled <==> p.Has(o) && p.Rank(o) <= 2
    modifies out
    ensures p.LaidOut(out[..], 0)
    ensures relocs == Relocs(|p.gs|, |sorted|, |sorted|)
  {
    hide Plan.Filled, Plan.LaidOut, Trunc32;
    var dataOff := dataAt;
    ghost var done := filled;
    relocs := [];
    for j := 0 to |sorted|
      invariant dataOff == p.Blob(j)
      invariant p.Filled(out[..], 0, done)
      invariant forall o :: o in done <==> p.Has(o) && (p.Rank(o) <= 2 || o.j < j)
      invariant relocs == Relocs(|p.gs|, |sorted|, j)
    {
      var entry := entriesAt + 16 * j;
      done := WriteLeaf(out, sorted[j], nameDirs[j], entry, dataOff, p, j, done);
      relocs := relocs + [Trunc32(entry)];
      dataOff := Align(dataOff + |sorted[j].data|, 8);
    }
    p.Complete(out[..], 0, done);
  }

  // What the directories of all levels take up.
  method MeasureDirs(groups: seq<Group>) returns (dirs: nat)
    ensures dirs == 16 + 24 * |groups| + 32 * First(groups, |groups|)
  {
    dirs := 16 + 8 * |groups|;
    for g := 0 to |groups|
      invariant dirs == 16 + 8 * |groups| + 16 * g + 32 * First(groups, g)
    {
      dirs := dirs + 16 + 8 * |groups[g].list|;
      dirs := dirs + |groups[g].list| * (16 + 8);
    }
  }

  lemma DataAligned(groups: nat, n: nat)
    ensures Align(16 + 24 * groups + 32 * n + 16 * n, 8) == DataStart(groups, n)
  {
    assert 16 + 24 * groups + 48 * n == 8 * (2 + 3 * groups + 6 * n);
  }

  // The sizes: where data entries and data start, and how long the section is.
  method Measure(sorted: seq<Resource>, groups: seq<Group>) returns (entriesAt: nat, dataAt: nat, total: nat)
    requires Grouped(sorted, groups)
    ensures entriesAt == EntryAt(|groups|, |sorted|, 0)
    ensures dataAt == DataStart(|groups|, |sorted|)
    ensures total == Plan(sorted, groups).Total()
  {
    hide Align, Placed;
    entriesAt := MeasureDirs(groups);
    dataAt := Align(entriesAt + 16 * |sorted|, 8);
    DataAligned(|groups|, |sorted|);
    total := dataAt;
    for j := 0 to |sorted|
      invariant total == BlobAt(sorted, dataAt, j)
    {
      total := Align(total + |sorted[j].data|, 8);
    }
  }

  // buildRsrc: the section and the offsets to relocate. The plan p tells what was laid out.
  method BuildRsrc(res: seq<Resource>) returns (r: Result<Section>, ghost p: Plan)
    ensures r.Err? <==> res == []
    ensures r.Ok? ==> SortOf(p.sorted, res) && p.Valid() && p.LaidOut(r.value.bytes, 0)
    ensures r.Ok? ==> r.value.relocs == Relocs(|p.gs|, |p.sorted|, |p.sorted|)
  {
    if res == [] {
      return Err("no resources to write"), Plan([], []);
    }
    var sorted := Sort(KeyLe, res);
    var groups := GroupByType(sorted);
    p := Plan(sorted, groups);
    var entriesAt, dataAt, total := Measure(sorted, groups);
    var out := new byte[total](_ => 0);
    assert p.Filled(out[..], 0, {});
    var langStart, done0 := WriteTypes(out, groups, p);
    var nameDirs, done := WriteNames(out, groups, langStart, p, done0);
    var relocs := WriteLeaves(out, sorted, nameDirs, entriesAt, dataAt, p, done);
    r := Ok(Section(out[..], relocs));
  }
}
