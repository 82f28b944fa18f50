/**
 A reader of resource sections, written from the format alone (Microsoft PE Format
 specification, "The .rsrc Section"): it walks type, id, language and data entry, and it looks a
 resource up by binary search in each directory. The writer and the reader are inverse.
 */
module RsrcReader {
  import opened Bytes
  import opened Sorting
  import opened Rsrc

  datatype Entry = Entry(id: u32, off: u32)
  datatype Found = Found(typ: u32, id: u32, lang: u32, data: seq<byte>)

  // ----- reading -----

  function EntryOf(s: seq<byte>, dir: nat, i: nat): Entry
    requires dir + 24 + 8 * i <= |s|
  {
    Entry(U32(s, dir + 16 + 8 * i), U32(s, dir + 20 + 8 * i))
  }

  // The entries of the directory at dir.
  function Entries(s: seq<byte>, dir: nat): Option<seq<Entry>> {
    if dir + 16 > |s| then None
    else
      var n := U16(s, dir + 12) + U16(s, dir + 14);
      if dir + 16 + 8 * n > |s| then None
      else Some(seq(n, i requires 0 <= i < n => EntryOf(s, dir, i)))
  }

  // The data a data entry describes, addresses being offsets from the virtual address base.
  function ReadData(s: seq<byte>, base: nat, entry: nat): Option<seq<byte>> {
    if entry + 16 > |s| then None
    else
      var off, size := U32(s, entry) - base, U32(s, entry + 4);
      if off < 0 || off + size > |s| then None else Some(s[off..off + size])
  }

  function WalkLangs(s: seq<byte>, base: nat, typ: u32, id: u32, es: seq<Entry>): Option<seq<Found>> {
    if es == [] then Some([])
    else if es[0].off >= HIGH_BIT then None
    else
      var data, rest := ReadData(s, base, es[0].off), WalkLangs(s, base, typ, id, es[1..]);
      if data.None? || rest.None? then None
      else Some([Found(typ, id, es[0].id, data.value)] + rest.value)
  }

  function WalkNames(s: seq<byte>, base: nat, typ: u32, es: seq<Entry>): Option<seq<Found>> {
    if es == [] then Some([])
    else if es[0].off < HIGH_BIT then None
    else
      var langs := Entries(s, ClearHigh(es[0].off));
      if langs.None? then None
      else
        var here, rest := WalkLangs(s, base, typ, es[0].id, langs.value), WalkNames(s, base, typ, es[1..]);
        if here.None? || rest.None? then None else Some(here.value + rest.value)
  }

  function WalkTypes(s: seq<byte>, base: nat, es: seq<Entry>): Option<seq<Found>> {
    if es == [] then Some([])
    else if es[0].off < HIGH_BIT then None
    else
      var names := Entries(s, ClearHigh(es[0].off));
      if names.None? then None
      else
        var here, rest := WalkNames(s, base, es[0].id, names.value), WalkTypes(s, base, es[1..]);
        if here.None? || rest.None? then None else Some(here.value + rest.value)
  }

  // Every resource of the section, in the order of the tree; None if the tree is broken.
  function Walk(s: seq<byte>, base: nat): Option<seq<Found>> {
    var types := Entries(s, 0);
    if types.None? then None else WalkTypes(s, base, types.value)
  }

  // Binary search for id among entries lo..hi of a directory.
  function Search(es: seq<Entry>, id: u32, lo: nat, hi: nat): Option<u32>
    requires lo <= hi <= |es|
    decreases hi - lo
  {
    if lo == hi then None
    else
      var mid := (lo + hi) / 2;
      if es[mid].id == id then Some(es[mid].off)
      else if es[mid].id < id then Search(es, id, mid + 1, hi)
      else Search(es, id, lo, mid)
  }

  // The subdirectory that id has in the directory at dir.
  function Child(s: seq<byte>, dir: nat, id: u32): Option<seq<Entry>> {
    var es := Entries(s, dir);
    if es.None? then None
    else
      var off := Search(es.value, id, 0, |es.value|);
      if off.None? || off.value < HIGH_BIT then None else Entries(s, ClearHigh(off.value))
  }

  // The data of resource (typ, id), in whichever language comes first.
  function Lookup(s: seq<byte>, base: nat, typ: u32, id: u32): Option<seq<byte>> {
    var types := Entries(s, 0);
    if types.None? then None
    else
      var t := Search(types.value, typ, 0, |types.value|);
      if t.None? || t.value < HIGH_BIT then None
      else
        var langs := Child(s, ClearHigh(t.value), id);
        if langs.None? || langs.value == [] || langs.value[0].off >= HIGH_BIT then None
        else ReadData(s, base, langs.value[0].off)
  }

  // ----- what the writer leaves for the reader -----

  // The numbers of the plan fit their fields.
  ghost predicate Fits(p: Plan, base: nat) {
    && |p.gs| < 0x1_0000
    && (forall g :: 0 <= g < |p.gs| ==> |p.gs[g].list| < 0x1_0000)
    && DataStart(|p.gs|, |p.sorted|) <= HIGH_BIT
    && base + p.Total() < 0x1_0000_0000
  }

  ghost function RootEntries(p: Plan): (es: seq<Entry>)
    requires p.Valid() && Fits(p, 0)
    ensures |es| == |p.gs|
  {
    seq(|p.gs|, g requires 0 <= g < |p.gs| =>
      assert TypeDir(p.gs, g) < HIGH_BIT by { p.BetweenEdges(NameHead(g)); }
      Entry(p.gs[g].typ, HIGH_BIT + TypeDir(p.gs, g)))
  }

  ghost function NameEntries(p: Plan, g: nat): (es: seq<Entry>)
    requires p.Valid() && Fits(p, 0) && g < |p.gs|
    ensures |es| == |p.gs[g].list|
  {
    seq(|p.gs[g].list|, i requires 0 <= i < |p.gs[g].list| =>
      assert LangAt(|p.gs|, |p.sorted|, First(p.gs, g) + i) < HIGH_BIT by { PlacedAt(p.sorted, p.gs, g, i); }
      Entry(p.gs[g].list[i].id, HIGH_BIT + LangAt(|p.gs|, |p.sorted|, First(p.gs, g) + i)))
  }

  ghost function LangEntries(p: Plan, j: nat): (es: seq<Entry>)
    requires Fits(p, 0) && j < |p.sorted|
    ensures |es| == 1
  {
    [Entry(LANG_EN_US, EntryAt(|p.gs|, |p.sorted|, j))]
  }

  // A reader of data finds the directory with entries es at dir.
  ghost predicate DirAt(data: seq<byte>, dir: int, es: seq<Entry>) {
    && Holds16(data, dir + 12, 0)
    && Holds16(data, dir + 14, |es|)
    && forall i :: 0 <= i < |es| ==>
         Holds32(data, dir + 16 + 8 * i, es[i].id) && Holds32(data, dir + 20 + 8 * i, es[i].off)
  }

  ghost predicate LeafAt(data: seq<byte>, pre: nat, p: Plan, base: nat, j: nat)
    requires Fits(p, 0) && j < |p.sorted|
  {
    var entry := pre + EntryAt(|p.gs|, |p.sorted|, j);
    && DirAt(data, pre + LangAt(|p.gs|, |p.sorted|, j), LangEntries(p, j))
    && entry + 16 <= |data|
    && Holds32(data, entry, base + p.Blob(j))
    && Holds32(data, entry + 4, |p.sorted[j].data|)
    && HoldsBytes(data, pre + p.Blob(j), p.sorted[j].data)
  }

  // The tree of p sits in data from position pre on.
  ghost predicate Tree(data: seq<byte>, pre: nat, p: Plan, base: nat) {
    && p.Valid() && Fits(p, 0)
    && DirAt(data, pre, RootEntries(p))
    && (forall g :: 0 <= g < |p.gs| ==> DirAt(data, pre + TypeDir(p.gs, g), NameEntries(p, g)))
    && (forall j :: 0 <= j < |p.sorted| ==> LeafAt(data, pre, p, base, j))
  }

  lemma Embedded(data: seq<byte>, pre: int, s: seq<byte>, at: int, b: seq<byte>)
    requires HoldsBytes(data, pre, s) && HoldsBytes(s, at, b)
    ensures HoldsBytes(data, pre + at, b)
  {
    forall k | 0 <= k < |b| ensures data[pre + at + k] == b[k] {
      assert data[pre..pre + |s|][at + k] == s[at + k];
      assert s[at..at + |b|][k] == b[k];
    }
  }

  lemma HeadBytesAre(count: nat)
    requires count < 0x1_0000
    ensures HeadBytes(count) == Le16(0) + Le16(count)
  {
    hide Le16;
    assert Trunc16(count) == count;
  }

  lemma PairBytesAre(a: u32, b: u32)
    ensures PairBytes(a, b) == Le32(a) + Le32(b)
  {
    hide Le32;
  }

  lemma HeadHeld(data: seq<byte>, dir: int, count: nat)
    requires HoldsBytes(data, dir + 12, HeadBytes(count)) && count < 0x1_0000
    ensures Holds16(data, dir + 12, 0) && Holds16(data, dir + 14, count)
  {
    hide *;
    HeadBytesAre(count);
    HoldsSplit(data, dir + 12, Le16(0), Le16(count));
    HeldFields(data, dir + 12, 0);
    HeldFields(data, dir + 14, count);
  }

  lemma PairHeld(data: seq<byte>, at: int, a: u32, b: u32)
    requires HoldsBytes(data, at, PairBytes(a, b))
    ensures Holds32(data, at, a) && Holds32(data, at + 4, b)
  {
    hide *;
    PairBytesAre(a, b);
    HoldsSplit(data, at, Le32(a), Le32(b));
    HeldFields(data, at, a);
    HeldFields(data, at + 4, b);
  }

  // The bytes of each part, at its place in data.
  lemma PartHeld(data: seq<byte>, pre: nat, s: seq<byte>, p: Plan, base: nat, o: Slot)
    requires p.LaidOut(s, base) && HoldsBytes(data, pre, s) && p.Has(o)
    ensures HoldsBytes(data, pre + p.Start(o) + p.Skip(o), p.Content(base, o))
  {
    hide Plan.Start, Plan.Skip, Plan.Content, HoldsBytes;
    assert p.Holds(s, base, o);
    Embedded(data, pre, s, p.Start(o) + p.Skip(o), p.Content(base, o));
  }

  lemma DirIntro(data: seq<byte>, dir: int, es: seq<Entry>)
    requires Holds16(data, dir + 12, 0) && Holds16(data, dir + 14, |es|)
    requires forall i :: 0 <= i < |es| ==>
               Holds32(data, dir + 16 + 8 * i, es[i].id) && Holds32(data, dir + 20 + 8 * i, es[i].off)
    ensures DirAt(data, dir, es)
  {
    hide Holds16, Holds32;
  }

  // Where each part starts and what it holds, once the numbers fit their fields.
  lemma RootHeadSlot(p: Plan, base: nat)
    ensures p.Has(RootHead) && p.Start(RootHead) + p.Skip(RootHead) == 12
    ensures p.Content(base, RootHead) == HeadBytes(|p.gs|)
  {
    hide HeadBytes;
  }

  lemma FitsZero(p: Plan, base: nat)
    requires Fits(p, base)
    ensures Fits(p, 0)
  {
  }

  lemma GroupsFit(p: Plan)
    requires Fits(p, 0)
    ensures |p.gs| < 0x1_0000
  {
  }

  lemma CountsFit(p: Plan, g: nat)
    requires Fits(p, 0) && g < |p.gs|
    ensures |p.gs[g].list| < 0x1_0000
  {
  }

  lemma RootEntrySlot(p: Plan, base: nat, g: nat)
    requires p.Valid() && Fits(p, 0) && g < |p.gs|
    ensures p.Has(RootEntry(g)) && p.Start(RootEntry(g)) + p.Skip(RootEntry(g)) == 16 + 8 * g
    ensures p.Content(base, RootEntry(g)) == PairBytes(RootEntries(p)[g].id, RootEntries(p)[g].off)
  {
    hide PairBytes;
    p.BetweenEdges(NameHead(g));
  }

  lemma NameHeadSlot(p: Plan, base: nat, g: nat)
    requires g < |p.gs|
    ensures p.Has(NameHead(g)) && p.Start(NameHead(g)) + p.Skip(NameHead(g)) == TypeDir(p.gs, g) + 12
    ensures p.Content(base, NameHead(g)) == HeadBytes(|p.gs[g].list|)
  {
    hide HeadBytes;
  }

  lemma NameEntrySlot(p: Plan, base: nat, g: nat, i: nat)
    requires p.Valid() && Fits(p, 0) && g < |p.gs| && i < |p.gs[g].list|
    ensures p.Has(NameEntry(g, i))
    ensures p.Start(NameEntry(g, i)) + p.Skip(NameEntry(g, i)) == TypeDir(p.gs, g) + 16 + 8 * i
    ensures p.Content(base, NameEntry(g, i)) == PairBytes(NameEntries(p, g)[i].id, NameEntries(p, g)[i].off)
  {
    hide PairBytes;
    PlacedAt(p.sorted, p.gs, g, i);
  }

  lemma LangSlot(p: Plan, base: nat, j: nat)
    requires Fits(p, 0) && j < |p.sorted|
    ensures p.Has(LangDir(j)) && p.Start(LangDir(j)) + p.Skip(LangDir(j)) == LangAt(|p.gs|, |p.sorted|, j) + 12
    ensures EntryAt(|p.gs|, |p.sorted|, j) < 0x8000_0000
    ensures p.Content(base, LangDir(j)) == HeadBytes(1) + PairBytes(LANG_EN_US, EntryAt(|p.gs|, |p.sorted|, j))
    ensures LangEntries(p, j) == [Entry(LANG_EN_US, EntryAt(|p.gs|, |p.sorted|, j))]
  {
    hide HeadBytes, PairBytes;
  }

  lemma DataEntrySlot(p: Plan, base: nat, j: nat)
    requires p.Valid() && Fits(p, base) && j < |p.sorted|
    ensures p.Has(DataEntry(j)) && p.Start(DataEntry(j)) + p.Skip(DataEntry(j)) == EntryAt(|p.gs|, |p.sorted|, j)
    ensures base + p.Blob(j) + |p.sorted[j].data| < 0x1_0000_0000
    ensures p.Content(base, DataEntry(j)) == PairBytes(base + p.Blob(j), |p.sorted[j].data|) + PairBytes(0, 0)
  {
    hide PairBytes;
    p.InBounds(Blob(j));
  }

  lemma RootHeadHeld(data: seq<byte>, pre: nat, s: seq<byte>, p: Plan, base: nat)
    requires Fits(p, 0) && p.LaidOut(s, base) && HoldsBytes(data, pre, s)
    ensures Holds16(data, pre + 12, 0) && Holds16(data, pre + 14, |p.gs|)
  {
    hide *;
    RootHeadSlot(p, base);
    GroupsFit(p);
    PartHeld(data, pre, s, p, base, RootHead);
    HeadHeld(data, pre, |p.gs|);
  }

  lemma RootEntryHeld(data: seq<byte>, pre: nat, s: seq<byte>, p: Plan, base: nat, g: nat)
    requires p.Valid() && Fits(p, 0) && p.LaidOut(s, base) && HoldsBytes(data, pre, s) && g < |p.gs|
    ensures Holds32(data, pre + 16 + 8 * g, RootEntries(p)[g].id)
    ensures Holds32(data, pre + 20 + 8 * g, RootEntries(p)[g].off)
  {
    hide *;
    var o, e := RootEntry(g), RootEntries(p)[g];
    RootEntrySlot(p, base, g);
    PartHeld(data, pre, s, p, base, o);
    PairHeld(data, pre + 16 + 8 * g, e.id, e.off);
  }

  lemma RootHeld(data: seq<byte>, pre: nat, s: seq<byte>, p: Plan, base: nat)
    requires p.Valid() && Fits(p, 0) && p.LaidOut(s, base) && HoldsBytes(data, pre, s)
    ensures DirAt(data, pre, RootEntries(p))
  {
    hide *;
    RootHeadHeld(data, pre, s, p, base);
    var es := RootEntries(p);
    forall i | 0 <= i < |es|
      ensures Holds32(data, pre + 16 + 8 * i, es[i].id) && Holds32(data, pre + 20 + 8 * i, es[i].off)
    {
      RootEntryHeld(data, pre, s, p, base, i);
    }
    DirIntro(data, pre, es);
  }

  lemma NameHeadHeld(data: seq<byte>, pre: nat, s: seq<byte>, p: Plan, base: nat, g: nat)
    requires Fits(p, 0) && g < |p.gs| && p.LaidOut(s, base) && HoldsBytes(data, pre, s)
    ensures Holds16(data, pre + TypeDir(p.gs, g) + 12, 0)
    ensures Holds16(data, pre + TypeDir(p.gs, g) + 14, |p.gs[g].list|)
  {
    hide *;
    var o := NameHead(g);
    NameHeadSlot(p, base, g);
    CountsFit(p, g);
    PartHeld(data, pre, s, p, base, o);
    HeadHeld(data, pre + TypeDir(p.gs, g), |p.gs[g].list|);
  }

  lemma NameEntryHeld(data: seq<byte>, pre: nat, s: seq<byte>, p: Plan, base: nat, g: nat, i: nat)
    requires p.Valid() && Fits(p, 0) && p.LaidOut(s, base) && HoldsBytes(data, pre, s)
    requires g < |p.gs| && i < |p.gs[g].list|
    ensures Holds32(data, pre + TypeDir(p.gs, g) + 16 + 8 * i, NameEntries(p, g)[i].id)
    ensures Holds32(data, pre + TypeDir(p.gs, g) + 20 + 8 * i, NameEntries(p, g)[i].off)
  {
    hide *;
    var o, e, at := NameEntry(g, i), NameEntries(p, g)[i], TypeDir(p.gs, g) + 16 + 8 * i;
    NameEntrySlot(p, base, g, i);
    PartHeld(data, pre, s, p, base, o);
    PairHeld(data, pre + at, e.id, e.off);
  }

  lemma NamesHeld(data: seq<byte>, pre: nat, s: seq<byte>, p: Plan, base: nat, g: nat)
    requires p.Valid() && Fits(p, 0) && p.LaidOut(s, base) && HoldsBytes(data, pre, s) && g < |p.gs|
    ensures DirAt(data, pre + TypeDir(p.gs, g), NameEntries(p, g))
  {
    hide *;
    NameHeadHeld(data, pre, s, p, base, g);
    var es, dir := NameEntries(p, g), pre + TypeDir(p.gs, g);
    forall i | 0 <= i < |es|
      ensures Holds32(data, dir + 16 + 8 * i, es[i].id) && Holds32(data, dir + 20 + 8 * i, es[i].off)
    {
      NameEntryHeld(data, pre, s, p, base, g, i);
    }
    DirIntro(data, dir, es);
  }

  lemma LangHeld(data: seq<byte>, pre: nat, s: seq<byte>, p: Plan, base: nat, j: nat)
    requires Fits(p, 0) && p.LaidOut(s, base) && HoldsBytes(data, pre, s) && j < |p.sorted|
    ensures DirAt(data, pre + LangAt(|p.gs|, |p.sorted|, j), LangEntries(p, j))
  {
    hide *;
    var o, at, entry := LangDir(j), LangAt(|p.gs|, |p.sorted|, j), EntryAt(|p.gs|, |p.sorted|, j);
    LangSlot(p, base, j);
    PartHeld(data, pre, s, p, base, o);
    HoldsSplit(data, pre + at + 12, HeadBytes(1), PairBytes(LANG_EN_US, entry));
    HeadHeld(data, pre + at, 1);
    PairHeld(data, pre + at + 16, LANG_EN_US, entry);
    DirIntro(data, pre + at, [Entry(LANG_EN_US, entry)]);
  }

  lemma DataEntryHeld(data: seq<byte>, pre: nat, s: seq<byte>, p: Plan, base: nat, j: nat)
    requires p.Valid() && Fits(p, base) && p.LaidOut(s, base) && HoldsBytes(data, pre, s) && j < |p.sorted|
    ensures var entry := pre + EntryAt(|p.gs|, |p.sorted|, j);
            && entry + 16 <= |data|
            && Holds32(data, entry, base + p.Blob(j))
            && Holds32(data, entry + 4, |p.sorted[j].data|)
  {
    hide *;
    var o, at, a, b := DataEntry(j), EntryAt(|p.gs|, |p.sorted|, j), base + p.Blob(j), |p.sorted[j].data|;
    DataEntrySlot(p, base, j);
    PartHeld(data, pre, s, p, base, o);
    HoldsSplit(data, pre + at, PairBytes(a, b), PairBytes(0, 0));
    HoldsLength(data, pre + at, PairBytes(a, b) + PairBytes(0, 0));
    PairHeld(data, pre + at, a, b);
  }

  lemma LeafHeld(data: seq<byte>, pre: nat, s: seq<byte>, p: Plan, base: nat, j: nat)
    requires p.Valid() && Fits(p, base) && p.LaidOut(s, base) && HoldsBytes(data, pre, s) && j < |p.sorted|
    ensures LeafAt(data, pre, p, base, j)
  {
    hide DirAt, LangEntries, HoldsBytes, Holds32, Plan.LaidOut, Grouped;
    LangHeld(data, pre, s, p, base, j);
    DataEntryHeld(data, pre, s, p, base, j);
    PartHeld(data, pre, s, p, base, Blob(j));
  }

  lemma TreeHeld(data: seq<byte>, pre: nat, s: seq<byte>, p: Plan, base: nat)
    requires p.Valid() && Fits(p, base) && p.LaidOut(s, base) && HoldsBytes(data, pre, s)
    ensures Tree(data, pre, p, base)
  {
    hide DirAt, LeafAt, RootEntries, NameEntries, HoldsBytes, Plan.LaidOut, Grouped;
    RootHeld(data, pre, s, p, base);
    forall g | 0 <= g < |p.gs| ensures DirAt(data, pre + TypeDir(p.gs, g), NameEntries(p, g)) {
      NamesHeld(data, pre, s, p, base, g);
    }
    forall j | 0 <= j < |p.sorted| ensures LeafAt(data, pre, p, base, j) {
      LeafHeld(data, pre, s, p, base, j);
    }
  }

  // ----- the walk -----

  function FoundAs(r: Resource): Found {
    Found(r.typ, r.id, 0x0409, r.data)
  }

  function AllFound(rs: seq<Resource>): seq<Found> {
    if rs == [] then [] else [FoundAs(rs[0])] + AllFound(rs[1..])
  }

  lemma AllFoundAppend(a: seq<Resource>, b: seq<Resource>)
    ensures AllFound(a + b) == AllFound(a) + AllFound(b)
  {
    if a == [] {
      assert a + b == b;
    } else {
      assert (a + b)[1..] == a[1..] + b;
      AllFoundAppend(a[1..], b);
    }
  }

  lemma EntriesRead(s: seq<byte>, dir: nat, es: seq<Entry>)
    requires DirAt(s, dir, es)
    ensures Entries(s, dir) == Some(es)
  {
    if es != [] {
      assert Holds32(s, dir + 16 + 8 * (|es| - 1), es[|es| - 1].id);
      assert Holds32(s, dir + 20 + 8 * (|es| - 1), es[|es| - 1].off);
    }
    var n := |es|;
    forall i | 0 <= i < n ensures dir + 24 + 8 * i <= |s| && EntryOf(s, dir, i) == es[i] {
      assert Holds32(s, dir + 16 + 8 * i, es[i].id);
    }
    assert seq(n, i requires 0 <= i < n => EntryOf(s, dir, i)) == es;
  }

  lemma LeafWalk(s: seq<byte>, p: Plan, base: nat, j: nat, typ: u32, id: u32)
    requires Fits(p, 0) && j < |p.sorted| && LeafAt(s, 0, p, base, j)
    ensures Entries(s, LangAt(|p.gs|, |p.sorted|, j)) == Some(LangEntries(p, j))
    ensures ReadData(s, base, LangEntries(p, j)[0].off) == Some(p.sorted[j].data)
    ensures WalkLangs(s, base, typ, id, LangEntries(p, j)) == Some([Found(typ, id, LANG_EN_US, p.sorted[j].data)])
  {
    hide DirAt, Entries, WalkLangs, Fits, ReadData;
    EntriesRead(s, LangAt(|p.gs|, |p.sorted|, j), LangEntries(p, j));
    LeafData(s, p, base, j);
    OneLang(s, base, typ, id, LangEntries(p, j)[0], p.sorted[j].data);
  }

  lemma LeafData(s: seq<byte>, p: Plan, base: nat, j: nat)
    requires Fits(p, 0) && j < |p.sorted| && LeafAt(s, 0, p, base, j)
    ensures LangEntries(p, j) == [Entry(LANG_EN_US, EntryAt(|p.gs|, |p.sorted|, j))]
        && EntryAt(|p.gs|, |p.sorted|, j) < HIGH_BIT
    ensures ReadData(s, base, EntryAt(|p.gs|, |p.sorted|, j)) == Some(p.sorted[j].data)
  {
    hide DirAt, Entries, ReadData, Holds32, HoldsBytes;
    DataRead(s, base, EntryAt(|p.gs|, |p.sorted|, j), p.Blob(j), p.sorted[j].data);
  }

  lemma DataRead(s: seq<byte>, base: nat, entry: nat, at: nat, data: seq<byte>)
    requires entry + 16 <= |s| && Holds32(s, entry, base + at) && Holds32(s, entry + 4, |data|)
        && HoldsBytes(s, at, data)
    ensures ReadData(s, base, entry) == Some(data)
  {
    hide U32;
  }

  lemma OneLang(s: seq<byte>, base: nat, typ: u32, id: u32, e: Entry, data: seq<byte>)
    requires e.off < HIGH_BIT && ReadData(s, base, e.off) == Some(data)
    ensures WalkLangs(s, base, typ, id, [e]) == Some([Found(typ, id, e.id, data)])
  {
    hide ReadData;
    assert [e][1..] == [];
    assert WalkLangs(s, base, typ, id, [e][1..]) == Some([]);
    assert [Found(typ, id, e.id, data)] + [] == [Found(typ, id, e.id, data)];
  }

  // One step of the walk along the names.
  lemma NameStep(s: seq<byte>, base: nat, typ: u32, es: seq<Entry>, langs: seq<Entry>, here: seq<Found>,
                 rest: seq<Found>)
    requires es != [] && es[0].off >= HIGH_BIT && Entries(s, ClearHigh(es[0].off)) == Some(langs)
    requires WalkLangs(s, base, typ, es[0].id, langs) == Some(here)
    requires WalkNames(s, base, typ, es[1..]) == Some(rest)
    ensures WalkNames(s, base, typ, es) == Some(here + rest)
  {
  }

  lemma TypeStep(s: seq<byte>, base: nat, es: seq<Entry>, names: seq<Entry>, here: seq<Found>, rest: seq<Found>)
    requires es != [] && es[0].off >= HIGH_BIT && Entries(s, ClearHigh(es[0].off)) == Some(names)
    requires WalkNames(s, base, es[0].id, names) == Some(here)
    requires WalkTypes(s, base, es[1..]) == Some(rest)
    ensures WalkTypes(s, base, es) == Some(here + rest)
  {
  }

  lemma NameEntryIs(p: Plan, g: nat, i: nat)
    requires p.Valid() && Fits(p, 0) && g < |p.gs| && i < |p.gs[g].list|
    ensures First(p.gs, g) + i < |p.sorted| && p.sorted[First(p.gs, g) + i] == p.gs[g].list[i]
    ensures p.gs[g].list[i].typ == p.gs[g].typ
    ensures var e := NameEntries(p, g)[i];
            && e.id == p.gs[g].list[i].id
            && e.off >= HIGH_BIT
            && ClearHigh(e.off) == LangAt(|p.gs|, |p.sorted|, First(p.gs, g) + i)
  {
    hide First, Fits;
    PlacedAt(p.sorted, p.gs, g, i);
  }

  lemma RootEntryIs(p: Plan, g: nat)
    requires p.Valid() && Fits(p, 0) && g < |p.gs|
    ensures var e := RootEntries(p)[g];
            e.id == p.gs[g].typ && e.off >= HIGH_BIT && ClearHigh(e.off) == TypeDir(p.gs, g)
  {
    hide TypeDir, Grouped, Fits;
  }

  lemma TreeParts(s: seq<byte>, pre: nat, p: Plan, base: nat)
    requires Tree(s, pre, p, base)
    ensures p.Valid() && Fits(p, 0)
    ensures DirAt(s, pre, RootEntries(p))
    ensures forall g :: 0 <= g < |p.gs| ==> DirAt(s, pre + TypeDir(p.gs, g), NameEntries(p, g))
    ensures forall j :: 0 <= j < |p.sorted| ==> LeafAt(s, pre, p, base, j)
  {
    hide DirAt, LeafAt, Grouped, Fits, RootEntries, NameEntries, TypeDir;
  }

  lemma {:induction false} NamesWalk(s: seq<byte>, p: Plan, base: nat, g: nat, i: nat)
    requires p.Valid() && Fits(p, 0) && Tree(s, 0, p, base) && g < |p.gs| && i <= |p.gs[g].list|
    ensures WalkNames(s, base, p.gs[g].typ, NameEntries(p, g)[i..]) == Some(AllFound(p.gs[g].list[i..]))
    decreases |p.gs[g].list| - i
  {
    hide Tree, DirAt, LeafAt, Entries, WalkLangs, Grouped, Fits, NameEntries, ClearHigh;
    var es, list := NameEntries(p, g)[i..], p.gs[g].list[i..];
    if i < |p.gs[g].list| {
      var j := First(p.gs, g) + i;
      NameEntryIs(p, g, i);
      TreeParts(s, 0, p, base);
      LeafWalk(s, p, base, j, p.gs[g].typ, es[0].id);
      NamesWalk(s, p, base, g, i + 1);
      assert es[1..] == NameEntries(p, g)[i + 1..] && list[1..] == p.gs[g].list[i + 1..];
      NameStep(s, base, p.gs[g].typ, es, LangEntries(p, j), [FoundAs(list[0])], AllFound(list[1..]));
    }
  }

  lemma {:induction false} TypesWalk(s: seq<byte>, p: Plan, base: nat, g: nat)
    requires p.Valid() && Fits(p, 0) && Tree(s, 0, p, base) && g <= |p.gs|
    ensures First(p.gs, g) <= |p.sorted|
    ensures WalkTypes(s, base, RootEntries(p)[g..]) == Some(AllFound(p.sorted[First(p.gs, g)..]))
    decreases |p.gs| - g
  {
    hide Tree, DirAt, LeafAt, Entries, WalkNames, WalkTypes, AllFound, First, Grouped, Fits, RootEntries, NameEntries,
      ClearHigh;
    if g == |p.gs| {
      TypesEnd(s, base, p);
      assert RootEntries(p)[g..] == [];
    } else {
      var es, list := RootEntries(p)[g..], p.gs[g].list;
      GroupSlice(p, g);
      RootEntryIs(p, g);
      TreeParts(s, 0, p, base);
      EntriesRead(s, TypeDir(p.gs, g), NameEntries(p, g));
      NamesWalk(s, p, base, g, 0);
      TypesWalk(s, p, base, g + 1);
      assert es[1..] == RootEntries(p)[g + 1..];
      assert NameEntries(p, g)[0..] == NameEntries(p, g) && list[0..] == list;
      var rest := p.sorted[First(p.gs, g + 1)..];
      TypeStep(s, base, es, NameEntries(p, g), AllFound(list), AllFound(rest));
      AllFoundAppend(list, rest);
    }
  }

  lemma TypesEnd(s: seq<byte>, base: nat, p: Plan)
    requires p.Valid()
    ensures WalkTypes(s, base, []) == Some([]) && First(p.gs, |p.gs|) == |p.sorted|
    ensures AllFound(p.sorted[First(p.gs, |p.gs|)..]) == []
  {
    hide Placed;
  }

  // The resources from group g on are those of the group and those from the next one on.
  lemma GroupSlice(p: Plan, g: nat)
    requires p.Valid() && g < |p.gs|
    ensures First(p.gs, g) <= First(p.gs, g + 1) <= |p.sorted|
    ensures p.sorted[First(p.gs, g)..] == p.gs[g].list + p.sorted[First(p.gs, g + 1)..]
  {
    assert Placed(p.sorted, p.gs, g);
    var at, list := First(p.gs, g), p.gs[g].list;
    assert p.sorted[at..] == p.sorted[at..at + |list|] + p.sorted[at + |list|..];
  }

  // Walking the section gives back the resources, sorted by type and id.
  lemma WalkGivesInput(s: seq<byte>, p: Plan, base: nat)
    requires p.Valid() && Fits(p, base) && p.LaidOut(s, base)
    ensures Walk(s, base) == Some(AllFound(p.sorted))
  {
    hide Tree, DirAt, LeafAt, Entries, WalkTypes, RootEntries, Plan.LaidOut, Grouped, Fits;
    assert HoldsBytes(s, 0, s);
    TreeHeld(s, 0, s, p, base);
    FitsZero(p, base);
    TreeParts(s, 0, p, base);
    EntriesRead(s, 0, RootEntries(p));
    TypesWalk(s, p, base, 0);
    assert RootEntries(p)[0..] == RootEntries(p) && p.sorted[0..] == p.sorted;
  }

  // ----- the search -----

  ghost predicate Distinct(res: seq<Resource>) {
    forall i, j :: 0 <= i < j < |res| ==> res[i].typ != res[j].typ || res[i].id != res[j].id
  }

  // Sorting distinct keys leaves them strictly ascending.
  lemma SortedStrict(sorted: seq<Resource>, res: seq<Resource>, i: nat, j: nat)
    requires SortOf(sorted, res) && Distinct(res) && i < j < |sorted|
    ensures KeyLt(sorted[i], sorted[j])
  {
    var a, b := sorted[i], sorted[j];
    assert KeyLe(a, b);
    StillOnce(res, sorted);
    assert a in multiset(sorted) && b in multiset(sorted);
    assert a in res && b in res;
  }

  ghost predicate StrictIds(es: seq<Entry>) {
    forall i, j :: 0 <= i < j < |es| ==> es[i].id < es[j].id
  }

  lemma {:induction false} SearchFinds(es: seq<Entry>, id: u32, lo: nat, hi: nat)
    requires StrictIds(es) && lo <= hi <= |es|
    ensures var r := Search(es, id, lo, hi);
            match r
            case Some(off) => exists i :: lo <= i < hi && es[i] == Entry(id, off)
            case None => forall i :: lo <= i < hi ==> es[i].id != id
    decreases hi - lo
  {
    if lo < hi {
      var mid := (lo + hi) / 2;
      if es[mid].id == id {
        assert es[mid] == Entry(id, es[mid].off);
      } else if es[mid].id < id {
        SearchFinds(es, id, mid + 1, hi);
      } else {
        SearchFinds(es, id, lo, mid);
      }
    }
  }

  lemma StrictRoot(p: Plan)
    requires p.Valid() && Fits(p, 0)
    ensures StrictIds(RootEntries(p))
  {
    hide TypeDir, First, Fits;
  }

  lemma StrictNames(p: Plan, g: nat)
    requires p.Valid() && Fits(p, 0) && g < |p.gs|
    requires forall i, j :: 0 <= i < j < |p.sorted| ==>
               KeyLt(p.sorted[i], p.sorted[j])
    ensures StrictIds(NameEntries(p, g))
  {
    hide NameEntries, Grouped;
    var es := NameEntries(p, g);
    forall i, j | 0 <= i < j < |es| ensures es[i].id < es[j].id {
      NameEntryIs(p, g, i);
      NameEntryIs(p, g, j);
    }
  }

  // Every position of the sorted list belongs to a group.
  lemma {:induction false} Locate(p: Plan, j: nat, upto: nat) returns (g: nat, i: nat)
    requires p.Valid() && upto <= |p.gs| && j < First(p.gs, upto)
    ensures g < |p.gs| && i < |p.gs[g].list| && j == First(p.gs, g) + i
  {
    if First(p.gs, upto - 1) <= j {
      g, i := upto - 1, j - First(p.gs, upto - 1);
    } else {
      g, i := Locate(p, j, upto - 1);
    }
  }

  ghost predicate Key(r: Resource, typ: u32, id: u32) {
    r.typ == typ && r.id == id
  }

  // The group and the place in it of a resource of the input.
  lemma LocateInput(p: Plan, res: seq<Resource>, r: Resource) returns (g: nat, i: nat)
    requires p.Valid() && Fits(p, 0) && SortOf(p.sorted, res) && r in res
    ensures g < |p.gs| && i < |p.gs[g].list| && p.gs[g].list[i] == r && p.gs[g].typ == r.typ
  {
    assert r in multiset(p.sorted);
    var j :| 0 <= j < |p.sorted| && p.sorted[j] == r;
    g, i := Locate(p, j, |p.gs|);
    NameEntryIs(p, g, i);
  }

  lemma NamesLookup(s: seq<byte>, p: Plan, base: nat, res: seq<Resource>, typ: u32, id: u32, g: nat)
    requires p.Valid() && Fits(p, 0) && Tree(s, 0, p, base) && SortOf(p.sorted, res) && Distinct(res)
    requires g < |p.gs| && p.gs[g].typ == typ
    ensures match Child(s, TypeDir(p.gs, g), id)
            case Some(langs) => exists j ::
              0 <= j < |p.sorted| && langs == LangEntries(p, j)
              && Key(p.sorted[j], typ, id)
            case None => forall i :: 0 <= i < |p.gs[g].list| ==> p.gs[g].list[i].id != id
  {
    hide Tree, DirAt, LeafAt, Grouped, Fits, NameEntries, LangEntries, Entries, ClearHigh, TypeDir, Search, StrictIds;
    var es := NameEntries(p, g);
    TreeParts(s, 0, p, base);
    EntriesRead(s, TypeDir(p.gs, g), es);
    forall i, j | 0 <= i < j < |p.sorted|
      ensures KeyLt(p.sorted[i], p.sorted[j])
    {
      SortedStrict(p.sorted, res, i, j);
    }
    StrictNames(p, g);
    SearchFinds(es, id, 0, |es|);
    var off := Search(es, id, 0, |es|);
    if off.Some? {
      var i :| 0 <= i < |es| && es[i] == Entry(id, off.value);
      NameEntryIs(p, g, i);
      var j := First(p.gs, g) + i;
      LeafWalk(s, p, base, j, typ, id);
      assert Key(p.sorted[j], typ, id);
    } else {
      forall i | 0 <= i < |p.gs[g].list| ensures p.gs[g].list[i].id != id {
        NameEntryIs(p, g, i);
      }
    }
  }

  // Looking a key up by binary search finds its data, and finds nothing for any other key.
  lemma LookupFinds(s: seq<byte>, p: Plan, base: nat, res: seq<Resource>, typ: u32, id: u32)
    requires p.Valid() && Fits(p, base) && p.LaidOut(s, base) && SortOf(p.sorted, res) && Distinct(res)
    ensures match Lookup(s, base, typ, id)
            case Some(data) => exists r :: r in res && Key(r, typ, id) && r.data == data
            case None => forall r :: r in res ==> !Key(r, typ, id)
  {
    hide Tree, DirAt, LeafAt, Grouped, Fits, RootEntries, NameEntries, Entries, ClearHigh, TypeDir, Search, StrictIds,
      Child, Plan.LaidOut, Distinct, ReadData;
    assert HoldsBytes(s, 0, s);
    TreeHeld(s, 0, s, p, base);
    FitsZero(p, base);
    TreeParts(s, 0, p, base);
    var es := RootEntries(p);
    EntriesRead(s, 0, es);
    StrictRoot(p);
    SearchFinds(es, typ, 0, |es|);
    var t := Search(es, typ, 0, |es|);
    if t.Some? {
      var g :| 0 <= g < |es| && es[g] == Entry(typ, t.value);
      RootEntryIs(p, g);
      NamesLookup(s, p, base, res, typ, id, g);
      var langs := Child(s, TypeDir(p.gs, g), id);
      if langs.Some? {
        var j :| 0 <= j < |p.sorted| && langs.value == LangEntries(p, j) && Key(p.sorted[j], typ, id);
        LeafWalk(s, p, base, j, typ, id);
        LangOff(p, j);
        assert p.sorted[j] in multiset(p.sorted);
        assert p.sorted[j] in res;
      } else {
        forall r | r in res ensures !Key(r, typ, id) {
          if r.typ == typ {
            var h, i := LocateInput(p, res, r);
            TypesDiffer(p, g, h);
          }
        }
      }
    } else {
      forall r | r in res ensures !Key(r, typ, id) {
        var h, i := LocateInput(p, res, r);
        RootEntryIs(p, h);
      }
    }
  }

  // Every resource is found under its key.
  lemma LookupGives(s: seq<byte>, p: Plan, base: nat, res: seq<Resource>, k: nat)
    requires p.Valid() && Fits(p, base) && p.LaidOut(s, base) && SortOf(p.sorted, res) && Distinct(res) && k < |res|
    ensures Lookup(s, base, res[k].typ, res[k].id) == Some(res[k].data)
  {
    hide Lookup, Fits, Grouped, Plan.LaidOut, SortOf;
    var r := res[k];
    LookupFinds(s, p, base, res, r.typ, r.id);
    assert Key(r, r.typ, r.id);
    var q :| q in res && Key(q, r.typ, r.id) && Lookup(s, base, r.typ, r.id) == Some(q.data);
    var l :| 0 <= l < |res| && res[l] == q;
    if l != k {
      assert false;
    }
  }

  lemma LangOff(p: Plan, j: nat)
    requires Fits(p, 0) && j < |p.sorted|
    ensures LangEntries(p, j) != [] && LangEntries(p, j)[0].off < HIGH_BIT
  {
  }

  lemma TypesDiffer(p: Plan, g: nat, h: nat)
    requires p.Valid() && g < |p.gs| && h < |p.gs| && p.gs[g].typ == p.gs[h].typ
    ensures g == h
  {
    hide First;
  }
}
