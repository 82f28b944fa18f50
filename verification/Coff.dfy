/**
 The COFF object around the section (tools/winres/coff.go), read back by a reader of the format
 and linked: every relocation adds the address the section is given.
 */
module Coff {
  import opened Bytes
  import opened Rsrc
  import opened RsrcReader

  const MACHINE_AMD64: u16 := 0x8664
  const MACHINE_386: u16 := 0x014c
  const REL_AMD64_ADDR32NB: u16 := 0x0003
  const REL_386_DIR32NB: u16 := 0x0007
  const SECTION_FLAGS: u32 := 0x4000_0040
  const HEADERS: nat := 60

  datatype Reloc = Reloc(at: u32, symbol: u32, typ: u16)
  datatype Symbol = Symbol(name: seq<byte>, value: u32, section: u16, typ: u16, storage: byte, aux: byte)
  datatype Object = Object(machine: u16, time: u32, characteristics: u16, name: seq<byte>, flags: u32,
                           section: seq<byte>, relocs: seq<Reloc>, symbols: seq<Symbol>)

  // ".rsrc" padded to eight bytes
  function SectionName(): (b: seq<byte>)
    ensures |b| == 8
  {
    [0x2E, 0x72, 0x73, 0x72, 0x63, 0, 0, 0]
  }

  function FileHeader(machine: u16, ptrSyms: u32): (b: seq<byte>)
    ensures |b| == 20
  {
    Le16(machine) + Le16(1) + Le32(0) + Le32(ptrSyms) + Le32(1) + Le16(0) + Le16(0)
  }

  function SectionHeader(size: u32, ptrRaw: u32, ptrReloc: u32, relocs: u16): (b: seq<byte>)
    ensures |b| == 40
  {
    SectionName() + Le32(0) + Le32(0) + Le32(size) + Le32(ptrRaw) + Le32(ptrReloc) + Le32(0)
    + Le16(relocs) + Le16(0) + Le32(SECTION_FLAGS)
  }

  function RelocBytes(relocs: seq<u32>, relType: u16): (b: seq<byte>)
    ensures |b| == 10 * |relocs|
  {
    if relocs == [] then []
    else RelocBytes(relocs[..|relocs| - 1], relType) + (Le32(relocs[|relocs| - 1]) + Le32(0) + Le16(relType))
  }

  // The one symbol, of the section, and an empty string table.
  function SymbolBytes(): (b: seq<byte>)
    ensures |b| == 22
  {
    SectionName() + Le32(0) + Le16(1) + Le16(0) + [3] + [0] + Le32(4)
  }

  function ObjectBytes(machine: u16, relType: u16, section: seq<byte>, relocs: seq<u32>): seq<byte> {
    var ptrReloc := Trunc32(HEADERS + |section|);
    FileHeader(machine, Trunc32(ptrReloc + 10 * |relocs|))
    + SectionHeader(Trunc32(|section|), HEADERS, ptrReloc, Trunc16(|relocs|))
    + section + RelocBytes(relocs, relType) + SymbolBytes()
  }

  method WriteCOFF(res: seq<Resource>, arch: string)
    returns (r: Result<seq<byte>>, ghost p: Plan, ghost section: Section)
    ensures r.Ok? <==> (arch == "amd64" || arch == "386") && 0 < |res| <= 0xffff
    ensures r.Ok? ==> SortOf(p.sorted, res) && p.Valid() && p.LaidOut(section.bytes, 0)
    ensures r.Ok? ==> section.relocs == Relocs(|p.gs|, |p.sorted|, |p.sorted|)
    ensures r.Ok? ==> r.value == ObjectBytes(if arch == "amd64" then MACHINE_AMD64 else MACHINE_386,
                                             if arch == "amd64" then REL_AMD64_ADDR32NB else REL_386_DIR32NB,
                                             section.bytes, section.relocs)
    ensures r.Ok? && |r.value| < 0x1_0000_0000 ==>
              && ReadObject(r.value).Some?
              && ReadObject(r.value).value.machine == (if arch == "amd64" then 0x8664 else 0x014c)
              && forall rva: u32 :: rva + |section.bytes| < 0x1_0000_0000 ==> Loads(r.value, p.sorted, rva)
  {
    hide Plan.LaidOut, Grouped, ObjectBytes, Relocs, Loads, ReadObject;
    var machine, relType: u16;
    section, p := Section([], []), Plan([], []);
    if arch == "amd64" {
      machine, relType := MACHINE_AMD64, REL_AMD64_ADDR32NB;
    } else if arch == "386" {
      machine, relType := MACHINE_386, REL_386_DIR32NB;
    } else {
      return Err("unsupported architecture"), p, section;
    }

    var built;
    built, p := BuildRsrc(res);
    if built.Err? {
      return Err(built.reason), p, section;
    }
    section := built.value;
    var bytes, relocs := built.value.bytes, built.value.relocs;
    if |relocs| > 0xffff {
      return Err("too many resources"), p, section;
    }
    var obj := WriteObject(machine, relType, bytes, relocs);
    WrittenLoads(machine, relType, p, bytes);
    r := Ok(obj);
  }

  // The headers, the section, its relocations and its symbol.
  method WriteObject(machine: u16, relType: u16, bytes: seq<byte>, relocs: seq<u32>) returns (buf: seq<byte>)
    requires |relocs| <= 0xffff
    ensures buf == ObjectBytes(machine, relType, bytes, relocs)
  {
    hide FileHeader, SectionHeader, RelocBytes, SymbolBytes, Trunc32;
    var ptrReloc := Trunc32(HEADERS + |bytes|);
    var ptrSyms := Trunc32(ptrReloc + 10 * |relocs|);

    buf := AppendFileHeader([], machine, ptrSyms);
    buf := AppendSectionHeader(buf, Trunc32(|bytes|), HEADERS, ptrReloc, |relocs|);
    buf := buf + bytes;
    buf := AppendRelocs(buf, relocs, relType);
    buf := AppendSymbols(buf);
    assert [] + FileHeader(machine, ptrSyms) == FileHeader(machine, ptrSyms);
  }

  method AppendFileHeader(buf: seq<byte>, machine: u16, ptrSyms: u32) returns (out: seq<byte>)
    ensures out == buf + FileHeader(machine, ptrSyms)
  {
    hide Le16, Le32;
    out := buf + Le16(machine);
    out := out + Le16(1);
    out := out + Le32(0);
    out := out + Le32(ptrSyms);
    out := out + Le32(1);
    out := out + Le16(0);
    out := out + Le16(0);
  }

  method AppendSectionHeader(buf: seq<byte>, size: u32, ptrRaw: u32, ptrReloc: u32, relocs: u16)
    returns (out: seq<byte>)
    ensures out == buf + SectionHeader(size, ptrRaw, ptrReloc, relocs)
  {
    hide Le16, Le32, SectionName;
    out := buf + SectionName();
    out := out + Le32(0);
    out := out + Le32(0);
    out := out + Le32(size);
    out := out + Le32(ptrRaw);
    out := out + Le32(ptrReloc);
    out := out + Le32(0);
    out := out + Le16(relocs);
    out := out + Le16(0);
    out := out + Le32(SECTION_FLAGS);
  }

  lemma RelocBytesSnoc(rs: seq<u32>, r: u32, relType: u16)
    ensures RelocBytes(rs + [r], relType) == RelocBytes(rs, relType) + (Le32(r) + Le32(0) + Le16(relType))
  {
    hide Le16, Le32;
    assert (rs + [r])[..|rs|] == rs;
  }

  lemma AppendThree(s: seq<byte>, a: seq<byte>, b: seq<byte>, c: seq<byte>)
    ensures s + a + b + c == s + (a + b + c)
  {
  }

  method AppendRelocs(buf: seq<byte>, relocs: seq<u32>, relType: u16) returns (out: seq<byte>)
    ensures out == buf + RelocBytes(relocs, relType)
  {
    hide Le16, Le32, RelocBytes;
    out := buf;
    RelocBytesEmpty(relType);
    for k := 0 to |relocs|
      invariant out == buf + RelocBytes(relocs[..k], relType)
    {
      ghost var done := RelocBytes(relocs[..k], relType);
      assert relocs[..k + 1] == relocs[..k] + [relocs[k]];
      RelocBytesSnoc(relocs[..k], relocs[k], relType);
      AppendThree(out, Le32(relocs[k]), Le32(0), Le16(relType));
      Assoc(buf, done, Le32(relocs[k]) + Le32(0) + Le16(relType));
      out := out + Le32(relocs[k]);
      out := out + Le32(0);
      out := out + Le16(relType);
    }
    assert relocs[..|relocs|] == relocs;
  }

  lemma RelocBytesEmpty(relType: u16)
    ensures RelocBytes([], relType) == []
  {
  }

  method AppendSymbols(buf: seq<byte>) returns (out: seq<byte>)
    ensures out == buf + SymbolBytes()
  {
    hide Le16, Le32, SectionName;
    out := buf + SectionName();
    out := out + Le32(0);
    out := out + Le16(1);
    out := out + Le16(0);
    out := out + [3];
    out := out + [0];
    out := out + Le32(4);
  }

  // ----- reading the object (Microsoft PE Format specification, "COFF File Header",
  // "Section Table", "COFF Relocations", "COFF Symbol Table", "COFF String Table") -----

  function ReadReloc(obj: seq<byte>, at: nat): Reloc
    requires at + 10 <= |obj|
  {
    Reloc(U32(obj, at), U32(obj, at + 4), U16(obj, at + 8))
  }

  function ReadSymbol(obj: seq<byte>, at: nat): Symbol
    requires at + 18 <= |obj|
  {
    Symbol(obj[at..at + 8], U32(obj, at + 8), U16(obj, at + 12), U16(obj, at + 14), obj[at + 16], obj[at + 17])
  }

  // An object of one section at address 0 and without line numbers, with its relocations, the table of symbols that the
  // header points at and the table of strings that follows it.
  function ReadObject(obj: seq<byte>): Option<Object> {
    if |obj| < HEADERS || U16(obj, 2) != 1 || U16(obj, 16) != 0 then None
    else if U32(obj, 28) != 0 || U32(obj, 32) != 0 || U32(obj, 48) != 0 || U16(obj, 54) != 0 then None
    else
      var size, raw, rel, n := U32(obj, 36), U32(obj, 40), U32(obj, 44), U16(obj, 52);
      var sym, m := U32(obj, 8), U32(obj, 12);
      var strings := sym + 18 * m;
      if raw + size > |obj| || rel + 10 * n > |obj| || strings + 4 > |obj| then None
      else if U32(obj, strings) < 4 || strings + U32(obj, strings) > |obj| then None
      else
        Some(Object(U16(obj, 0), U32(obj, 4), U16(obj, 18), obj[20..28], U32(obj, 56), obj[raw..raw + size],
                    seq(n, k requires 0 <= k < n => ReadReloc(obj, rel + 10 * k)),
                    seq(m, k requires 0 <= k < m => ReadSymbol(obj, sym + 18 * k))))
  }

  lemma FileHeaderHeld(obj: seq<byte>, machine: u16, ptrSyms: u32)
    requires HoldsBytes(obj, 0, FileHeader(machine, ptrSyms))
    ensures Holds16(obj, 0, machine) && Holds16(obj, 2, 1) && Holds16(obj, 16, 0)
    ensures Holds32(obj, 4, 0) && Holds32(obj, 8, ptrSyms) && Holds32(obj, 12, 1) && Holds16(obj, 18, 0)
  {
    hide HoldsBytes, Holds16, Holds32, Le16, Le32;
    var a, b, c, d, e, f := Le16(machine), Le16(1), Le32(0), Le32(ptrSyms), Le32(1), Le16(0);
    HoldsSplit(obj, 0, a + b + c + d + e + f, f);
    HoldsSplit(obj, 0, a + b + c + d + e, f);
    HoldsSplit(obj, 0, a + b + c + d, e);
    HoldsSplit(obj, 0, a + b + c, d);
    HoldsSplit(obj, 0, a + b, c);
    HoldsSplit(obj, 0, a, b);
    HeldFields(obj, 0, machine);
    HeldFields(obj, 2, 1);
    HeldFields(obj, 4, 0);
    HeldFields(obj, 18, 0);
    HeldFields(obj, 8, ptrSyms);
    HeldFields(obj, 12, 1);
    HeldFields(obj, 16, 0);
  }

  lemma SectionHeaderHeld(obj: seq<byte>, at: nat, size: u32, ptrRaw: u32, ptrReloc: u32, relocs: u16)
    requires HoldsBytes(obj, at, SectionHeader(size, ptrRaw, ptrReloc, relocs))
    ensures Holds32(obj, at + 16, size) && Holds32(obj, at + 20, ptrRaw) && Holds32(obj, at + 24, ptrReloc)
    ensures Holds16(obj, at + 32, relocs)
    ensures HoldsBytes(obj, at, SectionName()) && Holds32(obj, at + 36, SECTION_FLAGS)
    ensures Holds32(obj, at + 8, 0) && Holds32(obj, at + 12, 0) && Holds32(obj, at + 28, 0) && Holds16(obj, at + 34, 0)
  {
    hide HoldsBytes, Holds16, Holds32, Le16, Le32;
    var z, a, b, c, d := Le32(0), Le32(size), Le32(ptrRaw), Le32(ptrReloc), Le16(relocs);
    var n := SectionName();
    HoldsSplit(obj, at, n + z + z + a + b + c + z + d + Le16(0), Le32(SECTION_FLAGS));
    HoldsSplit(obj, at, n + z + z + a + b + c + z + d, Le16(0));
    HoldsSplit(obj, at, n + z + z + a + b + c + z, d);
    HoldsSplit(obj, at, n + z + z + a + b + c, z);
    HoldsSplit(obj, at, n + z + z + a + b, c);
    HoldsSplit(obj, at, n + z + z + a, b);
    HoldsSplit(obj, at, n + z + z, a);
    HoldsSplit(obj, at, n + z, z);
    HoldsSplit(obj, at, n, z);
    HeldFields(obj, at + 8, 0);
    HeldFields(obj, at + 12, 0);
    HeldFields(obj, at + 28, 0);
    HeldFields(obj, at + 34, 0);
    HeldFields(obj, at + 36, SECTION_FLAGS);
    HeldFields(obj, at + 16, size);
    HeldFields(obj, at + 20, ptrRaw);
    HeldFields(obj, at + 24, ptrReloc);
    HeldFields(obj, at + 32, relocs);
  }

  lemma {:induction false} RelocsHeld(obj: seq<byte>, at: nat, relocs: seq<u32>, relType: u16, k: nat)
    requires HoldsBytes(obj, at, RelocBytes(relocs, relType)) && k < |relocs|
    ensures at + 10 * k + 10 <= |obj| && ReadReloc(obj, at + 10 * k) == Reloc(relocs[k], 0, relType)
  {
    hide HoldsBytes, Le16, Le32;
    var n := |relocs| - 1;
    var one := Le32(relocs[n]) + Le32(0) + Le16(relType);
    HoldsSplit(obj, at, RelocBytes(relocs[..n], relType), one);
    if k < n {
      RelocsHeld(obj, at, relocs[..n], relType, k);
    } else {
      var r := at + 10 * n;
      HoldsSplit(obj, r, Le32(relocs[n]) + Le32(0), Le16(relType));
      HoldsSplit(obj, r, Le32(relocs[n]), Le32(0));
      HeldFields(obj, r, relocs[n]);
      HeldFields(obj, r + 4, 0);
      HeldFields(obj, r + 8, relType);
    }
  }

  lemma SymbolHeld(obj: seq<byte>, at: nat)
    requires HoldsBytes(obj, at, SymbolBytes())
    ensures at + 22 <= |obj| && Holds32(obj, at + 18, 4)
    ensures ReadSymbol(obj, at) == Symbol([0x2E, 0x72, 0x73, 0x72, 0x63, 0, 0, 0], 0, 1, 0, 3, 0)
  {
    hide HoldsBytes, Holds16, Holds32, Le16, Le32;
    HoldsLength(obj, at, SymbolBytes());
    var n, v, sec, typ := SectionName(), Le32(0), Le16(1), Le16(0);
    HoldsSplit(obj, at, n + v + sec + typ + [3] + [0], Le32(4));
    HoldsSplit(obj, at, n + v + sec + typ + [3], [0]);
    HoldsSplit(obj, at, n + v + sec + typ, [3]);
    HoldsSplit(obj, at, n + v + sec, typ);
    HoldsSplit(obj, at, n + v, sec);
    HoldsSplit(obj, at, n, v);
    HeldFields(obj, at + 8, 0);
    HeldFields(obj, at + 12, 1);
    HeldFields(obj, at + 14, 0);
    HeldFields(obj, at + 18, 4);
    SliceHeld(obj, at, n);
    ByteHeld(obj, at + 16, 3);
    ByteHeld(obj, at + 17, 0);
    FieldIs(obj, at + 8, 0);
    ShortIs(obj, at + 12, 1);
    ShortIs(obj, at + 14, 0);
  }

  lemma ByteHeld(obj: seq<byte>, at: nat, b: byte)
    requires HoldsBytes(obj, at, [b])
    ensures at < |obj| && obj[at] == b
  {
    assert obj[at..at + 1][0] == b;
  }

  lemma ShortIs(s: seq<byte>, at: nat, v: int)
    requires Holds16(s, at, v)
    ensures at + 2 <= |s| && U16(s, at) == v
  {
  }

  // The object meant: no time stamp, one readable section of initialised data, its relocations against the first
  // symbol, and one static symbol for the start of the first section.
  function ObjectOf(machine: u16, relType: u16, section: seq<byte>, ats: seq<u32>): Object {
    var name := [0x2E, 0x72, 0x73, 0x72, 0x63, 0, 0, 0];
    Object(machine, 0, 0, name, 0x4000_0040, section,
           seq(|ats|, k requires 0 <= k < |ats| => Reloc(ats[k], 0, relType)),
           [Symbol(name, 0, 1, 0, 3, 0)])
  }

  // The fields that a reader looks at.
  ghost predicate Fields(obj: seq<byte>, machine: u16, relType: u16, section: seq<byte>, relocs: seq<u32>) {
    var ptrReloc := HEADERS + |section|;
    && Holds16(obj, 0, machine) && Holds16(obj, 2, 1) && Holds16(obj, 16, 0)
    && Holds32(obj, 4, 0) && Holds32(obj, 8, ptrReloc + 10 * |relocs|) && Holds32(obj, 12, 1) && Holds16(obj, 18, 0)
    && Holds32(obj, 28, 0) && Holds32(obj, 48, 0) && Holds16(obj, 54, 0)
    && Holds32(obj, 32, 0) && Holds32(obj, 36, |section|) && Holds32(obj, 40, HEADERS) && Holds32(obj, 44, ptrReloc)
    && Holds16(obj, 52, |relocs|) && Holds32(obj, 56, SECTION_FLAGS)
    && ptrReloc + 10 * |relocs| + 22 <= |obj|
    && obj[20..28] == SectionName() && obj[HEADERS..ptrReloc] == section
    && Holds32(obj, ptrReloc + 10 * |relocs| + 18, 4)
    && ReadSymbol(obj, ptrReloc + 10 * |relocs|) == Symbol([0x2E, 0x72, 0x73, 0x72, 0x63, 0, 0, 0], 0, 1, 0, 3, 0)
    && forall k :: 0 <= k < |relocs| ==> ReadReloc(obj, ptrReloc + 10 * k) == Reloc(relocs[k], 0, relType)
  }

  lemma FieldsHeld(machine: u16, relType: u16, section: seq<byte>, relocs: seq<u32>)
    requires |relocs| <= 0xffff && HEADERS + |section| + 10 * |relocs| < 0x1_0000_0000
    ensures Fields(ObjectBytes(machine, relType, section, relocs), machine, relType, section, relocs)
  {
    hide HoldsBytes, FileHeader, SectionHeader, RelocBytes, SymbolBytes, Holds16, Holds32, ReadReloc, ReadSymbol;
    var ptrReloc := HEADERS + |section|;
    var obj := ObjectBytes(machine, relType, section, relocs);
    var a, b := FileHeader(machine, ptrReloc + 10 * |relocs|), SectionHeader(|section|, HEADERS, ptrReloc, |relocs|);
    var c := RelocBytes(relocs, relType);
    assert obj == a + b + section + c + SymbolBytes();
    WholeHeld(obj);
    HoldsSplit(obj, 0, a + b + section + c, SymbolBytes());
    HoldsSplit(obj, 0, a + b + section, c);
    HoldsSplit(obj, 0, a + b, section);
    HoldsSplit(obj, 0, a, b);
    FileHeaderHeld(obj, machine, ptrReloc + 10 * |relocs|);
    SectionHeaderHeld(obj, 20, |section|, HEADERS, ptrReloc, |relocs|);
    SliceHeld(obj, 20, SectionName());
    SliceHeld(obj, HEADERS, section);
    HoldsLength(obj, ptrReloc, c);
    SymbolHeld(obj, ptrReloc + 10 * |relocs|);
    forall k | 0 <= k < |relocs| ensures ReadReloc(obj, ptrReloc + 10 * k) == Reloc(relocs[k], 0, relType) {
      RelocsHeld(obj, ptrReloc, relocs, relType, k);
    }
  }

  lemma FieldsRead(obj: seq<byte>, machine: u16, relType: u16, section: seq<byte>, relocs: seq<u32>)
    requires Fields(obj, machine, relType, section, relocs)
    ensures ReadObject(obj) == Some(ObjectOf(machine, relType, section, relocs))
  {
    hide ReadReloc, ReadSymbol, U16, U32;
    var r, o := ReadObject(obj), ObjectOf(machine, relType, section, relocs);
    assert r.Some? && r.value.relocs == o.relocs && r.value.symbols == o.symbols;
  }

  // Reading the object gives back the machine, the section, one relocation per data entry and the
  // symbol they name.
  lemma ObjectRead(machine: u16, relType: u16, section: seq<byte>, relocs: seq<u32>)
    requires |relocs| <= 0xffff && HEADERS + |section| + 10 * |relocs| < 0x1_0000_0000
    ensures ReadObject(ObjectBytes(machine, relType, section, relocs))
         == Some(ObjectOf(machine, relType, section, relocs))
  {
    hide ReadObject, ObjectBytes, Fields, ObjectOf;
    FieldsHeld(machine, relType, section, relocs);
    FieldsRead(ObjectBytes(machine, relType, section, relocs), machine, relType, section, relocs);
  }

  // ----- linking -----

  // The relocation by which each machine asks for an address relative to the image
  // (IMAGE_REL_AMD64_ADDR32NB, IMAGE_REL_I386_DIR32NB).
  function ImageRelative(machine: u16): Option<u16> {
    if machine == 0x8664 then Some(3) else if machine == 0x014c then Some(7) else None
  }

  // What a linker does with the relocation r of the object o whose section it puts at rva: it adds
  // the address of the symbol that r names. None if that symbol is not defined in the section, or
  // r asks for something else, or lies outside.
  function Resolve(o: Object, rva: u32, t: seq<byte>, r: Reloc): Option<seq<byte>> {
    if r.symbol >= |o.symbols| || o.symbols[r.symbol].section != 1 then None
    else if ImageRelative(o.machine) != Some(r.typ) || r.at + 4 > |t| then None
    else Some(Patch(t, r.at, Le32(Trunc32(U32(t, r.at) + rva + o.symbols[r.symbol].value))))
  }

  // The section with its first k relocations resolved.
  function LinkFirst(o: Object, rva: u32, k: nat): Option<seq<byte>>
    requires k <= |o.relocs|
  {
    if k == 0 then Some(o.section)
    else
      var t := LinkFirst(o, rva, k - 1);
      if t.None? then None else Resolve(o, rva, t.value, o.relocs[k - 1])
  }

  function Link(o: Object, rva: u32): Option<seq<byte>> { LinkFirst(o, rva, |o.relocs|) }

  // What that comes to when every relocation asks for the address of the section.
  function Relocate(s: seq<byte>, ats: seq<u32>, rva: u32): seq<byte> {
    if ats == [] then s
    else
      var t, at := Relocate(s, ats[..|ats| - 1], rva), ats[|ats| - 1];
      if at + 4 <= |t| then Patch(t, at, Le32(Trunc32(U32(t, at) + rva))) else t
  }

  // The first k data entries are relocated, everything else is as written.
  ghost predicate Relocated(p: Plan, s: seq<byte>, rva: nat, k: nat) {
    && |s| == p.Total()
    && (forall o :: p.Has(o) ==> p.Holds(s, if o.DataEntry? && o.j < k then rva else 0, o))
    && (forall q :: 0 <= q < |s| && s[q] != 0 ==> exists o :: p.Covers(o, q))
  }

  lemma OthersKeep(p: Plan, base: nat, o: Slot)
    requires p.Has(o) && !o.DataEntry?
    ensures p.Content(base, o) == p.Content(0, o)
  {
  }

  lemma DataEntryContent(p: Plan, base: nat, j: nat)
    requires j < |p.sorted|
    ensures p.Start(DataEntry(j)) + p.Skip(DataEntry(j)) == EntryAt(|p.gs|, |p.sorted|, j)
    ensures p.Content(base, DataEntry(j))
         == PairBytes(Trunc32(base + p.Blob(j)), Trunc32(|p.sorted[j].data|)) + PairBytes(0, 0)
  {
    hide PairBytes, Trunc32;
  }

  // A data entry splits into the address, which moves, and the rest, which does not.
  lemma DataEntryParts(p: Plan, base: nat, j: nat)
    requires j < |p.sorted|
    ensures p.Start(DataEntry(j)) + p.Skip(DataEntry(j)) == EntryAt(|p.gs|, |p.sorted|, j)
    ensures p.Content(base, DataEntry(j))
         == Le32(Trunc32(base + p.Blob(j))) + (Le32(Trunc32(|p.sorted[j].data|)) + PairBytes(0, 0))
  {
    hide *;
    var a, b := Trunc32(base + p.Blob(j)), Trunc32(|p.sorted[j].data|);
    HasData(p, j);
    DataEntryContent(p, base, j);
    PairBytesAre(a, b);
    Assoc(Le32(a), Le32(b), PairBytes(0, 0));
  }

  lemma HasData(p: Plan, j: nat)
    requires j < |p.sorted|
    ensures p.Has(DataEntry(j))
  {
  }

  lemma AddTrunc(a: nat, b: nat)
    ensures Trunc32(Trunc32(a) + b) == Trunc32(a + b)
  {
  }

  // Relocating one data entry makes it point rva further.
  lemma EntryMoves(p: Plan, s: seq<byte>, rva: u32, k: nat)
    requires k < |p.sorted| && p.Holds(s, 0, DataEntry(k))
    ensures var at := EntryAt(|p.gs|, |p.sorted|, k);
            at + 4 <= |s| && p.Holds(Patch(s, at, Le32(Trunc32(U32(s, at) + rva))), rva, DataEntry(k))
  {
    hide Plan.Content, Plan.Start, Plan.Skip, Patch, HoldsBytes, Le32, Trunc32, Holds32, EntryAt, PairBytes, U32;
    var o, at := DataEntry(k), EntryAt(|p.gs|, |p.sorted|, k);
    DataEntryParts(p, 0, k);
    DataEntryParts(p, rva, k);
    var old32, rest := Trunc32(p.Blob(k)), Le32(Trunc32(|p.sorted[k].data|)) + PairBytes(0, 0);
    HoldsSplit(s, at, Le32(old32), rest);
    HeldFields(s, at, old32);
    HoldsLength(s, at, Le32(old32));
    FieldIs(s, at, old32);
    AddTrunc(p.Blob(k), rva);
    var b := Le32(Trunc32(rva + p.Blob(k)));
    PatchHolds(s, at, b);
    PatchKeeps(s, at, b, at + 4, rest);
    HoldsSplit(Patch(s, at, b), at, b, rest);
  }

  lemma OthersStay(p: Plan, s: seq<byte>, k: nat, b: seq<byte>, base: nat, q: Slot)
    requires p.Valid() && k < |p.sorted| && q != DataEntry(k) && p.Holds(s, base, q)
    requires |b| == 4 && EntryAt(|p.gs|, |p.sorted|, k) + 4 <= |s|
    ensures p.Holds(Patch(s, EntryAt(|p.gs|, |p.sorted|, k), b), base, q)
  {
    hide Plan.Content, Plan.Start, Plan.Skip, Plan.Size, Patch, HoldsBytes, EntryAt, Grouped;
    DataEntryRoom(p, k);
    SlotRoom(p, base, q);
    p.Disjoint(DataEntry(k), q);
    PatchKeeps(s, EntryAt(|p.gs|, |p.sorted|, k), b, p.Start(q) + p.Skip(q), p.Content(base, q));
  }

  lemma {:induction false} RelocateStep(p: Plan, s: seq<byte>, rva: u32, k: nat)
    requires p.Valid() && Fits(p, 0) && Relocated(p, s, rva, k) && k < |p.sorted|
    ensures var at := EntryAt(|p.gs|, |p.sorted|, k);
            at + 4 <= |s| && Relocated(p, Patch(s, at, Le32(Trunc32(U32(s, at) + rva))), rva, k + 1)
  {
    hide Plan.Content, Plan.Start, Plan.Size, Plan.Holds, Patch, Le32, Trunc32, Fits, Grouped, EntryAt, U32, Plan.Total;
    var o, at := DataEntry(k), EntryAt(|p.gs|, |p.sorted|, k);
    assert p.Holds(s, 0, o);
    EntryMoves(p, s, rva, k);
    var b := Le32(Trunc32(U32(s, at) + rva));
    var t := Patch(s, at, b);
    PatchHolds(s, at, b);
    forall q | p.Has(q) ensures p.Holds(t, if q.DataEntry? && q.j < k + 1 then rva else 0, q) {
      if q != o {
        var base := if q.DataEntry? && q.j < k then rva else 0;
        assert p.Holds(s, base, q);
        OthersStay(p, s, k, b, base, q);
      }
    }
    forall q | 0 <= q < |t| && t[q] != 0 ensures exists c :: p.Covers(c, q) {
      DataEntryRoom(p, k);
      if at <= q < at + 4 {
        assert p.Covers(o, q);
      }
    }
  }

  lemma DataEntryRoom(p: Plan, k: nat)
    requires k < |p.sorted|
    ensures p.Start(DataEntry(k)) == EntryAt(|p.gs|, |p.sorted|, k) && p.Size(DataEntry(k)) == 16
  {
  }

  lemma SlotRoom(p: Plan, base: nat, o: Slot)
    requires p.Has(o)
    ensures p.Start(o) <= p.Start(o) + p.Skip(o)
    ensures p.Start(o) + p.Skip(o) + |p.Content(base, o)| == p.Start(o) + p.Size(o)
  {
    hide Plan.Start, Plan.Content, Plan.Size;
    p.ContentSize(base, o);
  }

  lemma {:induction false} RelocateFirst(p: Plan, s: seq<byte>, rva: u32, k: nat)
    requires p.Valid() && Fits(p, 0) && p.LaidOut(s, 0) && k <= |p.sorted|
    ensures Relocated(p, Relocate(s, Relocs(|p.gs|, |p.sorted|, k), rva), rva, k)
  {
    hide Plan.Holds, Plan.Covers, Plan.Total, Patch, Le32, Grouped, U32;
    if k > 0 {
      var n := |p.sorted|;
      var ats := Relocs(|p.gs|, n, k);
      assert ats[..k - 1] == Relocs(|p.gs|, n, k - 1);
      assert ats[k - 1] == EntryAt(|p.gs|, n, k - 1);
      RelocateFirst(p, s, rva, k - 1);
      RelocateStep(p, Relocate(s, ats[..k - 1], rva), rva, k - 1);
    }
  }

  // The linker turns the section written for address 0 into the section for address rva.
  lemma LinkedLaidOut(p: Plan, s: seq<byte>, rva: u32)
    requires p.Valid() && Fits(p, 0) && p.LaidOut(s, 0)
    ensures p.LaidOut(Relocate(s, Relocs(|p.gs|, |p.sorted|, |p.sorted|), rva), rva)
  {
    hide Plan.Content, Plan.Start, Plan.Skip, Plan.Covers, Relocate, Fits, Grouped, Plan.Total, HoldsBytes;
    var t := Relocate(s, Relocs(|p.gs|, |p.sorted|, |p.sorted|), rva);
    RelocateFirst(p, s, rva, |p.sorted|);
    forall o | p.Has(o) ensures p.Holds(t, rva, o) {
      if !o.DataEntry? {
        OthersKeep(p, rva, o);
        assert p.Holds(t, 0, o);
      } else {
        assert o.j < |p.sorted|;
      }
    }
  }

  lemma {:induction false} GroupCount(gs: seq<Group>, g: nat)
    requires g <= |gs| && forall k :: 0 <= k < |gs| ==> gs[k].list != []
    ensures g <= First(gs, g)
    ensures forall k :: 0 <= k < g ==> |gs[k].list| <= First(gs, g)
  {
    if g > 0 {
      GroupCount(gs, g - 1);
    }
  }

  // The one guard of writeCOFF, on the number of resources, keeps every count and every offset
  // of a directory within its field; what remains is the size of the section.
  lemma GuardFits(p: Plan, base: nat)
    requires p.Valid() && |p.sorted| <= 0xffff
    ensures Fits(p, base) <==> base + p.Total() < 0x1_0000_0000
  {
    GroupCount(p.gs, |p.gs|);
  }

  // Every relocation of the object resolves, to the address of the section.
  lemma {:induction false} LinkIsRelocate(machine: u16, relType: u16, p: Plan, s: seq<byte>, rva: u32, k: nat)
    requires p.Valid() && Fits(p, 0) && p.LaidOut(s, 0) && k <= |p.sorted| && ImageRelative(machine) == Some(relType)
    ensures LinkFirst(ObjectOf(machine, relType, s, Relocs(|p.gs|, |p.sorted|, |p.sorted|)), rva, k)
         == Some(Relocate(s, Relocs(|p.gs|, |p.sorted|, k), rva))
  {
    hide Plan.LaidOut, Plan.Total, Plan.Has, Plan.Holds, Plan.Covers, Patch, Le32, Trunc32, Grouped, U32, EntryAt,
      Fits;
    if k > 0 {
      var n := |p.sorted|;
      var ats := Relocs(|p.gs|, n, k);
      RelocsSnoc(|p.gs|, n, k - 1);
      LinkIsRelocate(machine, relType, p, s, rva, k - 1);
      RelocateFirst(p, s, rva, k - 1);
      RelocateStep(p, Relocate(s, ats[..k - 1], rva), rva, k - 1);
      RelocIs(p, k - 1);
      var t := Relocate(s, ats[..k - 1], rva);
      var o := ObjectOf(machine, relType, s, Relocs(|p.gs|, n, n));
      assert Resolve(o, rva, t, o.relocs[k - 1]) == Some(Patch(t, ats[k - 1], Le32(Trunc32(U32(t, ats[k - 1]) + rva))));
    }
  }

  lemma RelocsSnoc(groups: nat, n: nat, k: nat)
    requires k < n
    ensures Relocs(groups, n, k + 1)[..k] == Relocs(groups, n, k)
    ensures Relocs(groups, n, k + 1)[k] == Relocs(groups, n, n)[k] == Trunc32(EntryAt(groups, n, k))
  {
    hide EntryAt, Trunc32;
  }

  lemma RelocIs(p: Plan, k: nat)
    requires p.Valid() && Fits(p, 0) && k < |p.sorted|
    ensures Trunc32(EntryAt(|p.gs|, |p.sorted|, k)) == EntryAt(|p.gs|, |p.sorted|, k)
  {
  }

  // Read, linked at address rva and walked there, the object obj gives the resources sorted.
  ghost predicate Loads(obj: seq<byte>, sorted: seq<Resource>, rva: u32) {
    var o := ReadObject(obj);
    && o.Some?
    && var t := Link(o.value, rva);
       t.Some? && Walk(t.value, rva) == Some(AllFound(sorted))
  }

  // From the compiler through the object and the linker to a walk over the loaded section: the
  // resources come back whole, sorted by type and id, at whatever address the section is loaded.
  lemma ObjectGivesInput(machine: u16, relType: u16, p: Plan, s: seq<byte>, rva: u32)
    requires p.Valid() && |p.sorted| <= 0xffff && p.LaidOut(s, 0) && ImageRelative(machine) == Some(relType)
    requires rva + p.Total() < 0x1_0000_0000
    requires HEADERS + p.Total() + 10 * |p.sorted| < 0x1_0000_0000
    ensures Loads(ObjectBytes(machine, relType, s, Relocs(|p.gs|, |p.sorted|, |p.sorted|)), p.sorted, rva)
  {
    hide ObjectBytes, ReadObject, Relocs, Relocate, Fits, Walk, Plan.Has, Plan.Holds, Plan.Covers, Plan.Valid, AllFound;
    var ats := Relocs(|p.gs|, |p.sorted|, |p.sorted|);
    ObjectRead(machine, relType, s, ats);
    GuardFits(p, 0);
    GuardFits(p, rva);
    LinkIsRelocate(machine, relType, p, s, rva, |p.sorted|);
    LinkedLaidOut(p, s, rva);
    WalkGivesInput(Relocate(s, ats, rva), p, rva);
  }

  lemma WrittenLoads(machine: u16, relType: u16, p: Plan, s: seq<byte>)
    requires p.Valid() && |p.sorted| <= 0xffff && p.LaidOut(s, 0) && ImageRelative(machine) == Some(relType)
    ensures var obj := ObjectBytes(machine, relType, s, Relocs(|p.gs|, |p.sorted|, |p.sorted|));
            |obj| < 0x1_0000_0000 ==>
              && ReadObject(obj).Some? && ReadObject(obj).value.machine == machine
              && forall rva: u32 :: rva + |s| < 0x1_0000_0000 ==> Loads(obj, p.sorted, rva)
  {
    hide ReadObject, Loads, Relocs, Plan.Has, Plan.Holds, Plan.Covers, Plan.Valid, Plan.Total, FileHeader,
      SectionHeader, RelocBytes, SymbolBytes, Trunc32, Trunc16;
    var ats := Relocs(|p.gs|, |p.sorted|, |p.sorted|);
    var obj := ObjectBytes(machine, relType, s, ats);
    assert |obj| == 82 + |s| + 10 * |p.sorted|;
    if |obj| < 0x1_0000_0000 {
      ObjectRead(machine, relType, s, ats);
      forall rva: u32 | rva + |s| < 0x1_0000_0000 ensures Loads(obj, p.sorted, rva) {
        ObjectGivesInput(machine, relType, p, s, rva);
      }
    }
  }
}
