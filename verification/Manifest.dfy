/**
 The manifest patch of tools/popplerbundle: find the RT_MANIFEST resource of an executable
 through its section table (pe.go) and overwrite it in place (manifest.go).
 */
module Manifest {
  import opened Bytes
  import opened Rsrc
  import opened RsrcReader
  import Coff

  const RT_MANIFEST: u32 := 24

  // One row of the section table: where the section is loaded, and where it is in the file.
  datatype PeSection = PeSection(virtualAddress: u32, virtualSize: u32, size: u32, offset: u32)
  datatype Located = Located(entryOff: nat, dataOff: nat, size: u32)

  function Ascii(s: string): (b: seq<byte>)
    ensures |b| == |s|
  {
    seq(|s|, i requires 0 <= i < |s| => s[i] as int % 0x100)
  }

  const CODE_PAGE_TAG: seq<byte> := Ascii("<activeCodePage")
  const UTF8_TAG: seq<byte> := Ascii(">UTF-8<")
  const ASM_TAG: seq<byte> := Ascii("urn:schemas-microsoft-com:asm.v1")

  // The manifest, cut at the tags that a later run recognises it by.
  const MANIFEST_HEAD: seq<byte> :=
    Ascii("<assembly xmlns=\"urn:schemas-microsoft-com:asm.v1\" manifestVersion=\"1.0\">"
          + "<application xmlns=\"urn:schemas-microsoft-com:asm.v3\"><windowsSettings>")
  const MANIFEST_MIDDLE: seq<byte> := Ascii(" xmlns=\"http://schemas.microsoft.com/SMI/2019/WindowsSettings\"")
  const MANIFEST_TAIL: seq<byte> := Ascii("/activeCodePage></windowsSettings></application></assembly>")

  function Utf8Manifest(): seq<byte> {
    MANIFEST_HEAD + CODE_PAGE_TAG + MANIFEST_MIDDLE + UTF8_TAG + MANIFEST_TAIL
  }

  // ----- pe.go -----

  predicate Contains(s: PeSection, rva: u32) {
    var size := if s.size > s.virtualSize then s.size else s.virtualSize;
    s.virtualAddress <= rva < Trunc32(s.virtualAddress + size)
  }

  // A section contains what its size in the file or its size in memory covers; the code adds in 32
  // bits, so a section that reaches the end of the address space contains nothing.
  lemma ContainsIff(s: PeSection, rva: u32)
    ensures Contains(s, rva) <==>
            && s.virtualAddress <= rva
            && (rva < s.virtualAddress + s.size || rva < s.virtualAddress + s.virtualSize)
            && s.virtualAddress + s.size < 0x1_0000_0000 && s.virtualAddress + s.virtualSize < 0x1_0000_0000
  {
  }

  // section: the first section that contains rva.
  function SectionOf(secs: seq<PeSection>, rva: u32): (r: Option<PeSection>)
    ensures r.Some? ==> r.value in secs && Contains(r.value, rva)
    ensures r.None? ==> forall s :: s in secs ==> !Contains(s, rva)
  {
    if secs == [] then None
    else if Contains(secs[0], rva) then Some(secs[0])
    else SectionOf(secs[1..], rva)
  }

  function FileOffset(secs: seq<PeSection>, rva: u32): Option<nat> {
    var s := SectionOf(secs, rva);
    if s.None? then None else Some(s.value.offset + (rva - s.value.virtualAddress))
  }

  // ----- findManifest -----

  predicate Matches(want: Option<u32>, id: u32) { want.None? || want.value == id }

  // The offset field of the first of entries i..n of the directory whose id is wanted.
  function FirstFrom(data: seq<byte>, dir: nat, want: Option<u32>, i: nat, n: nat): Option<u32>
    requires i <= n
    decreases n - i
  {
    var e := dir + 16 + 8 * i;
    if i == n || e + 4 > |data| then None
    else if !Matches(want, U32(data, e)) then FirstFrom(data, dir, want, i + 1, n)
    else if e + 8 > |data| then None
    else Some(U32(data, e + 4))
  }

  function FirstIn(data: seq<byte>, dir: nat, want: Option<u32>): Option<u32> {
    if dir + 16 > |data| then None
    else FirstFrom(data, dir, want, 0, U16(data, dir + 12) + U16(data, dir + 14))
  }

  method FindChild(data: seq<byte>, dir: nat, want: Option<u32>) returns (r: Option<u32>)
    ensures r == FirstIn(data, dir, want)
  {
    hide U16, U32;
    if dir + 14 > |data| || dir + 16 > |data| {
      return None;
    }
    var named: int, ids: int := U16(data, dir + 12), U16(data, dir + 14);
    for i := 0 to named + ids
      invariant FirstFrom(data, dir, want, i, named + ids) == FirstFrom(data, dir, want, 0, named + ids)
    {
      var e := dir + 16 + 8 * i;
      if e + 4 > |data| {
        return None;
      }
      if Matches(want, U32(data, e)) {
        return if e + 8 > |data| then None else Some(U32(data, e + 4));
      }
    }
    r := None;
  }

  // The position of the data entry: type 24, its first name, its first language.
  function ManifestEntry(data: seq<byte>, base: nat): Option<nat> {
    var typ := FirstIn(data, base, Some(RT_MANIFEST));
    if typ.None? || typ.value < HIGH_BIT then None
    else
      var name := FirstIn(data, base + ClearHigh(typ.value), None);
      if name.None? || name.value < HIGH_BIT then None
      else
        var lang := FirstIn(data, base + ClearHigh(name.value), None);
        if lang.None? || lang.value >= HIGH_BIT then None else Some(base + lang.value)
  }

  function ReadEntry(data: seq<byte>, secs: seq<PeSection>, entryOff: nat): Option<Located> {
    if entryOff + 8 > |data| then None
    else
      var size, dataOff := U32(data, entryOff + 4), FileOffset(secs, U32(data, entryOff));
      if dataOff.None? || dataOff.value + size > |data| then None
      else Some(Located(entryOff, dataOff.value, size))
  }

  function Locate(data: seq<byte>, secs: seq<PeSection>, rsrcRVA: u32): Option<Located> {
    var base := FileOffset(secs, rsrcRVA);
    if rsrcRVA == 0 || base.None? then None
    else
      var entry := ManifestEntry(data, base.value);
      if entry.None? then None else ReadEntry(data, secs, entry.value)
  }

  method FindManifest(data: seq<byte>, secs: seq<PeSection>, rsrcRVA: u32) returns (r: Result<Located>)
    ensures r.Ok? <==> Locate(data, secs, rsrcRVA).Some?
    ensures r.Ok? ==> r.value == Locate(data, secs, rsrcRVA).value
    ensures r.Ok? ==> rsrcRVA != 0 && r.value.entryOff + 8 <= |data| && r.value.dataOff + r.value.size <= |data|
  {
    hide FirstIn, SectionOf, U32;
    if rsrcRVA == 0 {
      return Err("no resource section");
    }
    var base := FileOffset(secs, rsrcRVA);
    if base.None? {
      return Err("RVA outside every section");
    }
    var typ := FindChild(data, base.value, Some(RT_MANIFEST));
    if typ.None? || typ.value < HIGH_BIT {
      return Err("no embedded manifest (RT_MANIFEST)");
    }
    var name := FindChild(data, base.value + ClearHigh(typ.value), None);
    if name.None? || name.value < HIGH_BIT {
      return Err("RT_MANIFEST without a name entry");
    }
    var lang := FindChild(data, base.value + ClearHigh(name.value), None);
    if lang.None? || lang.value >= HIGH_BIT {
      return Err("RT_MANIFEST without a language entry");
    }
    var entryOff := base.value + lang.value;
    if entryOff + 4 > |data| || entryOff + 8 > |data| {
      return Err("truncated resource");
    }
    var dataRVA, size := U32(data, entryOff), U32(data, entryOff + 4);
    var dataOff := FileOffset(secs, dataRVA);
    if dataOff.None? || dataOff.value + size > |data| {
      return Err("manifest data outside the file");
    }
    r := Ok(Located(entryOff, dataOff.value, size));
  }

  // ----- setUTF8Manifest -----

  ghost predicate Occurs(sub: seq<byte>, s: seq<byte>) {
    exists i :: HoldsBytes(s, i, sub)
  }

  method ContainsBytes(s: seq<byte>, sub: seq<byte>) returns (found: bool)
    ensures found <==> Occurs(sub, s)
  {
    var i := 0;
    while i + |sub| <= |s|
      invariant forall k :: 0 <= k < i ==> !HoldsBytes(s, k, sub)
    {
      if s[i..i + |sub|] == sub {
        assert HoldsBytes(s, i, sub);
        return true;
      }
      i := i + 1;
    }
    found := false;
  }

  // The manifest at loc.
  function Current(data: seq<byte>, loc: Located): seq<byte> {
    if loc.dataOff + loc.size <= |data| then data[loc.dataOff..loc.dataOff + loc.size] else []
  }

  // The manifest m declares UTF-8 as its code page, as far as the tool can tell.
  ghost predicate DeclaresUtf8(m: seq<byte>) { Occurs(CODE_PAGE_TAG, m) && Occurs(UTF8_TAG, m) }

  // The manifest that is found in the file declares UTF-8.
  ghost predicate Utf8File(data: seq<byte>, secs: seq<PeSection>, rsrcRVA: u32) {
    var loc := Locate(data, secs, rsrcRVA);
    loc.Some? && DeclaresUtf8(Current(data, loc.value))
  }

  // The file with the manifest at loc replaced: padded with zeros, its size field updated.
  ghost function Replaced(data: seq<byte>, loc: Located): seq<byte>
    requires loc.dataOff + loc.size <= |data| && loc.entryOff + 8 <= |data|
    requires |Utf8Manifest()| <= loc.size
  {
    var padded := Utf8Manifest() + Zeros(loc.size - |Utf8Manifest()|);
    Patch(Patch(data, loc.dataOff, padded), loc.entryOff + 4, Le32(|Utf8Manifest()|))
  }

  method SetUtf8Manifest(data: array<byte>, secs: seq<PeSection>, rsrcRVA: u32) returns (r: Result<bool>)
    modifies data
    ensures var loc := Locate(old(data[..]), secs, rsrcRVA);
            if loc.None? then r.Err? && data[..] == old(data[..])
            else
              var m := Current(old(data[..]), loc.value);
              && (r == Ok(false) <==> Occurs(Ascii("<activeCodePage"), m) && Occurs(Ascii(">UTF-8<"), m))
              && (r == Ok(true) <==>
                    && !Occurs(Ascii("<activeCodePage"), m)
                    && Occurs(Ascii("urn:schemas-microsoft-com:asm.v1"), m)
                    && |Utf8Manifest()| <= |m|)
              && data[..] == (if r == Ok(true) then Replaced(old(data[..]), loc.value) else old(data[..]))
              && (r == Ok(false) || (r == Ok(true) && Replaceable(old(data[..]), secs, rsrcRVA, loc.value))
                  ==> var again := Locate(data[..], secs, rsrcRVA);
                      && again.Some?
                      && Occurs(Ascii("<activeCodePage"), Current(data[..], again.value))
                      && Occurs(Ascii(">UTF-8<"), Current(data[..], again.value)))
  {
    hide Locate, Patch, Occurs, Le32, Utf8Manifest, Ascii, Replaceable, Replaced;
    LocatedInside(data[..], secs, rsrcRVA);
    var found := FindManifest(data[..], secs, rsrcRVA);
    if found.Err? {
      return Err(found.reason);
    }
    var Located(entryOff, dataOff, size) := found.value;
    var current := data[dataOff..dataOff + size];
    assert current == data[..][dataOff..dataOff + size];
    var declared := ContainsBytes(current, CODE_PAGE_TAG);
    if declared {
      var utf8 := ContainsBytes(current, UTF8_TAG);
      if utf8 {
        assert Utf8File(data[..], secs, rsrcRVA) by { DoneIsUtf8(data[..], secs, rsrcRVA); }
        return Ok(false);
      }
      return Err("another activeCodePage is declared");
    }
    var manifest := ContainsBytes(current, ASM_TAG);
    if !manifest {
      return Err("the RT_MANIFEST resource does not look like a manifest");
    }
    var text := Utf8Manifest();
    if |text| > size {
      return Err("the UTF-8 manifest does not fit");
    }
    CopyInto(data, dataOff, text);
    PatchNothing(data[..], dataOff + |text|);
    for i := dataOff + |text| to dataOff + size
      invariant data[..] == Patch(Patch(old(data[..]), dataOff, text), dataOff + |text|, Zeros(i - dataOff - |text|))
    {
      ZeroOne(Patch(old(data[..]), dataOff, text), dataOff + |text|, i - dataOff - |text|);
      PatchOne(data, i, 0);
    }
    PatchJoin(old(data[..]), dataOff, text, Zeros(size - |text|));
    Put32(data, entryOff + 4, |text|);
    IsReplaced(old(data[..]), data[..], found.value);
    if Replaceable(old(data[..]), secs, rsrcRVA, found.value) {
      PatchedIsUtf8(old(data[..]), secs, rsrcRVA, found.value);
    }
    r := Ok(true);
  }

  lemma DoneIsUtf8(data: seq<byte>, secs: seq<PeSection>, rsrcRVA: u32)
    requires Locate(data, secs, rsrcRVA).Some? && DeclaresUtf8(Current(data, Locate(data, secs, rsrcRVA).value))
    ensures Utf8File(data, secs, rsrcRVA)
  {
  }

  lemma IsReplaced(data: seq<byte>, t: seq<byte>, loc: Located)
    requires loc.dataOff + loc.size <= |data| && loc.entryOff + 8 <= |data| && |Utf8Manifest()| <= loc.size
    requires t == Patch(Patch(data, loc.dataOff, Utf8Manifest() + Zeros(loc.size - |Utf8Manifest()|)),
                        loc.entryOff + 4, Le32(|Utf8Manifest()|))
    ensures t == Replaced(data, loc)
  {
  }

  // A sequence of bytes occurs in another exactly when it is a stretch of it.
  lemma OccursIff(sub: seq<byte>, s: seq<byte>)
    ensures Occurs(sub, s) <==> exists a, c :: s == a + sub + c
  {
    if Occurs(sub, s) {
      var i :| HoldsBytes(s, i, sub);
      assert s == s[..i] + sub + s[i + |sub|..];
    }
    if exists a, c :: s == a + sub + c {
      var a, c :| s == a + sub + c;
      assert HoldsBytes(s, |a|, sub);
    }
  }

  method PatchOne(data: array<byte>, at: nat, v: byte)
    requires at < data.Length
    modifies data
    ensures data[..] == Patch(old(data[..]), at, [v])
  {
    data[at] := v;
  }

  lemma PatchNothing(s: seq<byte>, at: nat)
    requires at <= |s|
    ensures Patch(s, at, Zeros(0)) == s
  {
  }

  lemma ZeroOne(s: seq<byte>, at: nat, n: nat)
    requires at + n < |s|
    ensures Patch(Patch(s, at, Zeros(n)), at + n, [0]) == Patch(s, at, Zeros(n + 1))
  {
    hide Patch;
    assert Zeros(n + 1) == Zeros(n) + [0];
    PatchJoin(s, at, Zeros(n), [0]);
  }

  lemma LocatedInside(data: seq<byte>, secs: seq<PeSection>, rsrcRVA: u32)
    ensures var loc := Locate(data, secs, rsrcRVA);
            loc.Some? ==> loc.value.dataOff + loc.value.size <= |data| && loc.value.entryOff + 8 <= |data|
  {
    hide ManifestEntry, FileOffset, U32;
  }

  // ----- what the patch does to a well-formed file -----

  // The first entry of a directory with a wanted id.
  function FirstEntry(es: seq<Entry>, want: Option<u32>): Option<u32> {
    if es == [] then None
    else if Matches(want, es[0].id) then Some(es[0].off)
    else FirstEntry(es[1..], want)
  }

  ghost predicate Apart(a: int, n: int, b: int, m: int) {
    a + n <= b || b + m <= a
  }

  // The way to the manifest in a well-formed file: three whole directories, a data entry and the
  // data, where neither the entry nor the data overlaps a directory or the other.
  datatype Path = Path(root: nat, types: seq<Entry>, name: nat, names: seq<Entry>, lang: nat, langs: seq<Entry>,
                       entry: nat, dataOff: nat, size: u32)

  ghost predicate Reads(data: seq<byte>, dir: nat, es: seq<Entry>, want: Option<u32>, off: u32) {
    Entries(data, dir) == Some(es) && FirstEntry(es, want) == Some(off)
  }

  ghost predicate OnPath(data: seq<byte>, secs: seq<PeSection>, rsrcRVA: u32, p: Path) {
    && rsrcRVA != 0 && FileOffset(secs, rsrcRVA) == Some(p.root)
    && (exists t: u32 ::
        t >= HIGH_BIT && Reads(data, p.root, p.types, Some(24), t)
        && p.name == p.root + ClearHigh(t))
    && (exists n: u32 :: n >= HIGH_BIT && Reads(data, p.name, p.names, None, n) && p.lang == p.root + ClearHigh(n))
    && (exists l: u32 :: l < HIGH_BIT && Reads(data, p.lang, p.langs, None, l) && p.entry == p.root + l)
    && p.entry + 8 <= |data| && p.dataOff + p.size <= |data|
    && FileOffset(secs, U32(data, p.entry)) == Some(p.dataOff) && U32(data, p.entry + 4) == p.size
  }

  ghost predicate Separate(p: Path) {
    && Apart(p.entry, 8, p.dataOff, p.size)
    && Apart(p.entry, 8, p.root, 16 + 8 * |p.types|) && Apart(p.dataOff, p.size, p.root, 16 + 8 * |p.types|)
    && Apart(p.entry, 8, p.name, 16 + 8 * |p.names|) && Apart(p.dataOff, p.size, p.name, 16 + 8 * |p.names|)
    && Apart(p.entry, 8, p.lang, 16 + 8 * |p.langs|) && Apart(p.dataOff, p.size, p.lang, 16 + 8 * |p.langs|)
  }

  lemma {:induction false} FirstFromRead(data: seq<byte>, dir: nat, es: seq<Entry>, want: Option<u32>, i: nat)
    requires Entries(data, dir) == Some(es) && i <= |es|
    ensures FirstFrom(data, dir, want, i, |es|) == FirstEntry(es[i..], want)
    decreases |es| - i
  {
    hide U32, U16;
    if i < |es| {
      FirstFromRead(data, dir, es, want, i + 1);
      assert es[i] == EntryOf(data, dir, i);
      assert es[i..][1..] == es[i + 1..];
    }
  }

  lemma FirstInRead(data: seq<byte>, dir: nat, es: seq<Entry>, want: Option<u32>, off: u32)
    requires Reads(data, dir, es, want, off)
    ensures FirstIn(data, dir, want) == Some(off)
  {
    hide U32, U16;
    FirstFromRead(data, dir, es, want, 0);
    assert es[0..] == es;
  }

  // The code finds the manifest of a well-formed file.
  lemma PathLocated(data: seq<byte>, secs: seq<PeSection>, rsrcRVA: u32, p: Path)
    requires OnPath(data, secs, rsrcRVA, p)
    ensures Locate(data, secs, rsrcRVA) == Some(Located(p.entry, p.dataOff, p.size))
  {
    hide FirstIn, FileOffset, Reads, U32, ClearHigh;
    var t: u32 :| t >= HIGH_BIT && Reads(data, p.root, p.types, Some(RT_MANIFEST), t)
      && p.name == p.root + ClearHigh(t);
    FirstInRead(data, p.root, p.types, Some(RT_MANIFEST), t);
    var n: u32 :| n >= HIGH_BIT && Reads(data, p.name, p.names, None, n) && p.lang == p.root + ClearHigh(n);
    FirstInRead(data, p.name, p.names, None, n);
    var l: u32 :| l < HIGH_BIT && Reads(data, p.lang, p.langs, None, l) && p.entry == p.root + l;
    FirstInRead(data, p.lang, p.langs, None, l);
  }

  lemma EntriesSame(data: seq<byte>, data': seq<byte>, dir: nat, es: seq<Entry>)
    requires Entries(data, dir) == Some(es) && |data'| == |data|
    requires forall q :: dir <= q < dir + 16 + 8 * |es| && q < |data| ==> data'[q] == data[q]
    ensures Entries(data', dir) == Some(es)
  {
    assert U16(data', dir + 12) == U16(data, dir + 12) && U16(data', dir + 14) == U16(data, dir + 14);
    var n := |es|;
    forall i | 0 <= i < n ensures EntryOf(data', dir, i) == es[i] {
      assert EntryOf(data, dir, i) == es[i];
    }
    assert seq(n, i requires 0 <= i < n => EntryOf(data', dir, i)) == es;
  }

  // The manifest written is the one a later run recognises.
  lemma ManifestRecognised()
    ensures DeclaresUtf8(Utf8Manifest())
  {
    hide Ascii;
    var a, b, c, d, e := MANIFEST_HEAD, CODE_PAGE_TAG, MANIFEST_MIDDLE, UTF8_TAG, MANIFEST_TAIL;
    var s := Utf8Manifest();
    WholeHeld(s);
    HoldsSplit(s, 0, a + b + c + d, e);
    HoldsSplit(s, 0, a + b + c, d);
    HoldsSplit(s, 0, a + b, c);
    HoldsSplit(s, 0, a, b);
  }

  // The manifest and its size field.
  ghost predicate Touched(loc: Located, q: int) {
    loc.dataOff <= q < loc.dataOff + loc.size || loc.entryOff + 4 <= q < loc.entryOff + 8
  }

  // Replacing keeps every byte outside the manifest and its size field, and writes both; the size
  // field is written last, so the manifest is whole as long as the field does not lie in it.
  lemma ReplacedBytes(data: seq<byte>, loc: Located)
    requires loc.dataOff + loc.size <= |data| && loc.entryOff + 8 <= |data| && |Utf8Manifest()| <= loc.size
    ensures var t := Replaced(data, loc);
            && |t| == |data|
            && Holds32(t, loc.entryOff + 4, |Utf8Manifest()|)
            && (Apart(loc.entryOff + 4, 4, loc.dataOff, |Utf8Manifest()|)
                ==> HoldsBytes(t, loc.dataOff, Utf8Manifest()))
            && (forall q ::
                  loc.dataOff + |Utf8Manifest()| <= q < loc.dataOff + loc.size
                  && !(loc.entryOff + 4 <= q < loc.entryOff + 8)
                  ==> t[q] == 0)
            && forall q :: 0 <= q < |data| && !Touched(loc, q) ==> t[q] == data[q]
  {
    hide Utf8Manifest, Patch, Holds32, Le32, HoldsBytes, Zeros;
    var text := Utf8Manifest();
    var padded := text + Zeros(loc.size - |text|);
    var u := Patch(data, loc.dataOff, padded);
    PatchHolds(data, loc.dataOff, padded);
    HoldsSplit(u, loc.dataOff, text, Zeros(loc.size - |text|));
    ZerosHeld(u, loc.dataOff + |text|, loc.size - |text|);
    var size := Le32(|text|);
    PatchHolds(u, loc.entryOff + 4, size);
    if Apart(loc.entryOff + 4, 4, loc.dataOff, |text|) {
      PatchKeeps(u, loc.entryOff + 4, size, loc.dataOff, text);
    }
    HeldFields(Replaced(data, loc), loc.entryOff + 4, |text|);
  }

  lemma ZerosHeld(s: seq<byte>, at: nat, n: nat)
    requires HoldsBytes(s, at, Zeros(n))
    ensures at + n <= |s| && forall q :: at <= q < at + n ==> s[q] == 0
  {
    forall q | at <= q < at + n ensures s[q] == 0 {
      assert s[at..at + n][q - at] == 0;
    }
  }

  lemma ReadsSame(data: seq<byte>, data': seq<byte>, dir: nat, es: seq<Entry>, want: Option<u32>, off: u32)
    requires Reads(data, dir, es, want, off) && |data'| == |data|
    requires forall q :: dir <= q < dir + 16 + 8 * |es| && q < |data| ==> data'[q] == data[q]
    ensures Reads(data', dir, es, want, off)
  {
    hide Entries;
    EntriesSame(data, data', dir, es);
  }

  // A well-formed file whose manifest has room for the new one, the file after the patch, and the
  // way to the manifest in it.
  ghost predicate Patchable(data: seq<byte>, secs: seq<PeSection>, rsrcRVA: u32, p: Path) {
    OnPath(data, secs, rsrcRVA, p) && Separate(p) && |Utf8Manifest()| <= p.size
  }

  ghost function PatchedFile(data: seq<byte>, secs: seq<PeSection>, rsrcRVA: u32, p: Path): seq<byte>
    requires Patchable(data, secs, rsrcRVA, p)
  {
    Replaced(data, Located(p.entry, p.dataOff, p.size))
  }

  ghost function ShorterPath(data: seq<byte>, secs: seq<PeSection>, rsrcRVA: u32, p: Path): Path
    requires Patchable(data, secs, rsrcRVA, p)
  {
    p.(size := |Utf8Manifest()|)
  }

  // After the patch the file is well formed again, with the new manifest.
  lemma PatchedPath(data: seq<byte>, secs: seq<PeSection>, rsrcRVA: u32, p: Path)
    requires Patchable(data, secs, rsrcRVA, p)
    ensures var t, q := PatchedFile(data, secs, rsrcRVA, p), ShorterPath(data, secs, rsrcRVA, p);
            && OnPath(t, secs, rsrcRVA, q) && Separate(q)
            && Current(t, Located(q.entry, q.dataOff, q.size)) == Utf8Manifest()
  {
    hide Utf8Manifest, FileOffset, Reads, ClearHigh, Replaced, Holds32, U32, HoldsBytes, Le32;
    var loc := Located(p.entry, p.dataOff, p.size);
    var t := Replaced(data, loc);
    ReplacedBytes(data, loc);
    var a: u32 :| a >= HIGH_BIT && Reads(data, p.root, p.types, Some(RT_MANIFEST), a)
      && p.name == p.root + ClearHigh(a);
    ReadsSame(data, t, p.root, p.types, Some(RT_MANIFEST), a);
    var n: u32 :| n >= HIGH_BIT && Reads(data, p.name, p.names, None, n) && p.lang == p.root + ClearHigh(n);
    ReadsSame(data, t, p.name, p.names, None, n);
    var l: u32 :| l < HIGH_BIT && Reads(data, p.lang, p.langs, None, l) && p.entry == p.root + l;
    ReadsSame(data, t, p.lang, p.langs, None, l);
    FieldSame(data, t, p.entry);
    FieldIs(t, p.entry + 4, |Utf8Manifest()|);
    SliceHeld(t, p.dataOff, Utf8Manifest());
  }

  lemma FieldSame(data: seq<byte>, data': seq<byte>, at: nat)
    requires at + 4 <= |data| == |data'|
    requires forall q :: at <= q < at + 4 ==> data'[q] == data[q]
    ensures U32(data', at) == U32(data, at)
  {
  }

  // ----- a second run -----

  // The entry at which the search for a wanted id stops, and where it has read up to.
  ghost function StopFrom(data: seq<byte>, dir: nat, want: Option<u32>, i: nat, n: nat): nat
    requires i <= n
    decreases n - i
  {
    var e := dir + 16 + 8 * i;
    if i == n || e + 4 > |data| || Matches(want, U32(data, e)) then i else StopFrom(data, dir, want, i + 1, n)
  }

  ghost function ScanEnd(data: seq<byte>, dir: nat, want: Option<u32>): nat {
    if dir + 16 > |data| then dir + 16
    else dir + 24 + 8 * StopFrom(data, dir, want, 0, U16(data, dir + 12) + U16(data, dir + 14))
  }

  lemma {:induction false} StopLater(data: seq<byte>, dir: nat, want: Option<u32>, i: nat, n: nat)
    requires i <= n
    ensures i <= StopFrom(data, dir, want, i, n)
    decreases n - i
  {
    hide U32;
    var e := dir + 16 + 8 * i;
    if i < n && e + 4 <= |data| && !Matches(want, U32(data, e)) {
      StopLater(data, dir, want, i + 1, n);
    }
  }

  lemma {:induction false} FirstFromSame(data: seq<byte>, t: seq<byte>, dir: nat, want: Option<u32>, i: nat, n: nat)
    requires i <= n && |t| == |data|
    requires forall q ::
        dir + 16 <= q < dir + 24 + 8 * StopFrom(data, dir, want, i, n) && q < |data|
        ==> t[q] == data[q]
    ensures FirstFrom(t, dir, want, i, n) == FirstFrom(data, dir, want, i, n)
    decreases n - i
  {
    hide U32;
    StopLater(data, dir, want, i, n);
    var e := dir + 16 + 8 * i;
    if i < n && e + 4 <= |data| {
      FieldSame(data, t, e);
      if !Matches(want, U32(data, e)) {
        FirstFromSame(data, t, dir, want, i + 1, n);
      } else if e + 8 <= |data| {
        FieldSame(data, t, e + 4);
      }
    }
  }

  // A search that finds nothing changed in what it reads gives the same answer.
  lemma FirstInSame(data: seq<byte>, t: seq<byte>, dir: nat, want: Option<u32>)
    requires |t| == |data|
    requires forall q :: dir + 12 <= q < ScanEnd(data, dir, want) && q < |data| ==> t[q] == data[q]
    ensures FirstIn(t, dir, want) == FirstIn(data, dir, want)
  {
    hide FirstFrom;
    if dir + 16 <= |data| {
      var n := U16(data, dir + 12) + U16(data, dir + 14);
      StopLater(data, dir, want, 0, n);
      assert U16(t, dir + 12) == U16(data, dir + 12) && U16(t, dir + 14) == U16(data, dir + 14);
      FirstFromSame(data, t, dir, want, 0, n);
    }
  }

  // The directories on the way to the manifest.
  ghost function NameDir(data: seq<byte>, base: nat): nat
    requires ManifestEntry(data, base).Some?
  {
    base + ClearHigh(FirstIn(data, base, Some(RT_MANIFEST)).value)
  }

  ghost function LangDir(data: seq<byte>, base: nat): nat
    requires ManifestEntry(data, base).Some?
  {
    base + ClearHigh(FirstIn(data, NameDir(data, base), None).value)
  }

  // Position q is read on the way to the manifest: in one of the three directories, up to the
  // entry taken, or in the address of the data.
  ghost predicate LooksAt(data: seq<byte>, base: nat, entry: nat, q: int)
    requires ManifestEntry(data, base).Some?
  {
    || base + 12 <= q < ScanEnd(data, base, Some(RT_MANIFEST))
    || NameDir(data, base) + 12 <= q < ScanEnd(data, NameDir(data, base), None)
    || LangDir(data, base) + 12 <= q < ScanEnd(data, LangDir(data, base), None)
    || entry <= q < entry + 4
  }

  // A file in which the manifest is found, may be replaced, and neither lies in what is read on
  // the way to it nor in its own size field.
  ghost predicate Replaceable(data: seq<byte>, secs: seq<PeSection>, rsrcRVA: u32, loc: Located) {
    && Locate(data, secs, rsrcRVA) == Some(loc) && |Utf8Manifest()| <= loc.size
    && Apart(loc.entryOff + 4, 4, loc.dataOff, |Utf8Manifest()|)
    && forall q ::
      0 <= q < |data| && Touched(loc, q)
      ==> !LooksAt(data, FileOffset(secs, rsrcRVA).value, loc.entryOff, q)
  }

  lemma EntrySame(data: seq<byte>, t: seq<byte>, base: nat)
    requires |t| == |data| && ManifestEntry(data, base).Some?
    requires forall q :: 0 <= q < |data| && LooksAt(data, base, ManifestEntry(data, base).value, q) ==> t[q] == data[q]
    ensures ManifestEntry(t, base) == ManifestEntry(data, base)
  {
    hide FirstIn, ScanEnd, ClearHigh;
    FirstInSame(data, t, base, Some(RT_MANIFEST));
    FirstInSame(data, t, NameDir(data, base), None);
    FirstInSame(data, t, LangDir(data, base), None);
  }

  lemma ReadsSize(data: seq<byte>, t: seq<byte>, secs: seq<PeSection>, entry: nat, n: u32)
    requires |t| == |data| && ReadEntry(data, secs, entry).Some? && n <= ReadEntry(data, secs, entry).value.size
    requires forall q :: entry <= q < entry + 4 ==> t[q] == data[q]
    requires Holds32(t, entry + 4, n)
    ensures ReadEntry(t, secs, entry) == Some(Located(entry, ReadEntry(data, secs, entry).value.dataOff, n))
  {
    hide FileOffset, U32;
    FieldSame(data, t, entry);
  }

  // The patched file has the manifest at the same place, whole and with its new size.
  lemma PatchedFound(data: seq<byte>, secs: seq<PeSection>, rsrcRVA: u32, loc: Located)
    requires Replaceable(data, secs, rsrcRVA, loc)
    ensures loc.dataOff + loc.size <= |data| && loc.entryOff + 8 <= |data|
    ensures var t, again := Replaced(data, loc), loc.(size := |Utf8Manifest()|);
            Locate(t, secs, rsrcRVA) == Some(again) && Current(t, again) == Utf8Manifest()
  {
    hide Utf8Manifest, FileOffset, ManifestEntry, ReadEntry, Replaced, Holds32, HoldsBytes, LooksAt;
    LocatedInside(data, secs, rsrcRVA);
    var t := Replaced(data, loc);
    ReplacedBytes(data, loc);
    var base := FileOffset(secs, rsrcRVA).value;
    LocatedEntry(data, secs, rsrcRVA, loc);
    EntrySame(data, t, base);
    LooksAtEntry(data, base, loc.entryOff);
    ReadsSize(data, t, secs, loc.entryOff, |Utf8Manifest()|);
    SliceHeld(t, loc.dataOff, Utf8Manifest());
  }

  lemma LocatedEntry(data: seq<byte>, secs: seq<PeSection>, rsrcRVA: u32, loc: Located)
    requires Locate(data, secs, rsrcRVA) == Some(loc)
    ensures rsrcRVA != 0 && FileOffset(secs, rsrcRVA).Some?
    ensures ManifestEntry(data, FileOffset(secs, rsrcRVA).value) == Some(loc.entryOff)
    ensures ReadEntry(data, secs, loc.entryOff) == Some(loc)
  {
    hide FileOffset, ManifestEntry;
  }

  lemma LooksAtEntry(data: seq<byte>, base: nat, entry: nat)
    requires ManifestEntry(data, base).Some?
    ensures forall q :: entry <= q < entry + 4 ==> LooksAt(data, base, entry, q)
  {
    hide ManifestEntry, ScanEnd, NameDir, LangDir;
  }

  // A patched file declares UTF-8, so running the tool again on it changes nothing.
  lemma PatchedIsUtf8(data: seq<byte>, secs: seq<PeSection>, rsrcRVA: u32, loc: Located)
    requires Replaceable(data, secs, rsrcRVA, loc)
    ensures loc.dataOff + loc.size <= |data| && loc.entryOff + 8 <= |data|
    ensures Utf8File(Replaced(data, loc), secs, rsrcRVA)
  {
    hide Utf8Manifest, Locate, DeclaresUtf8, Replaced, Current, LooksAt;
    PatchedFound(data, secs, rsrcRVA, loc);
    ManifestRecognised();
  }

  // Well-formed files whose parts do not overlap are such files.
  lemma PatchableReplaceable(data: seq<byte>, secs: seq<PeSection>, rsrcRVA: u32, p: Path)
    requires Patchable(data, secs, rsrcRVA, p)
    ensures Replaceable(data, secs, rsrcRVA, Located(p.entry, p.dataOff, p.size))
  {
    hide Utf8Manifest, FileOffset, Reads, ClearHigh, Locate, U32;
    var loc := Located(p.entry, p.dataOff, p.size);
    PathLocated(data, secs, rsrcRVA, p);
    LocatedEntry(data, secs, rsrcRVA, loc);
    PathScans(data, secs, rsrcRVA, p);
  }

  lemma {:induction false} StopInside(data: seq<byte>, dir: nat, es: seq<Entry>, want: Option<u32>, i: nat)
    requires Entries(data, dir) == Some(es) && i <= |es| && FirstEntry(es[i..], want).Some?
    ensures StopFrom(data, dir, want, i, |es|) < |es|
    decreases |es| - i
  {
    hide U32, U16;
    if i < |es| {
      assert es[i] == EntryOf(data, dir, i);
      assert es[i..][1..] == es[i + 1..];
      if !Matches(want, es[i].id) {
        StopInside(data, dir, es, want, i + 1);
      }
    }
  }

  lemma ScanInside(data: seq<byte>, dir: nat, es: seq<Entry>, want: Option<u32>, off: u32)
    requires Reads(data, dir, es, want, off)
    ensures FirstIn(data, dir, want) == Some(off) && ScanEnd(data, dir, want) <= dir + 16 + 8 * |es|
  {
    hide U32;
    FirstInRead(data, dir, es, want, off);
    assert es[0..] == es;
    StopInside(data, dir, es, want, 0);
  }

  // The searches on a path stay within its directories.
  lemma PathScans(data: seq<byte>, secs: seq<PeSection>, rsrcRVA: u32, p: Path)
    requires OnPath(data, secs, rsrcRVA, p)
    ensures ManifestEntry(data, p.root) == Some(p.entry)
    ensures NameDir(data, p.root) == p.name && LangDir(data, p.root) == p.lang
    ensures ScanEnd(data, p.root, Some(RT_MANIFEST)) <= p.root + 16 + 8 * |p.types|
    ensures ScanEnd(data, p.name, None) <= p.name + 16 + 8 * |p.names|
    ensures ScanEnd(data, p.lang, None) <= p.lang + 16 + 8 * |p.langs|
  {
    hide FirstIn, FileOffset, Reads, U32, ClearHigh, ScanEnd;
    var t: u32 :| t >= HIGH_BIT && Reads(data, p.root, p.types, Some(RT_MANIFEST), t)
      && p.name == p.root + ClearHigh(t);
    ScanInside(data, p.root, p.types, Some(RT_MANIFEST), t);
    var n: u32 :| n >= HIGH_BIT && Reads(data, p.name, p.names, None, n) && p.lang == p.root + ClearHigh(n);
    ScanInside(data, p.name, p.names, None, n);
    var l: u32 :| l < HIGH_BIT && Reads(data, p.lang, p.langs, None, l) && p.entry == p.root + l;
    ScanInside(data, p.lang, p.langs, None, l);
  }

  // ----- a linked object -----

  // data is an executable whose resource section, at file position pre and address rva, is what
  // the linker makes of a section laid out by buildRsrc; sec is its row of the section table.
  ghost predicate Linked(data: seq<byte>, secs: seq<PeSection>, sec: PeSection, p: Plan, s: seq<byte>) {
    && p.Valid() && p.LaidOut(s, 0) && Fits(p, sec.virtualAddress) && sec.virtualAddress != 0
    && HoldsBytes(data, sec.offset, Coff.Relocate(s, Relocs(|p.gs|, |p.sorted|, |p.sorted|), sec.virtualAddress))
    && (forall q: u32 :: sec.virtualAddress <= q < sec.virtualAddress + p.Total() ==> SectionOf(secs, q) == Some(sec))
  }

  ghost function PathOf(p: Plan, sec: PeSection, g: nat): Path
    requires p.Valid() && Fits(p, 0) && g < |p.gs|
  {
    PlacedAt(p.sorted, p.gs, g, 0);
    var j := First(p.gs, g);
    var blob := p.Blob(j);
    Path(sec.offset, RootEntries(p), sec.offset + TypeDir(p.gs, g), NameEntries(p, g),
         sec.offset + LangAt(|p.gs|, |p.sorted|, j), LangEntries(p, j),
         sec.offset + EntryAt(|p.gs|, |p.sorted|, j), sec.offset + blob,
         assert p.Blob(j) + |p.sorted[j].data| <= p.Total() by { p.InBounds(Blob(j)); }
         |p.sorted[j].data|)
  }

  lemma {:induction false} FirstEntryAt(es: seq<Entry>, want: Option<u32>, k: nat)
    requires k < |es| && Matches(want, es[k].id)
    requires forall i :: 0 <= i < k ==> !Matches(want, es[i].id)
    ensures FirstEntry(es, want) == Some(es[k].off)
  {
    if k > 0 {
      FirstEntryAt(es[1..], want, k - 1);
    }
  }

  lemma LinkedTree(data: seq<byte>, secs: seq<PeSection>, sec: PeSection, p: Plan, s: seq<byte>)
    requires Linked(data, secs, sec, p, s)
    ensures Fits(p, 0) && Tree(data, sec.offset, p, sec.virtualAddress)
  {
    hide Plan.LaidOut, Grouped, Tree, Coff.Relocate, SectionOf, HoldsBytes, Plan.Total;
    FitsZero(p, sec.virtualAddress);
    var t := Coff.Relocate(s, Relocs(|p.gs|, |p.sorted|, |p.sorted|), sec.virtualAddress);
    Coff.LinkedLaidOut(p, s, sec.virtualAddress);
    TreeHeld(data, sec.offset, t, p, sec.virtualAddress);
  }

  lemma LinkedOffset(data: seq<byte>, secs: seq<PeSection>, sec: PeSection, p: Plan, s: seq<byte>, b: nat)
    requires Linked(data, secs, sec, p, s) && b < p.Total()
    ensures sec.virtualAddress != 0 && sec.virtualAddress + b < 0x1_0000_0000
    ensures FileOffset(secs, sec.virtualAddress + b) == Some(sec.offset + b)
  {
    hide Plan.LaidOut, Grouped, Coff.Relocate, SectionOf, HoldsBytes, Plan.Total;
    var q: u32 := sec.virtualAddress + b;
    assert SectionOf(secs, q) == Some(sec);
  }

  lemma PathSeparate(p: Plan, sec: PeSection, g: nat)
    requires p.Valid() && Fits(p, 0) && g < |p.gs|
    ensures Separate(PathOf(p, sec, g))
  {
    hide Grouped, Fits, TypeDir, First, LangAt, EntryAt, DataStart, BlobAt, RootEntries, NameEntries, LangEntries;
    var j := First(p.gs, g);
    var q := PathOf(p, sec, g);
    PathParts(p, sec, g);
    p.Disjoint(DataEntry(j), Blob(j));
    DirsApart(p, g, DataEntry(j));
    DirsApart(p, g, Blob(j));
  }

  // A data entry or blob overlaps none of the three directories on the way to it.
  lemma DirsApart(p: Plan, g: nat, o: Slot)
    requires p.Valid() && g < |p.gs| && First(p.gs, g) < |p.sorted| && p.Has(o) && (o.DataEntry? || o.Blob?)
    ensures 16 + 8 * |p.gs| <= p.Start(o)
    ensures TypeDir(p.gs, g) + 16 + 8 * |p.gs[g].list| <= p.Start(o)
    ensures LangAt(|p.gs|, |p.sorted|, First(p.gs, g)) + 24 <= p.Start(o)
  {
    hide Grouped, BlobAt;
    p.BetweenEdges(o);
    p.EdgeMono(4, p.Rank(o));
    FirstMono(p.gs, g, |p.gs|);
    GroupedSize(p);
  }

  lemma GroupedSize(p: Plan)
    requires p.Valid()
    ensures First(p.gs, |p.gs|) == |p.sorted|
  {
  }

  lemma PathParts(p: Plan, sec: PeSection, g: nat)
    requires p.Valid() && Fits(p, 0) && g < |p.gs|
    ensures var j, q := First(p.gs, g), PathOf(p, sec, g);
            && j < |p.sorted| && p.Has(DataEntry(j)) && p.Has(Blob(j)) && p.sorted[j] == p.gs[g].list[0]
            && q.entry == sec.offset + p.Start(DataEntry(j)) && p.Size(DataEntry(j)) == 16
            && q.dataOff == sec.offset + p.Start(Blob(j)) && p.Size(Blob(j)) == q.size == |p.sorted[j].data|
            && p.Start(Blob(j)) == p.Blob(j)
            && q.root == sec.offset && |q.types| == |p.gs|
            && q.name == sec.offset + TypeDir(p.gs, g) && |q.names| == |p.gs[g].list|
            && q.lang == sec.offset + LangAt(|p.gs|, |p.sorted|, j) && |q.langs| == 1
  {
    hide Fits, RootEntries, NameEntries, LangEntries, First, TypeDir, BlobAt;
    PlacedAt(p.sorted, p.gs, g, 0);
  }

  // In a linked executable the tool finds the first manifest: the data entry and the bytes that
  // the resource compiler wrote, at their places in the file.
  lemma LinkedOnPath(data: seq<byte>, secs: seq<PeSection>, sec: PeSection, p: Plan, s: seq<byte>, g: nat)
    requires Linked(data, secs, sec, p, s) && g < |p.gs| && p.gs[g].typ == 24
    requires p.Valid() && Fits(p, 0) && First(p.gs, g) < |p.sorted| && p.Blob(First(p.gs, g)) < p.Total()
    ensures var q := PathOf(p, sec, g);
            && OnPath(data, secs, sec.virtualAddress, q) && Separate(q)
            && data[q.dataOff..q.dataOff + q.size] == p.gs[g].list[0].data
  {
    hide Grouped, Fits, Tree, RootEntries, NameEntries, LangEntries, TypeDir, BlobAt, Coff.Relocate, SectionOf,
      FileOffset,
      DirAt, ClearHigh, Entries, Separate, LangAt, EntryAt, U32, Plan.LaidOut, First, PathOf, Reads, Linked, LeafAt;
    var j, q := First(p.gs, g), PathOf(p, sec, g);
    PathParts(p, sec, g);
    PathSeparate(p, sec, g);
    LinkedTree(data, secs, sec, p, s);
    TreeParts(data, sec.offset, p, sec.virtualAddress);
    RootReads(data, sec.offset, p, g);
    NamesReads(data, sec.offset, p, g);
    LangReads(data, sec.offset, p, sec.virtualAddress, j);
    PathFields(p, sec, g);
    LeafFields(data, sec.offset, p, sec.virtualAddress, j);
    LinkedOffset(data, secs, sec, p, s, 0);
    LinkedOffset(data, secs, sec, p, s, p.Blob(j));
    OnPathIntro(data, secs, sec.virtualAddress, q, q.types[g].off, q.names[0].off, q.langs[0].off);
  }

  lemma OnPathIntro(data: seq<byte>, secs: seq<PeSection>, rsrcRVA: u32, p: Path, t: u32, n: u32, l: u32)
    requires rsrcRVA != 0 && FileOffset(secs, rsrcRVA) == Some(p.root)
    requires t >= HIGH_BIT && Reads(data, p.root, p.types, Some(RT_MANIFEST), t) && p.name == p.root + ClearHigh(t)
    requires n >= HIGH_BIT && Reads(data, p.name, p.names, None, n) && p.lang == p.root + ClearHigh(n)
    requires l < HIGH_BIT && Reads(data, p.lang, p.langs, None, l) && p.entry == p.root + l
    requires p.entry + 8 <= |data| && p.dataOff + p.size <= |data|
    requires FileOffset(secs, U32(data, p.entry)) == Some(p.dataOff) && U32(data, p.entry + 4) == p.size
    ensures OnPath(data, secs, rsrcRVA, p)
  {
    hide FileOffset, Reads, ClearHigh, U32;
  }

  lemma PathFields(p: Plan, sec: PeSection, g: nat)
    requires p.Valid() && Fits(p, 0) && g < |p.gs|
    ensures var j, q := First(p.gs, g), PathOf(p, sec, g);
            && q.types == RootEntries(p) && q.names == NameEntries(p, g)
            && j < |p.sorted| && q.langs == LangEntries(p, j) && q.entry == sec.offset + EntryAt(|p.gs|, |p.sorted|, j)
  {
    hide Fits, RootEntries, NameEntries, LangEntries, First, TypeDir, BlobAt;
    PlacedAt(p.sorted, p.gs, g, 0);
  }

  lemma LeafFields(data: seq<byte>, pre: nat, p: Plan, rva: nat, j: nat)
    requires Fits(p, 0) && j < |p.sorted| && LeafAt(data, pre, p, rva, j)
    ensures var entry := pre + EntryAt(|p.gs|, |p.sorted|, j);
            && entry + 8 <= |data| && U32(data, entry) == rva + p.Blob(j) && U32(data, entry + 4) == |p.sorted[j].data|
    ensures var at := pre + p.Blob(j);
            at + |p.sorted[j].data| <= |data| && data[at..at + |p.sorted[j].data|] == p.sorted[j].data
  {
    hide U32, DirAt, Fits;
  }

  lemma RootReads(data: seq<byte>, root: nat, p: Plan, g: nat)
    requires p.Valid() && Fits(p, 0) && g < |p.gs| && p.gs[g].typ == RT_MANIFEST && DirAt(data, root, RootEntries(p))
    ensures var t := RootEntries(p)[g].off;
            t >= HIGH_BIT && Reads(data, root, RootEntries(p), Some(RT_MANIFEST), t) && ClearHigh(t) == TypeDir(p.gs, g)
  {
    hide RootEntries, DirAt, Entries, Fits, Grouped, TypeDir, ClearHigh, FirstEntry;
    var es := RootEntries(p);
    EntriesRead(data, root, es);
    RootEntryIs(p, g);
    forall i | 0 <= i < g ensures !Matches(Some(RT_MANIFEST), es[i].id) {
      RootEntryIs(p, i);
      Ascending(p, i, g);
    }
    FirstEntryAt(es, Some(RT_MANIFEST), g);
    assert Reads(data, root, es, Some(RT_MANIFEST), es[g].off);
  }

  lemma Ascending(p: Plan, g: nat, h: nat)
    requires p.Valid() && g < h < |p.gs|
    ensures p.gs[g].typ < p.gs[h].typ
  {
    hide First;
  }

  lemma NamesReads(data: seq<byte>, root: nat, p: Plan, g: nat)
    requires p.Valid() && Fits(p, 0) && g < |p.gs| && DirAt(data, root + TypeDir(p.gs, g), NameEntries(p, g))
    ensures NameEntries(p, g) != []
    ensures var n := NameEntries(p, g)[0].off;
            && n >= HIGH_BIT && Reads(data, root + TypeDir(p.gs, g), NameEntries(p, g), None, n)
            && ClearHigh(n) == LangAt(|p.gs|, |p.sorted|, First(p.gs, g))
  {
    hide NameEntries, DirAt, Entries, Fits, TypeDir, ClearHigh, LangAt;
    var es := NameEntries(p, g);
    EntriesRead(data, root + TypeDir(p.gs, g), es);
    NameEntryIs(p, g, 0);
    assert Reads(data, root + TypeDir(p.gs, g), es, None, es[0].off);
  }

  lemma LangReads(data: seq<byte>, root: nat, p: Plan, rva: nat, j: nat)
    requires Fits(p, 0) && j < |p.sorted| && LeafAt(data, root, p, rva, j)
    ensures var l := LangEntries(p, j)[0].off;
            && l < HIGH_BIT && Reads(data, root + LangAt(|p.gs|, |p.sorted|, j), LangEntries(p, j), None, l)
            && l == EntryAt(|p.gs|, |p.sorted|, j)
  {
    hide DirAt, Entries, LangAt;
    var es := LangEntries(p, j);
    EntriesRead(data, root + LangAt(|p.gs|, |p.sorted|, j), es);
    assert Reads(data, root + LangAt(|p.gs|, |p.sorted|, j), es, None, es[0].off);
  }

  lemma {:induction false} NoEntry(es: seq<Entry>, want: Option<u32>)
    requires forall i :: 0 <= i < |es| ==> !Matches(want, es[i].id)
    ensures FirstEntry(es, want) == None
  {
    if es != [] {
      NoEntry(es[1..], want);
    }
  }

  // An executable linked without a manifest has none to find.
  lemma LinkedWithoutManifest(data: seq<byte>, secs: seq<PeSection>, sec: PeSection, p: Plan, s: seq<byte>)
    requires Linked(data, secs, sec, p, s)
    requires forall g :: 0 <= g < |p.gs| ==> p.gs[g].typ != 24
    ensures Locate(data, secs, sec.virtualAddress) == None
  {
    hide Grouped, Fits, Tree, RootEntries, DirAt, Entries, FileOffset, Linked, ReadEntry, FirstFrom, FirstEntry;
    LinkedTree(data, secs, sec, p, s);
    TreeParts(data, sec.offset, p, sec.virtualAddress);
    var es := RootEntries(p);
    EntriesRead(data, sec.offset, es);
    forall i | 0 <= i < |es| ensures !Matches(Some(RT_MANIFEST), es[i].id) {
      RootEntryIs(p, i);
    }
    NoEntry(es, Some(RT_MANIFEST));
    FirstFromRead(data, sec.offset, es, Some(RT_MANIFEST), 0);
    assert es[0..] == es;
    EntriesCount(data, sec.offset, es);
    TotalPositive(p);
    LinkedOffset(data, secs, sec, p, s, 0);
  }

  lemma EntriesCount(data: seq<byte>, dir: nat, es: seq<Entry>)
    requires Entries(data, dir) == Some(es)
    ensures dir + 16 <= |data| && U16(data, dir + 12) + U16(data, dir + 14) == |es|
  {
    hide U16;
  }

  lemma TotalPositive(p: Plan)
    requires p.Valid()
    ensures p.Total() > 0
  {
    hide Grouped;
    p.InBounds(RootHead);
  }
}
