/** Bytes, little-endian fields and in-place patches, as encoding/binary provides them. */
module Bytes {
  type byte = x: int | 0 <= x < 0x100
  type u16 = x: int | 0 <= x < 0x1_0000
  type u32 = x: int | 0 <= x < 0x1_0000_0000

  const HIGH_BIT: int := 0x8000_0000

  datatype Option<+T> = None | Some(value: T)
  datatype Result<+T> = Ok(value: T) | Err(reason: string)

  // The conversions uint16(n) and uint32(n) of a non-negative int truncate.
  function Trunc16(n: nat): u16 { n % 0x1_0000 }

  function Trunc32(n: nat): u32 { n % 0x1_0000_0000 }

  // v | 0x80000000
  function SetHigh(v: u32): u32 {
    if v < HIGH_BIT then v + HIGH_BIT else v
  }

  // v &^ 0x80000000
  function ClearHigh(v: u32): u32 {
    if v < HIGH_BIT then v else v - HIGH_BIT
  }

  function Le16(v: u16): (b: seq<byte>)
    ensures |b| == 2 && U16(b, 0) == v
  {
    [v % 0x100, v / 0x100]
  }

  function Le32(v: u32): (b: seq<byte>)
    ensures |b| == 4
    ensures U32(b, 0) == v
  {
    Le16(v % 0x1_0000) + Le16(v / 0x1_0000)
  }

  // The little-endian fields of s at offset at.
  function U16(s: seq<byte>, at: nat): u16
    requires at + 2 <= |s|
  {
    s[at] as int + 0x100 * (s[at + 1] as int)
  }

  function U32(s: seq<byte>, at: nat): u32
    requires at + 4 <= |s|
  {
    U16(s, at) as int + 0x1_0000 * (U16(s, at + 2) as int)
  }

  // The field of s at offset at lies inside s and holds v.
  predicate Holds16(s: seq<byte>, at: int, v: int) {
    0 <= at && at + 2 <= |s| && U16(s, at) == v
  }

  predicate Holds32(s: seq<byte>, at: int, v: int) {
    0 <= at && at + 4 <= |s| && U32(s, at) == v
  }

  predicate HoldsBytes(s: seq<byte>, at: int, b: seq<byte>) {
    0 <= at && at + |b| <= |s| && s[at..at + |b|] == b
  }

  // s with b written over it at offset at.
  function Patch(s: seq<byte>, at: nat, b: seq<byte>): (t: seq<byte>)
    requires at + |b| <= |s|
    ensures |t| == |s|
  {
    s[..at] + b + s[at + |b|..]
  }

  // A patch is there afterwards, and what it does not touch stays.
  lemma PatchHolds(s: seq<byte>, at: nat, b: seq<byte>)
    requires at + |b| <= |s|
    ensures HoldsBytes(Patch(s, at, b), at, b)
    ensures forall p :: 0 <= p < |s| && !(at <= p < at + |b|) ==> Patch(s, at, b)[p] == s[p]
  {
  }

  lemma PatchKeeps(s: seq<byte>, at: nat, b: seq<byte>, at': int, b': seq<byte>)
    requires at + |b| <= |s| && HoldsBytes(s, at', b')
    requires at' + |b'| <= at || at + |b| <= at'
    ensures HoldsBytes(Patch(s, at, b), at', b')
  {
    var t := Patch(s, at, b);
    forall k | 0 <= k < |b'| ensures t[at'..at' + |b'|][k] == b'[k] {
      assert s[at'..at' + |b'|][k] == b'[k];
    }
  }

  // Two writes side by side are one.
  lemma PatchJoin(s: seq<byte>, at: nat, a: seq<byte>, b: seq<byte>)
    requires at + |a| + |b| <= |s|
    ensures Patch(Patch(s, at, a), at + |a|, b) == Patch(s, at, a + b)
  {
  }

  // The parts of a sequence of bytes that is held.
  lemma HoldsSplit(s: seq<byte>, at: int, a: seq<byte>, b: seq<byte>)
    ensures HoldsBytes(s, at, a + b) <==> HoldsBytes(s, at, a) && HoldsBytes(s, at + |a|, b)
  {
    if HoldsBytes(s, at, a + b) {
      assert s[at..at + |a|] == (a + b)[..|a|];
      assert s[at + |a|..at + |a| + |b|] == (a + b)[|a|..];
    }
    if HoldsBytes(s, at, a) && HoldsBytes(s, at + |a|, b) {
      assert s[at..at + |a + b|] == s[at..at + |a|] + s[at + |a|..at + |a| + |b|];
    }
  }

  // Fields hold a value exactly when the bytes of that value are there.
  lemma HeldFields(s: seq<byte>, at: int, v: int)
    ensures 0 <= v < 0x1_0000 && HoldsBytes(s, at, Le16(v)) ==> Holds16(s, at, v)
    ensures 0 <= v < 0x1_0000_0000 && HoldsBytes(s, at, Le32(v)) ==> Holds32(s, at, v)
  {
    if 0 <= v < 0x1_0000 && HoldsBytes(s, at, Le16(v)) {
      assert s[at] == s[at..at + 2][0] && s[at + 1] == s[at..at + 2][1];
    }
    if 0 <= v < 0x1_0000_0000 && HoldsBytes(s, at, Le32(v)) {
      var b := s[at..at + 4];
      assert s[at] == b[0] && s[at + 1] == b[1] && s[at + 2] == b[2] && s[at + 3] == b[3];
    }
  }

  lemma WholeHeld(s: seq<byte>)
    ensures HoldsBytes(s, 0, s)
  {
  }

  lemma SliceHeld(s: seq<byte>, at: nat, b: seq<byte>)
    requires HoldsBytes(s, at, b)
    ensures at + |b| <= |s| && s[at..at + |b|] == b
  {
  }

  lemma Assoc(a: seq<byte>, b: seq<byte>, c: seq<byte>)
    ensures a + b + c == a + (b + c)
  {
  }

  lemma FieldIs(s: seq<byte>, at: nat, v: int)
    requires Holds32(s, at, v)
    ensures at + 4 <= |s| && U32(s, at) == v
  {
  }

  lemma HoldsLength(data: seq<byte>, at: int, b: seq<byte>)
    requires HoldsBytes(data, at, b)
    ensures 0 <= at && at + |b| <= |data|
  {
  }

  function Zeros(n: nat): (z: seq<byte>)
    ensures |z| == n
  {
    seq(n, _ => 0)
  }

  method Put16(out: array<byte>, at: nat, v: u16)
    requires at + 2 <= out.Length
    modifies out
    ensures out[..] == Patch(old(out[..]), at, Le16(v))
  {
    var b := Le16(v);
    out[at], out[at + 1] := b[0], b[1];
  }

  method Put32(out: array<byte>, at: nat, v: u32)
    requires at + 4 <= out.Length
    modifies out
    ensures out[..] == Patch(old(out[..]), at, Le32(v))
  {
    var b := Le32(v);
    out[at], out[at + 1], out[at + 2], out[at + 3] := b[0], b[1], b[2], b[3];
  }

  // copy(out[at:], data)
  method CopyInto(out: array<byte>, at: nat, data: seq<byte>)
    requires at + |data| <= out.Length
    modifies out
    ensures out[..] == Patch(old(out[..]), at, data)
  {
    forall k | 0 <= k < |data| {
      out[at + k] := data[k];
    }
  }
}
