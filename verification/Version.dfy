/**
 The VS_VERSIONINFO serialiser of tools/winres/version.go, and a parser written from the layout of
 that Win32 structure. The parser undoes the serialiser.
 */
module Version {
  import opened Bytes
  import opened RsrcReader

  // A node; the key is given as UTF-16 code units.
  datatype VerNode = VerNode(key: seq<u16>, value: seq<byte>, text: bool, children: seq<VerNode>)

  // ----- the bytes of a node -----

  function PadLen(n: nat): nat { (4 - n % 4) % 4 }

  function Align4(n: nat): nat { n + PadLen(n) }

  lemma AddFours(n: nat, pos: nat)
    requires pos % 4 == 0
    ensures (pos + n) % 4 == n % 4
  {
  }

  lemma AlignFacts(n: nat, pos: nat)
    requires pos % 4 == 0
    ensures Align4(n) % 4 == 0 && n <= Align4(n) < n + 4
    ensures Align4(pos + n) == pos + Align4(n)
    ensures n % 4 == 0 ==> PadLen(n) == 0
  {
    AddFours(n, pos);
    PadUp(n);
  }

  lemma PadUp(n: nat)
    ensures (n + PadLen(n)) % 4 == 0
  {
  }

  function UnitBytes(units: seq<u16>): (b: seq<byte>)
    ensures |b| == 2 * |units|
  {
    if units == [] then [] else UnitBytes(units[..|units| - 1]) + Le16(units[|units| - 1])
  }

  // The value length counts bytes, or 16-bit characters in text.
  function ValueLen(n: VerNode): nat {
    if n.text then |n.value| / 2 else |n.value|
  }

  // Everything between the length and the value.
  function Front(n: VerNode): (b: seq<byte>)
    ensures |b| == 6 + 2 * |n.key|
  {
    Le16(Trunc16(ValueLen(n))) + Le16(if n.text then 1 else 0) + UnitBytes(n.key + [0])
  }

  function ValueAt(n: VerNode): nat { Align4(8 + 2 * |n.key|) }

  // The children, each aligned, in a node that is at bytes long before them.
  function ChildBytes(at: nat, cs: seq<VerNode>): seq<byte>
    decreases cs, 0
  {
    if cs == [] then []
    else
      var init := ChildBytes(at, cs[..|cs| - 1]);
      init + Zeros(PadLen(at + |init|)) + NodeBytes(cs[|cs| - 1])
  }

  // The node after its length field, without the padding at its end.
  function Inner(n: VerNode): seq<byte>
    decreases n, 0
  {
    Front(n) + Zeros(PadLen(2 + |Front(n)|)) + n.value + ChildBytes(ValueAt(n) + |n.value|, n.children)
  }

  function Rest(n: VerNode): seq<byte>
    decreases n, 1
  {
    Inner(n) + Zeros(PadLen(2 + |Inner(n)|))
  }

  function NodeBytes(n: VerNode): seq<byte>
    decreases n, 2
  {
    Le16(Trunc16(2 + |Rest(n)|)) + Rest(n)
  }

  // ----- the serialiser -----

  method Pad4(buf: seq<byte>) returns (out: seq<byte>)
    ensures out == buf + Zeros(PadLen(|buf|))
  {
    hide PadLen, Zeros;
    out := buf;
    ghost var n: nat := 0;
    PadStep(|buf|, 0);
    NoZeros(buf);
    while |out| % 4 != 0
      invariant n <= PadLen(|buf|) && |out| == |buf| + n
      invariant out == buf + Zeros(n)
      decreases PadLen(|buf|) - n
    {
      PadStep(|buf|, n);
      MoreZeros(buf, n);
      out := out + [0];
      n := n + 1;
    }
    PadStep(|buf|, n);
  }

  lemma PadStep(len: nat, n: nat)
    requires n <= PadLen(len)
    ensures (len + n) % 4 == 0 <==> n == PadLen(len)
  {
  }

  lemma NoZeros(buf: seq<byte>)
    ensures buf + Zeros(0) == buf
  {
  }

  lemma MoreZeros(buf: seq<byte>, n: nat)
    ensures buf + Zeros(n) + [0] == buf + Zeros(n + 1)
  {
  }

  method Utf16z(key: seq<u16>) returns (out: seq<byte>)
    ensures out == UnitBytes(key + [0])
  {
    hide Le16, UnitBytes, Patch;
    var units := key + [0];
    var a := new byte[2 * |units|];
    NoUnits();
    for i := 0 to |units|
      invariant a[..][..2 * i] == UnitBytes(units[..i])
    {
      ghost var before := a[..];
      Put16(a, 2 * i, units[i]);
      PatchPrefix(before, 2 * i, Le16(units[i]));
      UnitsSnoc(units, i);
    }
    assert units[..|units|] == units;
    out := a[..];
    assert out[..2 * |units|] == out;
  }

  lemma NoUnits()
    ensures UnitBytes([]) == []
  {
  }

  lemma UnitsSnoc(units: seq<u16>, i: nat)
    requires i < |units|
    ensures UnitBytes(units[..i + 1]) == UnitBytes(units[..i]) + Le16(units[i])
  {
    hide Le16;
    assert units[..i + 1][..i] == units[..i];
  }

  // What a patch leaves in front of its end.
  lemma PatchPrefix(s: seq<byte>, at: nat, b: seq<byte>)
    requires at + |b| <= |s|
    ensures Patch(s, at, b)[..at + |b|] == s[..at] + b
  {
  }

  method SerializeNode(n: VerNode) returns (b: seq<byte>)
    ensures b == NodeBytes(n)
    decreases n
  {
    hide Le16, UnitBytes, Zeros, PadLen, ChildBytes, Trunc16;
    var valueLen := |n.value|;
    if n.text {
      valueLen := valueLen / 2;
    }
    var wType := 0;
    if n.text {
      wType := 1;
    }
    var buf := Le16(0);
    buf := buf + Le16(Trunc16(valueLen));
    buf := buf + Le16(wType);
    var key := Utf16z(n.key);
    buf := buf + key;
    assert buf == Le16(0) + Front(n);
    buf := Pad4(buf);
    buf := buf + n.value;
    ghost var head := buf;
    assert |head| == ValueAt(n) + |n.value| by { HeadLength(n); }
    NoChildren(|head|);
    for i := 0 to |n.children|
      invariant buf == head + ChildBytes(|head|, n.children[..i])
    {
      ghost var kids := ChildBytes(|head|, n.children[..i]);
      buf := Pad4(buf);
      var c := SerializeNode(n.children[i]);
      SnocChild(|head|, n.children, i);
      AppendPadded(head, kids, PadLen(|head| + |kids|), c);
      buf := buf + c;
    }
    assert n.children[..|n.children|] == n.children;
    InnerParts(n, head);
    buf := Pad4(buf);
    b := buf[0 := Le16(Trunc16(|buf|))[0]][1 := Le16(Trunc16(|buf|))[1]];
    BackPatch(n, buf, b);
  }

  lemma HeadLength(n: VerNode)
    ensures |Le16(0) + Front(n) + Zeros(PadLen(2 + |Front(n)|)) + n.value| == ValueAt(n) + |n.value|
  {
    hide Le16, UnitBytes;
  }

  lemma NoChildren(at: nat)
    ensures ChildBytes(at, []) == []
  {
  }

  lemma SnocChild(at: nat, cs: seq<VerNode>, i: nat)
    requires i < |cs|
    ensures var kids := ChildBytes(at, cs[..i]);
            ChildBytes(at, cs[..i + 1]) == kids + Zeros(PadLen(at + |kids|)) + NodeBytes(cs[i])
  {
    hide PadLen, NodeBytes;
    assert cs[..i + 1][..i] == cs[..i];
  }

  lemma AppendPadded(head: seq<byte>, kids: seq<byte>, pad: nat, c: seq<byte>)
    ensures head + kids + Zeros(pad) + c == head + (kids + Zeros(pad) + c)
  {
    hide Zeros;
  }

  lemma InnerParts(n: VerNode, head: seq<byte>)
    requires head == Le16(0) + Front(n) + Zeros(PadLen(2 + |Front(n)|)) + n.value
    requires |head| == ValueAt(n) + |n.value|
    ensures head + ChildBytes(|head|, n.children) == Le16(0) + Inner(n)
  {
    hide Le16, Front, Zeros, PadLen, ChildBytes, ValueAt;
    var f, z, c := Front(n), Zeros(PadLen(2 + |Front(n)|)), ChildBytes(|head|, n.children);
    assert Inner(n) == f + z + n.value + c;
    assert Le16(0) + f + z + n.value + c == Le16(0) + (f + z + n.value + c);
  }

  lemma BackPatch(n: VerNode, buf: seq<byte>, b: seq<byte>)
    requires buf == Le16(0) + Inner(n) + Zeros(PadLen(|Le16(0) + Inner(n)|))
    requires b == buf[0 := Le16(Trunc16(|buf|))[0]][1 := Le16(Trunc16(|buf|))[1]]
    ensures b == NodeBytes(n)
  {
    hide Le16, Inner, PadLen, Trunc16;
    assert buf == Le16(0) + Rest(n);
    assert b[..2] == Le16(Trunc16(|buf|)) && b[2..] == Rest(n);
  }

  // ----- a parser of the structure -----

  datatype Parsed = Parsed(node: VerNode, end: nat)

  // 16-bit units from at up to a zero unit, and the position after it.
  function ReadKey(s: seq<byte>, at: nat): Option<(seq<u16>, nat)>
    decreases |s| - at
  {
    if at + 2 > |s| then None
    else if U16(s, at) == 0 then Some(([], at + 2))
    else
      var rest := ReadKey(s, at + 2);
      if rest.None? then None else Some(([U16(s, at)] + rest.value.0, rest.value.1))
  }

  // The node that starts at pos; its children fill what its length leaves.
  function ParseNode(s: seq<byte>, pos: nat): Option<Parsed>
    decreases |s| - pos, 0
  {
    if pos + 6 > |s| then None
    else
      var end, key := pos + U16(s, pos), ReadKey(s, pos + 6);
      if key.None? || end > |s| then None
      else
        var text := U16(s, pos + 4) == 1;
        var size := if text then 2 * U16(s, pos + 2) else U16(s, pos + 2);
        var valueAt := Align4(key.value.1);
        if valueAt + size > end || valueAt <= pos then None
        else
          var children := ParseChildren(s, Align4(valueAt + size), end);
          if children.None? then None
          else Some(Parsed(VerNode(key.value.0, s[valueAt..valueAt + size], text, children.value), end))
  }

  function ParseChildren(s: seq<byte>, at: nat, end: nat): Option<seq<VerNode>>
    requires end <= |s|
    decreases |s| - at, 1
  {
    if at >= end then Some([])
    else
      var c := ParseNode(s, at);
      if c.None? || c.value.end <= at then None
      else
        var rest := ParseChildren(s, Align4(c.value.end), end);
        if rest.None? then None else Some([c.value.node] + rest.value)
  }

  // ----- the round trip -----

  ghost predicate WellFormed(n: VerNode) {
    && 0 !in n.key
    && (n.text ==> |n.value| % 2 == 0)
    && forall c :: c in n.children ==> WellFormed(c)
  }

  lemma NodeAligned(n: VerNode)
    ensures |NodeBytes(n)| % 4 == 0 && |NodeBytes(n)| >= 8
  {
    hide Inner, UnitBytes, Le16;
    InnerLength(n);
    AlignFacts(2 + |Inner(n)|, 0);
  }

  lemma InnerLength(n: VerNode)
    ensures |Inner(n)| >= 6 + |n.value|
    ensures 2 + |Inner(n)| == ValueAt(n) + |n.value| + |ChildBytes(ValueAt(n) + |n.value|, n.children)|
  {
    hide ChildBytes, UnitBytes, Le16;
  }

  // The children of a node fit in it, one behind the other.
  lemma {:induction false} ChildBytesMono(at: nat, cs: seq<VerNode>, i: nat)
    requires i <= |cs|
    ensures |ChildBytes(at, cs[..i])| <= |ChildBytes(at, cs)|
    decreases |cs| - i
  {
    hide NodeBytes, PadLen;
    if i < |cs| {
      SnocChild(at, cs, i);
      ChildBytesMono(at, cs, i + 1);
    } else {
      assert cs[..i] == cs;
    }
  }

  lemma {:induction false} UnitsHeld(s: seq<byte>, at: nat, units: seq<u16>, k: nat)
    requires HoldsBytes(s, at, UnitBytes(units)) && k < |units|
    ensures Holds16(s, at + 2 * k, units[k])
  {
    hide HoldsBytes, Holds16, Le16;
    var n := |units| - 1;
    HoldsSplit(s, at, UnitBytes(units[..n]), Le16(units[n]));
    if k < n {
      UnitsHeld(s, at, units[..n], k);
    } else {
      HeldFields(s, at + 2 * n, units[n]);
    }
  }

  lemma {:induction false} KeyRead(s: seq<byte>, at: nat, key: seq<u16>, i: nat)
    requires HoldsBytes(s, at, UnitBytes(key + [0])) && 0 !in key && i <= |key|
    ensures ReadKey(s, at + 2 * i) == Some((key[i..], at + 2 * |key| + 2))
    decreases |key| - i
  {
    hide HoldsBytes, UnitBytes;
    UnitsHeld(s, at, key + [0], i);
    if i < |key| {
      assert key[i] in key;
      KeyRead(s, at, key, i + 1);
      assert key[i..] == [key[i]] + key[i + 1..];
    } else {
      assert key[i..] == [];
    }
  }

  // Where child i of a node at pos starts, and that its bytes are there.
  ghost function ChildAt(n: VerNode, i: nat): nat
    requires i <= |n.children|
  {
    Align4(ValueAt(n) + |n.value| + |ChildBytes(ValueAt(n) + |n.value|, n.children[..i])|)
  }

  lemma {:induction false} ChildHeld(s: seq<byte>, base: nat, at: nat, cs: seq<VerNode>, i: nat)
    requires HoldsBytes(s, base, ChildBytes(at, cs)) && i < |cs|
    ensures var before := |ChildBytes(at, cs[..i])|;
            HoldsBytes(s, base + before + PadLen(at + before), NodeBytes(cs[i]))
  {
    hide HoldsBytes, NodeBytes, PadLen, Zeros;
    var n := |cs| - 1;
    var init := ChildBytes(at, cs[..n]);
    var pad := Zeros(PadLen(at + |init|));
    HoldsSplit(s, base, init + pad, NodeBytes(cs[n]));
    HoldsSplit(s, base, init, pad);
    if i < n {
      ChildHeld(s, base, at, cs[..n], i);
      assert cs[..n][..i] == cs[..i];
    }
  }

  // The pieces of a node that sits at pos.
  lemma NodeHeld(s: seq<byte>, pos: nat, n: VerNode)
    requires HoldsBytes(s, pos, NodeBytes(n)) && |NodeBytes(n)| < 0x1_0000
    ensures pos + |NodeBytes(n)| <= |s|
    ensures Holds16(s, pos, |NodeBytes(n)|) && Holds16(s, pos + 2, ValueLen(n))
        && Holds16(s, pos + 4, if n.text then 1 else 0)
    ensures HoldsBytes(s, pos + 6, UnitBytes(n.key + [0]))
    ensures HoldsBytes(s, pos + ValueAt(n), n.value)
    ensures HoldsBytes(s, pos + ValueAt(n) + |n.value|, ChildBytes(ValueAt(n) + |n.value|, n.children))
    ensures ValueAt(n) + |n.value| + |ChildBytes(ValueAt(n) + |n.value|, n.children)| <= |NodeBytes(n)|
    ensures |NodeBytes(n)| == Align4(ValueAt(n) + |n.value| + |ChildBytes(ValueAt(n) + |n.value|, n.children)|)
  {
    hide HoldsBytes, Holds16, UnitBytes, ChildBytes, NodeBytes, Inner, Rest, Align4, ValueAt, ValueLen;
    InnerLength(n);
    NodeLength(n);
    AlignUp(2 + |Inner(n)|);
    HoldsLength(s, pos, NodeBytes(n));
    LengthHeld(s, pos, n);
    InnerHeld(s, pos + 2, n);
    FrontHeld(s, pos, n);
  }

  // The length field, and what follows it.
  lemma LengthHeld(s: seq<byte>, pos: nat, n: VerNode)
    requires HoldsBytes(s, pos, NodeBytes(n)) && |NodeBytes(n)| < 0x1_0000
    ensures Holds16(s, pos, |NodeBytes(n)|) && HoldsBytes(s, pos + 2, Inner(n))
  {
    hide HoldsBytes, Holds16, Le16, Inner, Zeros, PadLen, Trunc16;
    var rest, inner := Rest(n), Inner(n);
    NodeLength(n);
    TruncSmall(|NodeBytes(n)|);
    HoldsSplit(s, pos, Le16(Trunc16(2 + |rest|)), rest);
    HeldFields(s, pos, Trunc16(2 + |rest|));
    HoldsSplit(s, pos + 2, inner, Zeros(PadLen(2 + |inner|)));
  }

  // The parts between the length field and the padding at the end.
  lemma InnerHeld(s: seq<byte>, at: nat, n: VerNode)
    requires HoldsBytes(s, at, Inner(n))
    ensures HoldsBytes(s, at, Front(n))
    ensures HoldsBytes(s, at - 2 + ValueAt(n), n.value)
    ensures HoldsBytes(s, at - 2 + ValueAt(n) + |n.value|, ChildBytes(ValueAt(n) + |n.value|, n.children))
  {
    hide HoldsBytes, ChildBytes, Zeros, PadLen, Front, ValueAt;
    NodeLength(n);
    var front := Front(n);
    var pad, kids := Zeros(PadLen(2 + |front|)), ChildBytes(ValueAt(n) + |n.value|, n.children);
    HoldsSplit(s, at, front + pad + n.value, kids);
    HoldsSplit(s, at, front + pad, n.value);
    HoldsSplit(s, at, front, pad);
  }

  lemma NodeLength(n: VerNode)
    ensures |NodeBytes(n)| == 2 + |Rest(n)| && |NodeBytes(n)| == Align4(2 + |Inner(n)|)
    ensures ValueAt(n) == 2 + |Front(n)| + PadLen(2 + |Front(n)|)
    ensures ValueLen(n) <= |n.value|
  {
    hide Inner, Front, Le16, PadLen;
  }

  lemma TruncSmall(v: nat)
    ensures v < 0x1_0000 ==> Trunc16(v) == v
  {
  }

  lemma FrontHeld(s: seq<byte>, pos: nat, n: VerNode)
    requires HoldsBytes(s, pos + 2, Front(n)) && ValueLen(n) < 0x1_0000
    ensures Holds16(s, pos + 2, ValueLen(n)) && Holds16(s, pos + 4, if n.text then 1 else 0)
    ensures HoldsBytes(s, pos + 6, UnitBytes(n.key + [0]))
  {
    hide HoldsBytes, Holds16, Le16, UnitBytes, Trunc16, ValueLen;
    TruncSmall(ValueLen(n));
    var a, b, c := Le16(ValueLen(n)), Le16(if n.text then 1 else 0), UnitBytes(n.key + [0]);
    HoldsSplit(s, pos + 2, a + b, c);
    HoldsSplit(s, pos + 2, a, b);
    HeldFields(s, pos + 2, ValueLen(n));
    HeldFields(s, pos + 4, if n.text then 1 else 0);
  }

  // The children of n follow one another from ChildAt(n, 0) to the end of n.
  lemma ChildPlace(s: seq<byte>, pos: nat, n: VerNode, i: nat)
    requires pos % 4 == 0 && i <= |n.children|
    requires HoldsBytes(s, pos, NodeBytes(n)) && |NodeBytes(n)| < 0x1_0000
    ensures ChildAt(n, i) % 4 == 0
    ensures i == |n.children| ==> ChildAt(n, i) == |NodeBytes(n)|
    ensures i < |n.children| ==>
              && HoldsBytes(s, pos + ChildAt(n, i), NodeBytes(n.children[i]))
              && ChildAt(n, i + 1) == ChildAt(n, i) + |NodeBytes(n.children[i])| <= |NodeBytes(n)|
  {
    hide HoldsBytes, NodeBytes, ValueAt, PadLen, Holds16, UnitBytes, ChildBytes, Align4;
    var v := ValueAt(n) + |n.value|;
    NodeHeld(s, pos, n);
    AlignFacts(v + |ChildBytes(v, n.children[..i])|, pos);
    if i == |n.children| {
      assert n.children[..i] == n.children;
    } else {
      ChildInside(s, pos, n, i);
    }
  }

  lemma ChildStep(n: VerNode, i: nat)
    requires i < |n.children|
    ensures var v := ValueAt(n) + |n.value|;
            var before := v + |ChildBytes(v, n.children[..i])|;
            && ChildAt(n, i) == before + PadLen(before)
            && ChildAt(n, i) + |NodeBytes(n.children[i])| == v + |ChildBytes(v, n.children[..i + 1])|
              == ChildAt(n, i + 1)
  {
    hide NodeBytes, ValueAt, ChildBytes, PadLen;
    var v := ValueAt(n) + |n.value|;
    var before, size := v + |ChildBytes(v, n.children[..i])|, |NodeBytes(n.children[i])|;
    SnocChild(v, n.children, i);
    NodeAligned(n.children[i]);
    PadUp(before);
    AlignedSum(before + PadLen(before), size);
  }

  lemma AlignedSum(a: nat, b: nat)
    requires a % 4 == 0 && b % 4 == 0
    ensures PadLen(a + b) == 0
  {
  }

  lemma ChildInside(s: seq<byte>, pos: nat, n: VerNode, i: nat)
    requires pos % 4 == 0 && i < |n.children|
    requires HoldsBytes(s, pos, NodeBytes(n)) && |NodeBytes(n)| < 0x1_0000
    ensures HoldsBytes(s, pos + ChildAt(n, i), NodeBytes(n.children[i]))
    ensures ChildAt(n, i + 1) == ChildAt(n, i) + |NodeBytes(n.children[i])| <= |NodeBytes(n)|
  {
    hide HoldsBytes, NodeBytes, ValueAt, PadLen, Holds16, UnitBytes, ChildBytes, ChildAt, Align4;
    var v := ValueAt(n) + |n.value|;
    NodeHeld(s, pos, n);
    ChildHeld(s, pos + v, v, n.children, i);
    ChildStep(n, i);
    ChildBytesMono(v, n.children, i + 1);
  }

  lemma {:induction false} ChildrenParsed(s: seq<byte>, pos: nat, n: VerNode, i: nat)
    requires WellFormed(n) && pos % 4 == 0 && i <= |n.children|
    requires HoldsBytes(s, pos, NodeBytes(n)) && |NodeBytes(n)| < 0x1_0000
    ensures pos + |NodeBytes(n)| <= |s|
    ensures ParseChildren(s, pos + ChildAt(n, i), pos + |NodeBytes(n)|) == Some(n.children[i..])
    decreases n, |n.children| - i
  {
    hide HoldsBytes, NodeBytes, ChildAt, ParseNode, ParseChildren, Align4, ValueAt, UnitBytes;
    HoldsLength(s, pos, NodeBytes(n));
    ChildPlace(s, pos, n, i);
    var at, end := pos + ChildAt(n, i), pos + |NodeBytes(n)|;
    if i == |n.children| {
      NoMoreChildren(s, at, end);
      assert n.children[i..] == [];
    } else {
      var c := n.children[i];
      assert c in n.children;
      NodeAligned(c);
      NodeParsed(s, at, c);
      ChildrenParsed(s, pos, n, i + 1);
      NextAligned(pos, ChildAt(n, i), |NodeBytes(c)|);
      OneMoreChild(s, at, end, c, at + |NodeBytes(c)|, n.children[i + 1..]);
      assert n.children[i..] == [c] + n.children[i + 1..];
    }
  }

  lemma NextAligned(pos: nat, a: nat, b: nat)
    requires pos % 4 == 0 && a % 4 == 0 && b % 4 == 0
    ensures (pos + a) % 4 == 0 && Align4(pos + a + b) == pos + a + b
  {
    hide Align4, PadLen;
    AddFours(a, pos);
    AddFours(b, pos + a);
    AlignedIs(pos + a + b);
  }

  lemma AlignedIs(n: nat)
    requires n % 4 == 0
    ensures Align4(n) == n
  {
  }

  lemma NoMoreChildren(s: seq<byte>, at: nat, end: nat)
    requires at == end <= |s|
    ensures ParseChildren(s, at, end) == Some([])
  {
    hide ParseNode;
  }

  lemma OneMoreChild(s: seq<byte>, at: nat, end: nat, c: VerNode, next: nat, rest: seq<VerNode>)
    requires at < end <= |s| && ParseNode(s, at) == Some(Parsed(c, next)) && at < next
    requires ParseChildren(s, Align4(next), end) == Some(rest)
    ensures ParseChildren(s, at, end) == Some([c] + rest)
  {
    hide ParseNode, Align4;
  }

  // Parsing the bytes of a node gives the node back, and ends where the bytes end.
  lemma {:induction false} NodeParsed(s: seq<byte>, pos: nat, n: VerNode)
    requires WellFormed(n) && pos % 4 == 0
    requires HoldsBytes(s, pos, NodeBytes(n)) && |NodeBytes(n)| < 0x1_0000
    ensures ParseNode(s, pos) == Some(Parsed(n, pos + |NodeBytes(n)|))
    decreases n, |n.children| + 1
  {
    hide HoldsBytes, NodeBytes, UnitBytes, ChildBytes, ParseChildren, PadLen, Align4;
    NodeHeld(s, pos, n);
    KeyRead(s, pos + 6, n.key, 0);
    assert n.key[0..] == n.key;
    AlignFacts(8 + 2 * |n.key|, pos);
    NodeAligned(n);
    SliceHeld(s, pos + ValueAt(n), n.value);
    ChildrenParsed(s, pos, n, 0);
    FirstChild(n);
    AlignFacts(ValueAt(n) + |n.value|, pos);
    assert n.children[0..] == n.children;
  }

  lemma FirstChild(n: VerNode)
    ensures ChildAt(n, 0) == Align4(ValueAt(n) + |n.value|)
  {
    hide Align4, ValueAt;
    assert n.children[..0] == [];
  }

  // Whatever the parser returns has NUL-free keys and even text.
  lemma {:induction false} KeyHasNoZero(s: seq<byte>, at: nat)
    ensures var r := ReadKey(s, at); r.Some? ==> 0 !in r.value.0
    decreases |s| - at
  {
    if at + 2 <= |s| && U16(s, at) != 0 {
      KeyHasNoZero(s, at + 2);
    }
  }

  lemma {:induction false} ParsedWellFormed(s: seq<byte>, pos: nat)
    ensures var r := ParseNode(s, pos); r.Some? ==> WellFormed(r.value.node)
    decreases |s| - pos, 0
  {
    hide Align4;
    var r := ParseNode(s, pos);
    if r.Some? {
      KeyHasNoZero(s, pos + 6);
      var end, key := pos + U16(s, pos), ReadKey(s, pos + 6);
      var valueAt := Align4(key.value.1);
      var size := if U16(s, pos + 4) == 1 then 2 * U16(s, pos + 2) else U16(s, pos + 2);
      AlignUp(valueAt + size);
      ParsedChildrenWellFormed(s, Align4(valueAt + size), end);
    }
  }

  lemma AlignUp(n: nat)
    ensures n <= Align4(n)
  {
  }

  lemma {:induction false} ParsedChildrenWellFormed(s: seq<byte>, at: nat, end: nat)
    requires end <= |s|
    ensures var r := ParseChildren(s, at, end); r.Some? ==> forall c :: c in r.value ==> WellFormed(c)
    decreases |s| - at, 1
  {
    hide Align4, ParseNode, WellFormed;
    var r := ParseChildren(s, at, end);
    if r.Some? && at < end {
      ParsedWellFormed(s, at);
      var e := ParseNode(s, at).value.end;
      AlignUp(e);
      ParsedChildrenWellFormed(s, Align4(e), end);
    }
  }

  lemma ParsedEnd(s: seq<byte>, pos: nat)
    ensures var r := ParseNode(s, pos); r.Some? ==> r.value.end < pos + 0x1_0000
  {
    hide U16, ReadKey, Align4, ParseChildren;
  }

  // How long a node is, from the lengths of its key, its value and its children.
  function NodeSize(n: VerNode): nat
    decreases n, 1
  {
    Align4(EndOf(ValueAt(n) + |n.value|, n.children))
  }

  // Where children that start behind at bytes end.
  function EndOf(at: nat, cs: seq<VerNode>): nat
    decreases cs, 0
  {
    if cs == [] then at else Align4(EndOf(at, cs[..|cs| - 1])) + NodeSize(cs[|cs| - 1])
  }

  lemma {:induction false} SizeIs(n: VerNode)
    ensures |NodeBytes(n)| == NodeSize(n)
    decreases n, 1
  {
    hide NodeBytes, Inner, Rest, Front, ValueAt, ChildBytes, EndOf, Align4;
    NodeLength(n);
    InnerLength(n);
    EndIs(ValueAt(n) + |n.value|, n.children);
  }

  lemma {:induction false} EndIs(at: nat, cs: seq<VerNode>)
    ensures at + |ChildBytes(at, cs)| == EndOf(at, cs)
    decreases cs, 0
  {
    hide NodeBytes, NodeSize, PadLen, Zeros;
    if cs != [] {
      EndIs(at, cs[..|cs| - 1]);
      SizeIs(cs[|cs| - 1]);
    }
  }

  // The parser undoes the serialiser for exactly the trees with NUL-free keys and even text
  // whose size the 16-bit length field can count.
  lemma RoundTrip(n: VerNode)
    ensures |NodeBytes(n)| == NodeSize(n)
    ensures ParseNode(NodeBytes(n), 0) == Some(Parsed(n, NodeSize(n))) <==> WellFormed(n) && NodeSize(n) < 0x1_0000
  {
    hide NodeBytes, ParseNode, WellFormed, NodeSize;
    var s := NodeBytes(n);
    SizeIs(n);
    if WellFormed(n) && |s| < 0x1_0000 {
      WholeHeld(s);
      NodeParsed(s, 0, n);
    }
    ParsedWellFormed(s, 0);
    ParsedEnd(s, 0);
  }

  // A key with a NUL in it does not come back, nor does a value too long for the length field.
  lemma NulKeyLost()
    ensures var n := VerNode([0], [], false, []);
            ParseNode(NodeBytes(n), 0) != Some(Parsed(n, |NodeBytes(n)|))
  {
    hide NodeBytes, ParseNode, NodeSize;
    var n := VerNode([0], [], false, []);
    assert n.key[0] == 0;
    RoundTrip(n);
  }

  lemma LongValueLost()
    ensures var n := VerNode([], Zeros(0x1_0000), false, []);
            ParseNode(NodeBytes(n), 0) != Some(Parsed(n, |NodeBytes(n)|))
  {
    hide NodeBytes, ParseNode, NodeSize, Inner, Zeros, WellFormed;
    var n := VerNode([], Zeros(0x1_0000), false, []);
    InnerLength(n);
    NodeLength(n);
    AlignUp(2 + |Inner(n)|);
    RoundTrip(n);
  }

  // ----- the version block of an executable -----

  // The four numbers of the version, and the texts as UTF-16 code units.
  datatype VersionInfo = VersionInfo(
    nums: (u16, u16, u16, u16),
    version: seq<u16>, company: seq<u16>, product: seq<u16>, description: seq<u16>, copyright: seq<u16>,
    internalName: seq<u16>)

  function Units(s: string): (u: seq<u16>)
    ensures |u| == |s|
  {
    seq(|s|, i requires 0 <= i < |s| => (s[i] as int) % 0x1_0000)
  }

  function Fixed(v: VersionInfo): seq<byte> {
    var number := Le16(v.nums.1) + Le16(v.nums.0) + Le16(v.nums.3) + Le16(v.nums.2);
    Le32(0xFEEF04BD) + Le32(0x00010000) + number + number
    + Le32(0x3f) + Le32(0) + Le32(0x40004) + Le32(1) + Le32(0) + Le32(0) + Le32(0)
  }

  function TextNode(key: string, text: seq<u16>): VerNode {
    VerNode(Units(key), UnitBytes(text + [0]), true, [])
  }

  // A node for every text that is not empty.
  function TextNodes(texts: seq<(string, seq<u16>)>): seq<VerNode> {
    if texts == [] then []
    else
      var (key, text) := texts[|texts| - 1];
      TextNodes(texts[..|texts| - 1]) + if text == [] then [] else [TextNode(key, text)]
  }

  function Texts(v: VersionInfo): seq<(string, seq<u16>)> {
    [("CompanyName", v.company), ("FileDescription", v.description), ("FileVersion", v.version),
     ("InternalName", v.internalName), ("LegalCopyright", v.copyright), ("ProductName", v.product),
     ("ProductVersion", v.version)]
  }

  function TreeOf(fixed: seq<byte>, nodes: seq<VerNode>): VerNode {
    VerNode(Units("VS_VERSION_INFO"), fixed, false, [
      VerNode(Units("StringFileInfo"), [], true, [VerNode(Units("040904B0"), [], true, nodes)]),
      VerNode(Units("VarFileInfo"), [], true, [VerNode(Units("Translation"), Le16(0x0409) + Le16(0x04B0), false, [])])])
  }

  function VersionTree(v: VersionInfo): VerNode {
    TreeOf(Fixed(v), TextNodes(Texts(v)))
  }

  predicate AsciiKey(s: string) { forall i :: 0 <= i < |s| ==> 0 < s[i] as int < 0x80 }

  lemma KeyUnits(s: string)
    requires AsciiKey(s)
    ensures 0 !in Units(s)
  {
  }

  lemma TextNodeWellFormed(key: string, text: seq<u16>)
    requires AsciiKey(key)
    ensures WellFormed(TextNode(key, text))
  {
    hide Units, UnitBytes;
    KeyUnits(key);
  }

  lemma {:induction false} TextNodesWellFormed(texts: seq<(string, seq<u16>)>)
    requires forall i :: 0 <= i < |texts| ==> AsciiKey(texts[i].0)
    ensures forall n :: n in TextNodes(texts) ==> WellFormed(n)
  {
    hide TextNode, WellFormed, AsciiKey;
    if texts != [] {
      var (key, text) := texts[|texts| - 1];
      TextNodesWellFormed(texts[..|texts| - 1]);
      TextNodeWellFormed(key, text);
    }
  }

  lemma TextsAscii(v: VersionInfo)
    ensures forall i :: 0 <= i < |Texts(v)| ==> AsciiKey(Texts(v)[i].0)
  {
  }

  lemma FixedKeys()
    ensures 0 !in Units("VS_VERSION_INFO") && 0 !in Units("StringFileInfo") && 0 !in Units("040904B0")
    ensures 0 !in Units("VarFileInfo") && 0 !in Units("Translation")
  {
    hide Units;
    KeyUnits("VS_VERSION_INFO");
    KeyUnits("StringFileInfo");
    KeyUnits("040904B0");
    KeyUnits("VarFileInfo");
    KeyUnits("Translation");
  }

  lemma NodeWellFormed(n: VerNode)
    requires 0 !in n.key && (n.text ==> n.value == []) && forall c :: c in n.children ==> WellFormed(c)
    ensures WellFormed(n)
  {
  }

  lemma TreeWellFormed(v: VersionInfo)
    ensures WellFormed(VersionTree(v))
  {
    hide Units, UnitBytes, Fixed, Texts, TextNodes, AsciiKey, WellFormed;
    FixedKeys();
    TextsAscii(v);
    TextNodesWellFormed(Texts(v));
    var root := VersionTree(v);
    var strings, vars := root.children[0], root.children[1];
    NodeWellFormed(strings.children[0]);
    NodeWellFormed(strings);
    NodeWellFormed(vars.children[0]);
    NodeWellFormed(vars);
    NodeWellFormed(root);
  }

  method StringTable(texts: seq<(string, seq<u16>)>) returns (table: seq<VerNode>)
    ensures table == TextNodes(texts)
  {
    hide UnitBytes, Units;
    table := [];
    for i := 0 to |texts|
      invariant table == TextNodes(texts[..i])
    {
      assert texts[..i + 1][..i] == texts[..i] && texts[..i + 1][i] == texts[i];
      var (key, text) := texts[i];
      if text != [] {
        var value := Utf16z(text);
        table := table + [VerNode(Units(key), value, true, [])];
      }
    }
    assert texts[..|texts|] == texts;
  }

  // A reader of the whole of data finds the tree n.
  ghost predicate ReadsAs(data: seq<byte>, n: VerNode) {
    ParseNode(data, 0) == Some(Parsed(n, |data|))
  }

  lemma IsTree(v: VersionInfo)
    ensures VersionTree(v) == TreeOf(Fixed(v), TextNodes(Texts(v)))
  {
    hide TreeOf, Fixed, TextNodes, Texts;
  }

  // ----- reading the block as values -----

  // The four numbers of a version, as two words each with the high half first.
  function Quad(b: seq<byte>, at: nat): (u16, u16, u16, u16)
    requires at + 8 <= |b|
  {
    (U16(b, at + 2), U16(b, at), U16(b, at + 6), U16(b, at + 4))
  }

  datatype FixedInfo = FixedInfo(file: (u16, u16, u16, u16), product: (u16, u16, u16, u16), mask: u32, flags: u32,
                                 os: u32, kind: u32, subtype: u32)

  // VS_FIXEDFILEINFO: signature and structure version, the file and the product version, the flags
  // and which of them count, the system, the kind of file, and a date that is not set.
  function ReadFixed(b: seq<byte>): Option<FixedInfo> {
    if |b| != 52 || U32(b, 0) != 0xFEEF04BD || U32(b, 4) != 0x1_0000 || U32(b, 44) != 0 || U32(b, 48) != 0 then None
    else
      Some(FixedInfo(Quad(b, 8), Quad(b, 16), U32(b, 24), U32(b, 28), U32(b, 32), U32(b, 36), U32(b, 40)))
  }

  // What they are to say: VOS_NT_WINDOWS32 and VFT_APP.
  function Application(nums: (u16, u16, u16, u16)): FixedInfo {
    FixedInfo(nums, nums, 0x3f, 0, 0x40004, 1, 0)
  }

  // A string: its name, and its text up to the first NUL, if there is one.
  datatype Text = Text(name: seq<u16>, text: Option<seq<u16>>)

  function TextOf(n: VerNode): Text {
    var r := ReadKey(n.value, 0);
    Text(n.key, if r.None? then None else Some(r.value.0))
  }

  function TextsOf(nodes: seq<VerNode>): seq<Text> {
    seq(|nodes|, i requires 0 <= i < |nodes| => TextOf(nodes[i]))
  }

  // The first of the nodes with that key.
  function Under(nodes: seq<VerNode>, key: seq<u16>): Option<VerNode> {
    if nodes == [] then None else if nodes[0].key == key then Some(nodes[0]) else Under(nodes[1..], key)
  }

  function HexDigit(d: nat): u16
    requires d < 0x10
  {
    if d < 10 then '0' as int + d else 'A' as int + (d - 10)
  }

  function Hex4(n: u16): seq<u16> {
    [HexDigit(n / 0x1000), HexDigit(n / 0x100 % 0x10), HexDigit(n / 0x10 % 0x10), HexDigit(n % 0x10)]
  }

  datatype Version = Version(fixed: FixedInfo, language: u16, codePage: u16, texts: seq<Text>)

  // The version block that fills data: the numbers of the root, the language and code page of the
  // translation, and the texts of the table that stands under these.
  function ReadVersion(data: seq<byte>): Option<Version> {
    var r := ParseNode(data, 0);
    if r.None? || r.value.end != |data| then None else ReadTree(r.value.node)
  }

  function ReadTree(root: VerNode): Option<Version> {
    var fixed := ReadFixed(root.value);
    var strings, vars := Under(root.children, Units("StringFileInfo")), Under(root.children, Units("VarFileInfo"));
    if root.key != Units("VS_VERSION_INFO") || fixed.None? || strings.None? || vars.None? then None
    else
      var translation := Under(vars.value.children, Units("Translation"));
      if translation.None? || |translation.value.value| < 4 then None
      else
        var language, codePage := U16(translation.value.value, 0), U16(translation.value.value, 2);
        var table := Under(strings.value.children, Hex4(language) + Hex4(codePage));
        if table.None? then None
        else Some(Version(fixed.value, language, codePage, TextsOf(table.value.children)))
  }

  // The text that stands under a name.
  function Find(texts: seq<Text>, name: seq<u16>): Option<Text> {
    if texts == [] then None else if texts[0].name == name then Some(texts[0]) else Find(texts[1..], name)
  }

  // The text is there under its name, or not at all if it is empty.
  ghost predicate Shows(texts: seq<Text>, name: string, text: seq<u16>) {
    Find(texts, Units(name)) == if text == [] then None else Some(Text(Units(name), Some(text)))
  }

  // What a reader is to find: every text that is not empty, under its name.
  function Named(texts: seq<(string, seq<u16>)>): seq<Text> {
    if texts == [] then []
    else
      var (key, text) := texts[|texts| - 1];
      Named(texts[..|texts| - 1]) + if text == [] then [] else [Text(Units(key), Some(text))]
  }

  predicate NulFree(texts: seq<(string, seq<u16>)>) {
    forall i :: 0 <= i < |texts| ==> 0 !in texts[i].1
  }

  lemma QuadHeld(b: seq<byte>, at: nat, nums: (u16, u16, u16, u16))
    requires HoldsBytes(b, at, Le16(nums.1) + Le16(nums.0) + Le16(nums.3) + Le16(nums.2))
    ensures at + 8 <= |b| && Quad(b, at) == nums
  {
    hide HoldsBytes, Le16;
    var p, q, r, s := Le16(nums.1), Le16(nums.0), Le16(nums.3), Le16(nums.2);
    HoldsLength(b, at, p + q + r + s);
    HoldsSplit(b, at, p + q + r, s);
    HoldsSplit(b, at, p + q, r);
    HoldsSplit(b, at, p, q);
    HeldFields(b, at, nums.1);
    HeldFields(b, at + 2, nums.0);
    HeldFields(b, at + 4, nums.3);
    HeldFields(b, at + 6, nums.2);
  }

  lemma FixedRead(v: VersionInfo)
    ensures ReadFixed(Fixed(v)) == Some(Application(v.nums))
  {
    hide HoldsBytes, Le16, Le32, Quad, U32;
    var b := Fixed(v);
    var number := Le16(v.nums.1) + Le16(v.nums.0) + Le16(v.nums.3) + Le16(v.nums.2);
    var head, tail := Le32(0xFEEF04BD) + Le32(0x00010000), FixedTail();
    FixedParts(v);
    WholeHeld(b);
    HoldsSplit(b, 0, head + number + number, tail);
    HoldsSplit(b, 0, head + number, number);
    HoldsSplit(b, 0, head, number);
    HoldsSplit(b, 0, Le32(0xFEEF04BD), Le32(0x00010000));
    HeldFields(b, 0, 0xFEEF04BD);
    HeldFields(b, 4, 0x00010000);
    TailHeld(b, 24);
    FieldIs(b, 0, 0xFEEF04BD);
    FieldIs(b, 4, 0x00010000);
    QuadHeld(b, 8, v.nums);
    QuadHeld(b, 16, v.nums);
  }

  lemma TailHeld(b: seq<byte>, at: nat)
    requires HoldsBytes(b, at, FixedTail())
    ensures at + 28 <= |b|
    ensures U32(b, at) == 0x3f && U32(b, at + 4) == 0 && U32(b, at + 8) == 0x40004 && U32(b, at + 12) == 1
    ensures U32(b, at + 16) == 0 && U32(b, at + 20) == 0 && U32(b, at + 24) == 0
  {
    hide HoldsBytes, Le32, U32;
    HoldsLength(b, at, FixedTail());
    var m, z, o, k := Le32(0x3f), Le32(0), Le32(0x40004), Le32(1);
    HoldsSplit(b, at, m + z + o + k + z + z, z);
    HoldsSplit(b, at, m + z + o + k + z, z);
    HoldsSplit(b, at, m + z + o + k, z);
    HoldsSplit(b, at, m + z + o, k);
    HoldsSplit(b, at, m + z, o);
    HoldsSplit(b, at, m, z);
    HeldFields(b, at, 0x3f);
    HeldFields(b, at + 4, 0);
    HeldFields(b, at + 8, 0x40004);
    HeldFields(b, at + 12, 1);
    HeldFields(b, at + 16, 0);
    HeldFields(b, at + 20, 0);
    HeldFields(b, at + 24, 0);
  }

  function FixedTail(): (b: seq<byte>)
    ensures |b| == 28
  {
    Le32(0x3f) + Le32(0) + Le32(0x40004) + Le32(1) + Le32(0) + Le32(0) + Le32(0)
  }

  lemma FixedParts(v: VersionInfo)
    ensures var number := Le16(v.nums.1) + Le16(v.nums.0) + Le16(v.nums.3) + Le16(v.nums.2);
            Fixed(v) == Le32(0xFEEF04BD) + Le32(0x00010000) + number + number + FixedTail()
  {
    hide Le16, Le32;
  }

  // A text reads back exactly when it has no NUL in it.
  lemma TextRead(key: string, text: seq<u16>)
    ensures TextOf(TextNode(key, text)) == Text(Units(key), Some(text)) <==> 0 !in text
  {
    hide ReadKey, UnitBytes, Units;
    var value := UnitBytes(text + [0]);
    if 0 !in text {
      WholeHeld(value);
      KeyRead(value, 0, text, 0);
      assert text[0..] == text;
    }
    KeyHasNoZero(value, 0);
  }

  lemma TextsSnoc(nodes: seq<VerNode>, n: VerNode)
    ensures TextsOf(nodes + [n]) == TextsOf(nodes) + [TextOf(n)]
  {
    hide TextOf;
  }

  lemma {:induction false} TableRead(texts: seq<(string, seq<u16>)>)
    ensures |TextsOf(TextNodes(texts))| == |Named(texts)|
    ensures TextsOf(TextNodes(texts)) == Named(texts) <==> NulFree(texts)
  {
    hide TextOf, TextNode, TextsOf, TextNodes, Named, NulFree, Units;
    if texts == [] {
      NoTexts();
    } else {
      var n := |texts| - 1;
      var before, key, text := texts[..n], texts[n].0, texts[n].1;
      TableRead(before);
      LastText(texts);
      NulFreeSnoc(texts);
      if text != [] {
        TextRead(key, text);
        TextsSnoc(TextNodes(before), TextNode(key, text));
        EqualSnoc(TextsOf(TextNodes(before)), TextOf(TextNode(key, text)), Named(before), Text(Units(key), Some(text)));
      }
    }
  }

  lemma LastText(texts: seq<(string, seq<u16>)>)
    requires texts != []
    ensures var before, (key, text) := texts[..|texts| - 1], texts[|texts| - 1];
            && TextNodes(texts) == (if text == [] then TextNodes(before) else TextNodes(before) + [TextNode(key, text)])
            && Named(texts) == if text == [] then Named(before) else Named(before) + [Text(Units(key), Some(text))]
  {
    hide TextNode, Units;
    var before := texts[..|texts| - 1];
    assert TextNodes(before) + [] == TextNodes(before) && Named(before) + [] == Named(before);
  }

  lemma NoTexts()
    ensures TextsOf(TextNodes([])) == [] && Named([]) == [] && NulFree([])
  {
  }

  lemma NulFreeSnoc(texts: seq<(string, seq<u16>)>)
    requires texts != []
    ensures NulFree(texts) <==> NulFree(texts[..|texts| - 1]) && 0 !in texts[|texts| - 1].1
  {
    var n := |texts| - 1;
    assert forall i :: 0 <= i < n ==> texts[..n][i] == texts[i];
  }

  lemma EqualSnoc(a: seq<Text>, x: Text, b: seq<Text>, y: Text)
    requires |a| == |b|
    ensures a + [x] == b + [y] <==> a == b && x == y
  {
    assert (a + [x])[..|a|] == a && (b + [y])[..|b|] == b && (a + [x])[|a|] == x && (b + [y])[|b|] == y;
  }

  // What a reader finds in the tree.
  lemma TreeRead(v: VersionInfo, data: seq<byte>)
    requires ParseNode(data, 0) == Some(Parsed(VersionTree(v), |data|))
    ensures ReadVersion(data) == Some(Version(Application(v.nums), 0x0409, 0x04B0, TextsOf(TextNodes(Texts(v)))))
  {
    hide ParseNode, Fixed, Units, Texts, TextNodes, TextsOf, ReadFixed, Hex4, Le16, U16;
    FixedRead(v);
    var strings, vars := VersionTree(v).children[0], VersionTree(v).children[1];
    KeysDiffer(strings, vars);
    OneUnder(vars.children[0], Units("Translation"));
    OneUnder(strings.children[0], Units("040904B0"));
    TranslationRead();
  }

  lemma KeysDiffer(strings: VerNode, vars: VerNode)
    requires strings.key == Units("StringFileInfo") && vars.key == Units("VarFileInfo")
    ensures Under([strings, vars], Units("StringFileInfo")) == Some(strings)
    ensures Under([strings, vars], Units("VarFileInfo")) == Some(vars)
  {
    hide Units;
    assert |Units("StringFileInfo")| != |Units("VarFileInfo")|;
    assert [strings, vars][1..] == [vars];
  }

  lemma OneUnder(n: VerNode, key: seq<u16>)
    requires n.key == key
    ensures Under([n], key) == Some(n)
  {
  }

  lemma TranslationRead()
    ensures var b := Le16(0x0409) + Le16(0x04B0);
            |b| == 4 && U16(b, 0) == 0x0409 && U16(b, 2) == 0x04B0
    ensures Hex4(0x0409) + Hex4(0x04B0) == Units("040904B0")
  {
  }

  lemma {:induction false} FindSnoc(texts: seq<Text>, t: Text, name: seq<u16>)
    ensures Find(texts + [t], name)
         == if Find(texts, name).Some? then Find(texts, name) else if t.name == name then Some(t) else None
  {
    if texts != [] {
      assert (texts + [t])[1..] == texts[1..] + [t];
      FindSnoc(texts[1..], t, name);
    }
  }

  // With one text to a name, each is found under its name.
  lemma {:induction false} FindNamed(texts: seq<(string, seq<u16>)>, k: nat, n: nat)
    requires k < |texts| && n <= |texts|
    requires forall i :: 0 <= i < |texts| && i != k ==> Units(texts[i].0) != Units(texts[k].0)
    ensures Find(Named(texts[..n]), Units(texts[k].0))
         == if k < n && texts[k].1 != [] then Some(Text(Units(texts[k].0), Some(texts[k].1))) else None
  {
    hide Units, Find, Named, TextNodes, TextNode;
    if n == 0 {
      NothingFound(Units(texts[k].0));
    } else {
      FindNamed(texts, k, n - 1);
      var (key, text) := texts[n - 1];
      assert texts[..n][..n - 1] == texts[..n - 1];
      LastText(texts[..n]);
      if text != [] {
        FindSnoc(Named(texts[..n - 1]), Text(Units(key), Some(text)), Units(texts[k].0));
      }
    }
  }

  lemma NothingFound(name: seq<u16>)
    ensures Named([]) == [] && Find([], name) == None
  {
  }

  lemma NamesDiffer(a: string, b: string)
    requires AsciiKey(a) && AsciiKey(b) && Units(a) == Units(b)
    ensures a == b
  {
    forall i | 0 <= i < |a| ensures a[i] == b[i] {
      assert Units(a)[i] == Units(b)[i];
    }
  }

  lemma NamesOnce(v: VersionInfo)
    ensures forall i, j :: 0 <= i < j < 7 ==> Texts(v)[i].0 != Texts(v)[j].0
  {
    assert "CompanyName"[0] != "FileVersion"[0] && "CompanyName"[0] != "ProductName"[0];
    assert "FileVersion"[0] != "ProductName"[0] && "LegalCopyright"[0] != "ProductVersion"[0];
  }

  lemma TextShows(v: VersionInfo, k: nat)
    requires k < 7
    ensures Shows(Named(Texts(v)), Texts(v)[k].0, Texts(v)[k].1)
  {
    hide Units, Named, Find, AsciiKey;
    var texts := Texts(v);
    TextsAscii(v);
    NamesOnce(v);
    assert texts[..7] == texts;
    forall i | 0 <= i < 7 && i != k ensures Units(texts[i].0) != Units(texts[k].0) {
      if Units(texts[i].0) == Units(texts[k].0) {
        NamesDiffer(texts[i].0, texts[k].0);
      }
    }
    FindNamed(texts, k, 7);
  }

  // Each text of v stands under the name it is meant for.
  lemma TextsShow(v: VersionInfo)
    ensures var texts := Named(Texts(v));
            && Shows(texts, "CompanyName", v.company) && Shows(texts, "FileDescription", v.description)
            && Shows(texts, "FileVersion", v.version) && Shows(texts, "InternalName", v.internalName)
            && Shows(texts, "LegalCopyright", v.copyright) && Shows(texts, "ProductName", v.product)
            && Shows(texts, "ProductVersion", v.version)
  {
    hide Named, Shows;
    TextShows(v, 0);
    TextShows(v, 1);
    TextShows(v, 2);
    TextShows(v, 3);
    TextShows(v, 4);
    TextShows(v, 5);
    TextShows(v, 6);
  }

  // The size of a string, of all strings that are not empty, and of the whole block, from the
  // lengths of the names and texts alone.
  function TextSize(key: string, text: seq<u16>): nat {
    Align4(Align4(8 + 2 * |key|) + 2 * |text| + 2)
  }

  function TextsSize(texts: seq<(string, seq<u16>)>): nat {
    if texts == [] then 0
    else
      var (key, text) := texts[|texts| - 1];
      TextsSize(texts[..|texts| - 1]) + if text == [] then 0 else TextSize(key, text)
  }

  function VersionSize(v: VersionInfo): nat { 220 + TextsSize(Texts(v)) }

  lemma EndSnoc(at: nat, cs: seq<VerNode>, c: VerNode)
    ensures EndOf(at, cs + [c]) == Align4(EndOf(at, cs)) + NodeSize(c)
  {
    hide NodeSize, Align4;
    assert (cs + [c])[..|cs|] == cs;
  }

  lemma LeafSize(n: VerNode)
    requires n.children == []
    ensures NodeSize(n) == Align4(Align4(8 + 2 * |n.key|) + |n.value|)
  {
    hide Align4;
  }

  lemma {:induction false} TextsEnd(at: nat, texts: seq<(string, seq<u16>)>)
    requires at % 4 == 0
    ensures EndOf(at, TextNodes(texts)) == at + TextsSize(texts) && TextsSize(texts) % 4 == 0
  {
    hide TextNodes, TextNode, NodeSize, Align4, EndOf, TextSize;
    if texts == [] {
      NoTextsEnd(at);
    } else {
      var before := texts[..|texts| - 1];
      var (key, text) := texts[|texts| - 1];
      TextsEnd(at, before);
      LastText(texts);
      if text != [] {
        EndSnoc(at, TextNodes(before), TextNode(key, text));
        TextNodeSize(key, text);
        AddFours(TextsSize(before), at);
        AlignedIs(at + TextsSize(before));
        AddFours(TextSize(key, text), TextsSize(before));
      }
    }
  }

  lemma NoTextsEnd(at: nat)
    ensures TextNodes([]) == [] && EndOf(at, []) == at && TextsSize([]) == 0
  {
  }

  lemma TextNodeSize(key: string, text: seq<u16>)
    ensures NodeSize(TextNode(key, text)) == TextSize(key, text) && TextSize(key, text) % 4 == 0
  {
    hide UnitBytes, Units, NodeSize, Align4;
    LeafSize(TextNode(key, text));
    AlignedSize(Align4(8 + 2 * |key|) + 2 * |text| + 2);
  }

  lemma AlignedSize(n: nat)
    ensures Align4(n) % 4 == 0
  {
    hide PadLen;
    PadUp(n);
  }

  lemma FixedSize(v: VersionInfo)
    ensures |Fixed(v)| == 52
  {
    hide Le16, Le32;
    FixedParts(v);
  }

  // The sizes of the nodes around the strings.
  lemma VersionSizeIs(v: VersionInfo)
    ensures NodeSize(VersionTree(v)) == VersionSize(v)
  {
    hide Fixed, Texts, TextNodes, TextsSize, Units, NodeSize, EndOf, Le16;
    var root := VersionTree(v);
    var strings, vars := root.children[0], root.children[1];
    var table, translation := strings.children[0], vars.children[0];
    FixedSize(v);
    TextsEnd(24, Texts(v));
    SizeFrom(table, 24);
    LeafSize(translation);
    OneChild(strings, 36, table);
    OneChild(vars, 32, translation);
    var s := TextsSize(Texts(v));
    TwoChildren(root, 92, strings, vars);
    FourMultiples(s);
  }

  // Sums of multiples of four stay as they are.
  lemma FourMultiples(s: nat)
    requires s % 4 == 0
    ensures Align4(24 + s) == 24 + s && Align4(60 + s) == 60 + s && Align4(152 + s) == 152 + s
        && Align4(220 + s) == 220 + s
  {
  }

  lemma SizeFrom(n: VerNode, at: nat)
    requires ValueAt(n) + |n.value| == at
    ensures NodeSize(n) == Align4(EndOf(at, n.children))
  {
  }

  lemma OneChild(n: VerNode, at: nat, c: VerNode)
    requires n.children == [c] && ValueAt(n) + |n.value| == at
    ensures NodeSize(n) == Align4(Align4(at) + NodeSize(c))
  {
    hide Align4;
    assert [] + [c] == [c];
    EndSnoc(at, [], c);
  }

  lemma TwoChildren(n: VerNode, at: nat, c: VerNode, d: VerNode)
    requires n.children == [c, d] && ValueAt(n) + |n.value| == at
    ensures NodeSize(n) == Align4(Align4(Align4(at) + NodeSize(c)) + NodeSize(d))
  {
    hide Align4;
    assert [] + [c] == [c] && [c] + [d] == [c, d];
    EndSnoc(at, [], c);
    EndSnoc(at, [c], d);
  }

  // The serialised tree of v, read back.
  lemma VersionReadBack(v: VersionInfo, data: seq<byte>)
    requires data == NodeBytes(VersionTree(v))
    ensures |data| == VersionSize(v)
    ensures ReadsAs(data, VersionTree(v)) <==> VersionSize(v) < 0x1_0000
    ensures ReadVersion(data) == Some(Version(Application(v.nums), 0x0409, 0x04B0, Named(Texts(v))))
            <==> VersionSize(v) < 0x1_0000 && NulFree(Texts(v))
  {
    hide ParseNode, NodeBytes, NodeSize, WellFormed, Texts, TextNodes, VersionTree, TextsOf, Named, NulFree,
      ReadVersion;
    hide VersionSize;
    VersionSizeIs(v);
    TreeWellFormed(v);
    RoundTrip(VersionTree(v));
    TableRead(Texts(v));
    if |data| < 0x1_0000 {
      TreeRead(v, data);
    }
    ReadWhole(data);
  }

  // versionResource: the block is as long as its texts make it, and a reader finds in it the
  // numbers and the texts given exactly when the 16-bit length can count it and no text has a NUL
  // in it.
  method VersionResource(v: VersionInfo) returns (data: seq<byte>)
    ensures |data| == VersionSize(v)
    ensures ReadsAs(data, VersionTree(v)) <==> VersionSize(v) < 0x1_0000
    ensures ReadVersion(data) == Some(Version(Application(v.nums), 0x0409, 0x04B0, Named(Texts(v))))
            <==> VersionSize(v) < 0x1_0000 && NulFree(Texts(v))
    ensures VersionSize(v) < 0x1_0000 && NulFree(Texts(v)) ==>
              var texts := ReadVersion(data).value.texts;
              && Shows(texts, "CompanyName", v.company) && Shows(texts, "FileDescription", v.description)
              && Shows(texts, "FileVersion", v.version) && Shows(texts, "InternalName", v.internalName)
              && Shows(texts, "LegalCopyright", v.copyright) && Shows(texts, "ProductName", v.product)
              && Shows(texts, "ProductVersion", v.version)
  {
    hide ParseNode, NodeBytes, Fixed, Texts, TextNodes, TreeOf, VersionTree, Named, NulFree, ReadVersion, VersionSize,
      Shows, Application;
    hide ReadsAs;
    var table := StringTable(Texts(v));
    var root := TreeOf(Fixed(v), table);
    IsTree(v);
    data := SerializeNode(root);
    VersionReadBack(v, data);
    TextsShow(v);
  }

  // A company name that is too long, and one with a NUL in it: neither block gives the texts back.
  function CompanyOnly(company: seq<u16>): VersionInfo {
    VersionInfo((1, 0, 0, 0), [], company, [], [], [], [])
  }

  lemma LongCompanyLost()
    ensures var v := CompanyOnly(seq(0x8000, _ => 0x41));
            ReadVersion(NodeBytes(VersionTree(v)))
            != Some(Version(Application(v.nums), 0x0409, 0x04B0, Named(Texts(v))))
  {
    hide ReadVersion, NodeBytes, VersionTree, Named, Texts;
    var company: seq<u16> := seq(0x8000, _ => 0x41);
    CompanySize(company);
    VersionReadBack(CompanyOnly(company), NodeBytes(VersionTree(CompanyOnly(company))));
  }

  lemma NulCompanyLost()
    ensures var v := CompanyOnly([0x41, 0, 0x42]);
            ReadVersion(NodeBytes(VersionTree(v)))
            != Some(Version(Application(v.nums), 0x0409, 0x04B0, Named(Texts(v))))
  {
    hide ReadVersion, NodeBytes, VersionTree, Named, VersionSize;
    var v := CompanyOnly([0x41, 0, 0x42]);
    assert Texts(v)[0].1[1] == 0;
    VersionReadBack(v, NodeBytes(VersionTree(v)));
  }

  lemma CompanySize(company: seq<u16>)
    requires company != []
    ensures VersionSize(CompanyOnly(company)) == 220 + TextSize("CompanyName", company)
    ensures VersionSize(CompanyOnly(company)) >= 2 * |company|
  {
    hide TextSize;
    var texts := Texts(CompanyOnly(company));
    assert forall n :: 1 < n <= 7 ==> texts[..n][..n - 1] == texts[..n - 1] && texts[..n][n - 1].1 == [];
    assert texts == texts[..7];
    OnlyFirst(texts, 7);
    TextFits("CompanyName", company);
  }

  lemma {:induction false} OnlyFirst(texts: seq<(string, seq<u16>)>, n: nat)
    requires 0 < n <= |texts| && texts[0].1 != [] && forall i :: 0 < i < |texts| ==> texts[i].1 == []
    ensures TextsSize(texts[..n]) == TextSize(texts[0].0, texts[0].1)
  {
    hide TextSize;
    assert texts[..n][..n - 1] == texts[..n - 1];
    if n > 1 {
      OnlyFirst(texts, n - 1);
    } else {
      assert TextsSize(texts[..0]) == 0;
    }
  }

  lemma TextFits(key: string, text: seq<u16>)
    ensures TextSize(key, text) >= 2 * |text|
  {
    AlignUp(8 + 2 * |key|);
    AlignUp(Align4(8 + 2 * |key|) + 2 * |text| + 2);
  }

  lemma ReadWhole(data: seq<byte>)
    ensures ReadVersion(data).Some? ==> |data| < 0x1_0000
  {
    hide ParseNode, ReadTree;
    ParsedEnd(data, 0);
  }
}
