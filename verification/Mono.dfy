/**
 One-bit bitmaps and the packing of dots into bytes, most significant bit leftmost
 (internal/adapters/printing/binarizer/binarizer.go, internal/domain/printing/artifact.go).
 */
module Mono {
  import opened Bytes
  import opened Numbers

  // A decoded 8-bit gray image: rows of width pixels.
  datatype Gray = Gray(width: nat, rows: seq<seq<byte>>) {
    ghost predicate Valid() {
      forall y :: 0 <= y < |rows| ==> |rows[y]| == width
    }

    function Height(): nat { |rows| }
  }

  datatype MonoBitmap = MonoBitmap(width: nat, height: nat, bits: seq<byte>) {
    function Stride(): nat { StrideOf(width) }

    ghost predicate Valid() { |bits| == Stride() * height }
  }

  function StrideOf(width: nat): (s: nat)
    ensures width <= 8 * s < width + 8
  {
    (width + 7) / 8
  }

  // Bit j of b, counted from the least significant one.
  predicate BitFromRight(b: nat, j: nat) {
    if j == 0 then b % 2 == 1 else BitFromRight(b / 2, j - 1)
  }

  // The n-bit number b with bit j set.
  function SetFromRight(b: nat, j: nat, n: nat): (r: nat)
    requires j < n && b < Pow2(n)
    ensures r < Pow2(n)
    ensures r == if BitFromRight(b, j) then b else b + Pow2(j)
  {
    HalfFits(b, n);
    var half, low := b / 2, b % 2;
    if j == 0 then b - low + 1 else 2 * SetFromRight(half, j - 1, n - 1) + low
  }

  lemma HalfFits(b: nat, n: nat)
    requires 0 < n && b < Pow2(n)
    ensures Pow2(n) == 2 * Pow2(n - 1) && b == 2 * (b / 2) + b % 2 && 0 <= b % 2 < 2 && b / 2 < Pow2(n - 1)
  {
  }

  // Column k of a byte: the most significant bit is column 0.
  predicate Bit(b: byte, k: nat)
    requires k < 8
  {
    BitFromRight(b, 7 - k)
  }

  // b | 0x80 >> k
  function SetBit(b: byte, k: nat): byte
    requires k < 8
  {
    assert Pow2(8) == 0x100;
    SetFromRight(b, 7 - k, 8)
  }

  lemma {:induction false} SetFromRightSets(b: nat, j: nat, n: nat, i: nat)
    requires j < n && b < Pow2(n)
    ensures BitFromRight(SetFromRight(b, j, n), i) <==> i == j || BitFromRight(b, i)
  {
    hide SetFromRight, Pow2;
    HalfFits(b, n);
    SetParts(b, j, n);
    if j > 0 && i > 0 {
      SetFromRightSets(b / 2, j - 1, n - 1, i - 1);
    }
  }

  // The half and the lowest bit of a number with a bit set.
  lemma SetParts(b: nat, j: nat, n: nat)
    requires j < n && b < Pow2(n)
    ensures b / 2 < Pow2(n - 1)
    ensures var r := SetFromRight(b, j, n);
            && r % 2 == (if j == 0 then 1 else b % 2)
            && r / 2 == if j == 0 then b / 2 else SetFromRight(b / 2, j - 1, n - 1)
  {
    hide BitFromRight, Pow2;
    HalfFits(b, n);
    if j == 0 {
      TwiceAnd(b / 2, 1);
    } else {
      TwiceAnd(SetFromRight(b / 2, j - 1, n - 1), b % 2);
    }
  }

  lemma TwiceAnd(half: nat, low: nat)
    requires low < 2
    ensures (2 * half + low) % 2 == low && (2 * half + low) / 2 == half
  {
  }

  lemma SetBitSets(b: byte, k: nat, j: nat)
    requires k < 8 && j < 8
    ensures Bit(SetBit(b, k), j) <==> j == k || Bit(b, j)
  {
    assert Pow2(8) == 0x100;
    SetFromRightSets(b, 7 - k, 8, 7 - j);
  }

  // Column k counts 0x80, 0x40 and so on: it is set when the byte holds that value, and setting it
  // adds that value if it is not there.
  lemma BitWorth(b: byte, k: nat)
    requires k < 8
    ensures var m := [0x80, 0x40, 0x20, 0x10, 8, 4, 2, 1][k];
            (Bit(b, k) <==> b / m % 2 == 1) && SetBit(b, k) == if b / m % 2 == 1 then b else b + m
  {
    assert Pow2(8) == 0x100;
    BitFromRightIs(b, 7 - k);
    PowersOfTwo();
  }

  lemma PowersOfTwo()
    ensures Pow2(0) == 1 && Pow2(1) == 2 && Pow2(2) == 4 && Pow2(3) == 8
    ensures Pow2(4) == 0x10 && Pow2(5) == 0x20 && Pow2(6) == 0x40 && Pow2(7) == 0x80
  {
  }

  lemma {:induction false} BitFromRightIs(b: nat, j: nat)
    ensures Pow2(j) > 0 && (BitFromRight(b, j) <==> b / Pow2(j) % 2 == 1)
  {
    if j > 0 {
      BitFromRightIs(b / 2, j - 1);
      HalvedAgain(b, Pow2(j - 1));
    }
  }

  lemma HalvedAgain(b: nat, m: nat)
    requires m > 0
    ensures b / 2 / m == b / (2 * m)
  {
    var q, r := b / (2 * m), b % (2 * m);
    assert b == 2 * m * q + r;
    assert b / 2 == m * q + r / 2;
    assert r / 2 < m;
    QuotientIs(b / 2, m, q, r / 2);
  }

  lemma QuotientIs(a: nat, m: nat, q: nat, r: nat)
    requires r < m && a == m * q + r
    ensures a / m == q
  {
    assert a == a / m * m + a % m;
    RowOrder(m, a / m, q);
    RowOrder(m, q, a / m);
  }

  lemma {:induction false} ZeroFromRight(j: nat)
    ensures !BitFromRight(0, j)
  {
    if j > 0 {
      ZeroFromRight(j - 1);
    }
  }

  lemma {:induction false} BitsDetermineNumber(a: nat, b: nat, n: nat)
    requires a < Pow2(n) && b < Pow2(n)
    requires forall j: nat :: j < n ==> BitFromRight(a, j) == BitFromRight(b, j)
    ensures a == b
  {
    if n > 0 {
      assert BitFromRight(a, 0) == BitFromRight(b, 0);
      forall j: nat | j < n - 1 ensures BitFromRight(a / 2, j) == BitFromRight(b / 2, j) {
        assert BitFromRight(a, j + 1) == BitFromRight(b, j + 1);
      }
      BitsDetermineNumber(a / 2, b / 2, n - 1);
    }
  }

  lemma BitsDetermine(a: byte, b: byte)
    requires forall k :: 0 <= k < 8 ==> Bit(a, k) == Bit(b, k)
    ensures a == b
  {
    assert Pow2(8) == 0x100;
    forall j: nat | j < 8 ensures BitFromRight(a, j) == BitFromRight(b, j) {
      assert Bit(a, 7 - j) == Bit(b, 7 - j);
    }
    BitsDetermineNumber(a, b, 8);
  }

  // ----- dots of a packed bitmap -----

  function Cell(stride: nat, x: nat, y: nat): nat { Pos(stride, x / 8, y) }

  lemma CellInside(stride: nat, height: nat, x: nat, y: nat)
    requires x < 8 * stride && y < height
    ensures Cell(stride, x, y) < stride * height
  {
    PosInside(stride, height, x / 8, y);
  }

  lemma CellInjective(stride: nat, x: nat, y: nat, x': nat, y': nat)
    requires x < 8 * stride && x' < 8 * stride && Cell(stride, x, y) == Cell(stride, x', y')
    ensures y == y' && x / 8 == x' / 8
  {
    PosInjective(stride, x / 8, y, x' / 8, y');
  }

  // The dot in column x of row y is black.
  predicate Dot(bits: seq<byte>, stride: nat, x: nat, y: nat) {
    Cell(stride, x, y) < |bits| && Bit(bits[Cell(stride, x, y)], x % 8)
  }

  // The bitmap is width by height and black exactly at the columns and rows where black holds.
  ghost predicate Paints(mb: MonoBitmap, width: nat, height: nat, black: (int, int) -> bool) {
    && mb.width == width && mb.height == height && mb.Valid()
    && forall x: nat, y: nat :: x < 8 * mb.Stride() && y < height ==>
         (Dot(mb.bits, mb.Stride(), x, y) <==> x < width && black(x, y))
  }

  function DotSet(bits: seq<byte>, stride: nat, x: nat, y: nat): seq<byte>
    requires Cell(stride, x, y) < |bits|
  {
    bits[Cell(stride, x, y) := SetBit(bits[Cell(stride, x, y)], x % 8)]
  }

  // Setting a dot blackens that dot and no other.
  lemma DotSetOnly(bits: seq<byte>, stride: nat, x: nat, y: nat)
    requires x < 8 * stride && Cell(stride, x, y) < |bits|
    ensures forall x': nat, y': nat :: x' < 8 * stride ==>
              (Dot(DotSet(bits, stride, x, y), stride, x', y') <==> (x' == x && y' == y) || Dot(bits, stride, x', y'))
  {
    forall x': nat, y': nat | x' < 8 * stride
      ensures Dot(DotSet(bits, stride, x, y), stride, x', y') <==> (x' == x && y' == y) || Dot(bits, stride, x', y')
    {
      if Cell(stride, x, y) == Cell(stride, x', y') {
        CellInjective(stride, x, y, x', y');
        SetBitSets(bits[Cell(stride, x, y)], x % 8, x' % 8);
      }
    }
  }

  method PutDot(bits: array<byte>, stride: nat, x: nat, y: nat)
    requires Cell(stride, x, y) < bits.Length
    modifies bits
    ensures bits[..] == DotSet(old(bits[..]), stride, x, y)
  {
    var at := y * stride + x / 8;
    bits[at] := SetBit(bits[at], x % 8);
  }

  method NewBits(stride: nat, height: nat) returns (bits: array<byte>)
    ensures fresh(bits) && bits.Length == stride * height
    ensures forall x: nat, y: nat :: !Dot(bits[..], stride, x, y)
  {
    bits := new byte[stride * height](_ => 0);
    forall x: nat, y: nat ensures !Dot(bits[..], stride, x, y) {
      ZeroFromRight(7 - x % 8);
    }
  }

  // Row y' is finished before row y, or up to column x in row y.
  predicate Reached(x': int, y': int, x: int, y: int) {
    y' < y || (y' == y && x' < x)
  }

  // pack: a dot wherever black holds of the pixel.
  method Pack(g: Gray, black: byte -> bool) returns (mb: MonoBitmap)
    requires g.Valid()
    ensures Paints(mb, g.width, g.Height(), (x, y) => 0 <= y < |g.rows| && 0 <= x < |g.rows[y]| && black(g.rows[y][x]))
  {
    hide Bit, SetBit, Cell, DotSet;
    var w, h := g.width, g.Height();
    var stride := (w + 7) / 8;
    var bits := NewBits(stride, h);
    for y := 0 to h
      invariant forall x': nat, y': nat :: x' < 8 * stride && y' < h ==>
                  (Dot(bits[..], stride, x', y') <==> y' < y && x' < w && black(g.rows[y'][x']))
    {
      for x := 0 to w
        invariant forall x': nat, y': nat :: x' < 8 * stride && y' < h ==>
                    (Dot(bits[..], stride, x', y') <==> Reached(x', y', x, y) && x' < w && black(g.rows[y'][x']))
      {
        if black(g.rows[y][x]) {
          CellInside(stride, h, x, y);
          DotSetOnly(bits[..], stride, x, y);
          PutDot(bits, stride, x, y);
        }
      }
    }
    mb := MonoBitmap(w, h, bits[..]);
  }

  // Two bitmaps that show the same dots are the same.
  lemma PaintsOne(a: MonoBitmap, b: MonoBitmap, width: nat, height: nat, black: (int, int) -> bool)
    requires Paints(a, width, height, black) && Paints(b, width, height, black)
    ensures a == b
  {
    var stride := a.Stride();
    forall c | 0 <= c < |a.bits| ensures a.bits[c] == b.bits[c] {
      var y, r := c / stride, c % stride;
      CellOfByte(stride, height, c);
      forall k | 0 <= k < 8 ensures Bit(a.bits[c], k) == Bit(b.bits[c], k) {
        var x := 8 * r + k;
        ColumnOfByte(r, k);
        assert Cell(stride, x, y) == c && x % 8 == k;
        assert Dot(a.bits, stride, x, y) == Dot(b.bits, stride, x, y);
      }
      BitsDetermine(a.bits[c], b.bits[c]);
    }
  }

  lemma CellOfByte(stride: nat, height: nat, c: nat)
    requires c < stride * height
    ensures stride > 0 && c / stride < height && c % stride < stride
    ensures c / stride * stride + c % stride == c
  {
    RowOrder(stride, height - 1, c / stride);
    assert height * stride == (height - 1) * stride + stride;
  }

  lemma ColumnOfByte(r: nat, k: nat)
    requires k < 8
    ensures (8 * r + k) / 8 == r && (8 * r + k) % 8 == k
  {
  }

  // Black where the pixel lies below a level.
  ghost function Below(g: Gray, level: int): (int, int) -> bool {
    (x, y) => 0 <= y < |g.rows| && 0 <= x < |g.rows[y]| && g.rows[y][x] < level
  }

  // threshold.go: a fixed level.
  method Threshold(g: Gray, level: byte) returns (mb: MonoBitmap)
    requires g.Valid()
    ensures Paints(mb, g.width, g.Height(), Below(g, level))
    ensures forall x: nat, y: nat :: x < g.width && y < g.Height() ==>
              (Dot(mb.bits, mb.Stride(), x, y) <==> g.rows[y][x] < level)
  {
    hide Dot;
    mb := Pack(g, v => v < level);
  }
}
