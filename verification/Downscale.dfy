/** Box downscaling of gray pages (internal/adapters/printing/driver/gdi/raster_prep.go). */
module Downscale {
  import opened Bytes
  import opened Mono
  import opened Numbers

  // image.Gray: pix holds rows of stride bytes, the first pixel of the bounds at offset 0.
  datatype GrayImage = GrayImage(minX: int, minY: int, width: nat, height: nat, stride: nat, pix: seq<byte>) {
    ghost predicate Valid() {
      width <= stride && (height > 0 ==> (height - 1) * stride + width <= |pix|)
    }

    // Offset of the pixel xx to the right and yy below the corner of the bounds.
    function Offset(xx: nat, yy: nat): nat { yy * stride + xx }

    // Where the scaling code takes row yy to start, and the offset it uses for a pixel.
    function UsedStart(yy: nat): int { (minY + yy) * stride + minX }

    function UsedOffset(xx: nat, yy: nat): int { UsedStart(yy) + xx }

    ghost predicate Anchored() { minX == 0 && minY == 0 }

    // How far the code is off, everywhere in the image.
    function Shift(): int { minY * stride + minX }

    // All that the code reads lies in the buffer.
    ghost predicate Readable() {
      Valid() && 0 <= Shift() && (height > 0 ==> Shift() + (height - 1) * stride + width <= |pix|)
    }

    // The image that the code sees.
    ghost function Seen(): GrayImage
      requires Readable() && height > 0
    {
      GrayImage(0, 0, width, height, stride, pix[Shift()..])
    }
  }

  lemma UsedIsShifted(g: GrayImage, xx: nat, yy: nat)
    ensures g.UsedStart(yy) == g.Shift() + yy * g.stride && g.UsedOffset(xx, yy) == g.Shift() + g.Offset(xx, yy)
  {
    assert (g.minY + yy) * g.stride == g.minY * g.stride + yy * g.stride;
  }

  // The code reads the right pixels exactly for images whose corner has offset 0.
  lemma UsedOffsetRight(g: GrayImage, xx: nat, yy: nat)
    ensures g.UsedOffset(xx, yy) == g.Offset(xx, yy) <==> g.minY * g.stride + g.minX == 0
  {
    UsedIsShifted(g, xx, yy);
  }

  // Two images whose corner lies elsewhere: of one the code sees the wrong pixel, and of the other
  // none, for the offset is outside the buffer.
  lemma UsedOffsetWrong()
    ensures var g := GrayImage(1, 0, 1, 1, 2, [7, 9]);
            g.Readable() && g.Seen().Valid() && Px(g, 0, 0) == 7 && Px(g.Seen(), 0, 0) == 9
    ensures var g := GrayImage(1, 0, 1, 1, 1, [7]);
            g.Valid() && g.UsedOffset(0, 0) == |g.pix| && !g.Readable()
  {
  }

  // An image whose corner has offset 0 is seen as it is.
  lemma SeenAsIs(g: GrayImage)
    requires g.Valid() && g.Shift() == 0 && g.height > 0
    ensures g.Readable() && g.Seen() == g.(minX := 0, minY := 0)
  {
  }

  lemma OffsetInside(g: GrayImage, xx: nat, yy: nat)
    requires g.Valid() && xx < g.width && yy < g.height
    ensures g.Offset(xx, yy) < |g.pix|
  {
    RowOrder(g.stride, yy, g.height - 1);
  }

  // Pixel xx, yy of the image.
  function Px(g: GrayImage, xx: nat, yy: nat): byte
    requires g.Valid() && xx < g.width && yy < g.height
  {
    OffsetInside(g, xx, yy);
    g.pix[g.Offset(xx, yy)]
  }

  // ----- spans -----

  function Lo(idx: nat, dstN: nat, srcN: nat): nat
    requires dstN > 0
  {
    idx * srcN / dstN
  }

  // span: the source pixels of target pixel idx, at least one.
  function Span(idx: nat, dstN: nat, srcN: nat): (r: (nat, nat))
    requires dstN > 0
  {
    var lo, hi := idx * srcN / dstN, (idx + 1) * srcN / dstN;
    (lo, if hi <= lo then lo + 1 else hi)
  }

  lemma DivBelow(a: nat, b: nat, n: nat)
    requires n > 0
    ensures a < b * n ==> a / n < b
    ensures b * n <= a ==> b <= a / n
  {
    assert a == a / n * n + a % n;
    if a < b * n && a / n >= b {
      TimesMono(b, a / n, n);
    }
    assert (a / n + 1) * n == a / n * n + n;
    if b * n <= a && a / n < b {
      TimesMono(a / n + 1, b, n);
    }
  }

  lemma TimesMono(a: nat, b: nat, n: nat)
    requires a <= b
    ensures a * n <= b * n
  {
  }

  // Every span is non-empty and inside the source.
  lemma SpanInside(idx: nat, dstN: nat, srcN: nat)
    requires idx < dstN && srcN > 0
    ensures var (lo, hi) := Span(idx, dstN, srcN); lo < hi <= srcN
  {
    assert idx * srcN < srcN * dstN by {
      TimesMono(idx + 1, dstN, srcN);
      assert (idx + 1) * srcN == idx * srcN + srcN;
      assert dstN * srcN == srcN * dstN;
    }
    DivBelow(idx * srcN, srcN, dstN);
    TimesMono(idx + 1, dstN, srcN);
    assert (idx + 1) * srcN <= srcN * dstN;
    DivBelow((idx + 1) * srcN, srcN + 1, dstN);
    assert (srcN + 1) * dstN == srcN * dstN + dstN;
  }

  // When an axis does not shrink, each span is the one source pixel at the same place.
  lemma SpanStretched(idx: nat, dstN: nat, srcN: nat)
    requires idx < dstN && srcN <= dstN
    ensures var (lo, hi) := Span(idx, dstN, srcN);
            hi == lo + 1 && lo * dstN <= idx * srcN < (lo + 1) * dstN
  {
    var a := idx * srcN;
    assert (idx + 1) * srcN == a + srcN;
    assert a == a / dstN * dstN + a % dstN;
    assert (a / dstN + 1) * dstN == a / dstN * dstN + dstN;
    assert (a / dstN + 2) * dstN == a / dstN * dstN + 2 * dstN;
    DivBelow(a + srcN, a / dstN + 2, dstN);
  }

  // When an axis shrinks, each span ends where the next begins, and together they tile the source.
  lemma SpanTiles(idx: nat, dstN: nat, srcN: nat)
    requires 0 < dstN <= srcN
    ensures Span(idx, dstN, srcN) == (Lo(idx, dstN, srcN), Lo(idx + 1, dstN, srcN))
    ensures Lo(idx, dstN, srcN) < Lo(idx + 1, dstN, srcN)
    ensures Lo(0, dstN, srcN) == 0 && Lo(dstN, dstN, srcN) == srcN
  {
    var a := idx * srcN;
    assert (idx + 1) * srcN == a + srcN;
    DivNext(a, srcN, dstN);
    ZeroTimes(srcN);
    WholeTimes(srcN, dstN);
  }

  lemma ZeroTimes(n: nat)
    ensures 0 * n == 0
  {
  }

  lemma WholeTimes(a: nat, n: nat)
    requires n > 0
    ensures n * a / n == a
  {
    DivBelow(n * a, a, n);
    DivBelow(n * a, a + 1, n);
    assert (a + 1) * n == n * a + n;
  }

  lemma DivNext(a: nat, b: nat, n: nat)
    requires 0 < n <= b
    ensures a / n + 1 <= (a + b) / n
  {
    assert a == a / n * n + a % n;
    assert (a / n + 1) * n == a / n * n + n;
    DivBelow(a + b, a / n + 1, n);
  }

  // Every source pixel falls into exactly one span.
  lemma {:induction false} OneSpan(p: nat, upto: nat, dstN: nat, srcN: nat) returns (idx: nat)
    requires 0 < dstN <= srcN && upto <= dstN && p < Lo(upto, dstN, srcN)
    ensures idx < upto && Lo(idx, dstN, srcN) <= p < Lo(idx + 1, dstN, srcN)
    ensures forall k: nat :: k < dstN && Lo(k, dstN, srcN) <= p < Lo(k + 1, dstN, srcN) ==> k == idx
  {
    hide Lo;
    SpanTiles(0, dstN, srcN);
    if Lo(upto - 1, dstN, srcN) <= p {
      idx := upto - 1;
    } else {
      idx := OneSpan(p, upto - 1, dstN, srcN);
    }
    forall k: nat | k < dstN && Lo(k, dstN, srcN) <= p < Lo(k + 1, dstN, srcN) ensures k == idx {
      LoMono(k + 1, idx, dstN, srcN);
      LoMono(idx + 1, k, dstN, srcN);
    }
  }

  lemma {:induction false} LoMono(a: nat, b: nat, dstN: nat, srcN: nat)
    requires 0 < dstN <= srcN
    ensures a <= b ==> Lo(a, dstN, srcN) <= Lo(b, dstN, srcN)
    decreases b
  {
    hide Lo;
    if a < b {
      SpanTiles(b - 1, dstN, srcN);
      LoMono(a, b - 1, dstN, srcN);
    }
  }

  // ----- sums over boxes -----

  ghost function RowSum(g: GrayImage, y: nat, x0: nat, x1: nat): nat
    requires g.Valid() && x0 <= x1 <= g.width && y < g.height
  {
    if x0 == x1 then 0 else RowSum(g, y, x0, x1 - 1) + Px(g, x1 - 1, y)
  }

  ghost function BoxSum(g: GrayImage, x0: nat, x1: nat, y0: nat, y1: nat): nat
    requires g.Valid() && x0 <= x1 <= g.width && y0 <= y1 <= g.height
  {
    if y0 == y1 then 0 else BoxSum(g, x0, x1, y0, y1 - 1) + RowSum(g, y1 - 1, x0, x1)
  }

  function Area(x0: nat, x1: nat, y0: nat, y1: nat): int { (x1 - x0) * (y1 - y0) }

  lemma {:induction false} RowSumBound(g: GrayImage, y: nat, x0: nat, x1: nat)
    requires g.Valid() && x0 <= x1 <= g.width && y < g.height
    ensures RowSum(g, y, x0, x1) <= 255 * (x1 - x0)
  {
    hide Px;
    if x0 < x1 {
      RowSumBound(g, y, x0, x1 - 1);
    }
  }

  lemma {:induction false} BoxSumBound(g: GrayImage, x0: nat, x1: nat, y0: nat, y1: nat)
    requires g.Valid() && x0 <= x1 <= g.width && y0 <= y1 <= g.height
    ensures BoxSum(g, x0, x1, y0, y1) <= 255 * Area(x0, x1, y0, y1)
  {
    hide RowSum;
    if y0 < y1 {
      BoxSumBound(g, x0, x1, y0, y1 - 1);
      RowSumBound(g, y1 - 1, x0, x1);
      assert (x1 - x0) * (y1 - y0) == (x1 - x0) * (y1 - 1 - y0) + (x1 - x0);
    }
  }

  lemma {:induction false} RowSumSplit(g: GrayImage, y: nat, x0: nat, x1: nat, x2: nat)
    requires g.Valid() && x0 <= x1 <= x2 <= g.width && y < g.height
    ensures RowSum(g, y, x0, x2) == RowSum(g, y, x0, x1) + RowSum(g, y, x1, x2)
  {
    hide Px;
    if x1 < x2 {
      RowSumSplit(g, y, x0, x1, x2 - 1);
    }
  }

  lemma {:induction false} BoxSumSplitX(g: GrayImage, x0: nat, x1: nat, x2: nat, y0: nat, y1: nat)
    requires g.Valid() && x0 <= x1 <= x2 <= g.width && y0 <= y1 <= g.height
    ensures BoxSum(g, x0, x2, y0, y1) == BoxSum(g, x0, x1, y0, y1) + BoxSum(g, x1, x2, y0, y1)
  {
    hide RowSum;
    if y0 < y1 {
      BoxSumSplitX(g, x0, x1, x2, y0, y1 - 1);
      RowSumSplit(g, y1 - 1, x0, x1, x2);
    }
  }

  lemma {:induction false} BoxSumSplitY(g: GrayImage, x0: nat, x1: nat, y0: nat, y1: nat, y2: nat)
    requires g.Valid() && x0 <= x1 <= g.width && y0 <= y1 <= y2 <= g.height
    ensures BoxSum(g, x0, x1, y0, y2) == BoxSum(g, x0, x1, y0, y1) + BoxSum(g, x0, x1, y1, y2)
  {
    hide RowSum;
    if y1 < y2 {
      BoxSumSplitY(g, x0, x1, y0, y1, y2 - 1);
    }
  }

  // ----- the code -----

  // What the code computes for a box: the sum is kept in 32 bits.
  ghost function BoxValue(g: GrayImage, x0: nat, x1: nat, y0: nat, y1: nat): nat
    requires g.Valid() && x0 < x1 <= g.width && y0 < y1 <= g.height
  {
    assert Area(x0, x1, y0, y1) > 0 by { PositiveArea(x0, x1, y0, y1); }
    Trunc32(BoxSum(g, x0, x1, y0, y1)) / Area(x0, x1, y0, y1)
  }

  lemma PositiveArea(x0: nat, x1: nat, y0: nat, y1: nat)
    requires x0 < x1 && y0 < y1
    ensures Area(x0, x1, y0, y1) > 0
  {
    TimesMono(1, x1 - x0, y1 - y0);
  }

  // It is the floor of the mean exactly when the sum fits 32 bits, which any box of at most
  // 16,843,009 pixels does.
  lemma MeanExact(g: GrayImage, x0: nat, x1: nat, y0: nat, y1: nat)
    requires g.Valid() && x0 < x1 <= g.width && y0 < y1 <= g.height
    requires Area(x0, x1, y0, y1) < 0x1_0000_0000
    ensures Area(x0, x1, y0, y1) > 0
    ensures BoxValue(g, x0, x1, y0, y1) == BoxSum(g, x0, x1, y0, y1) / Area(x0, x1, y0, y1)
            <==> BoxSum(g, x0, x1, y0, y1) < 0x1_0000_0000
    ensures Area(x0, x1, y0, y1) <= 16843009 ==> BoxSum(g, x0, x1, y0, y1) < 0x1_0000_0000
    ensures BoxValue(g, x0, x1, y0, y1) <= 255
  {
    hide BoxSum;
    PositiveArea(x0, x1, y0, y1);
    BoxSumBound(g, x0, x1, y0, y1);
    TruncatedDiv(BoxSum(g, x0, x1, y0, y1), Area(x0, x1, y0, y1));
    DivBelow(Trunc32(BoxSum(g, x0, x1, y0, y1)), 256, Area(x0, x1, y0, y1));
  }

  // A white page of 16,843,010 pixels in one row: the mean of its one box is 255, and the sum wraps
  // round so that the value is 0.
  lemma WhiteBoxBlack()
    ensures var n := 16843010;
            var g := GrayImage(0, 0, n, 1, n, seq(n, _ => 255));
            g.Valid() && BoxSum(g, 0, n, 0, 1) / Area(0, n, 0, 1) == 255 && BoxValue(g, 0, n, 0, 1) == 0
  {
    var n := 16843010;
    var g := GrayImage(0, 0, n, 1, n, seq(n, _ => 255));
    WhiteRow(g, n);
    WhiteSum(g, n);
  }

  lemma WhiteSum(g: GrayImage, n: nat)
    requires n == 16843010 && g.Valid() && g.width == n && g.height == 1 && RowSum(g, 0, 0, n) == 255 * n
    ensures Area(0, n, 0, 1) == n && BoxSum(g, 0, n, 0, 1) == 255 * n
    ensures BoxSum(g, 0, n, 0, 1) / n == 255 && BoxValue(g, 0, n, 0, 1) == 0
  {
    hide RowSum;
    assert BoxSum(g, 0, n, 0, 0) == 0;
  }

  lemma {:induction false} WhiteRow(g: GrayImage, x: nat)
    requires g.Valid() && g.height == 1 && x <= g.width
    requires forall k :: 0 <= k < |g.pix| ==> g.pix[k] == 255
    ensures RowSum(g, 0, 0, x) == 255 * x
  {
    if x > 0 {
      WhiteRow(g, x - 1);
    }
  }

  lemma TruncatedDiv(s: nat, n: nat)
    requires 0 < n < 0x1_0000_0000
    ensures Trunc32(s) <= s
    ensures Trunc32(s) / n == s / n <==> s < 0x1_0000_0000
  {
    if s >= 0x1_0000_0000 {
      var r := Trunc32(s);
      assert r + 0x1_0000_0000 <= s;
      DivNext(r, s - r, n);
    }
  }

  // The rows of the box lie in the buffer, where the code takes them to be.
  ghost predicate BoxReadable(g: GrayImage, x1: nat, y0: nat, y1: nat) {
    forall yy: nat :: y0 <= yy < y1 ==> 0 <= g.UsedStart(yy) && g.UsedStart(yy) + x1 <= |g.pix|
  }

  // A box; None where the code fails, an index being out of range.
  method BoxAverage(g: GrayImage, x0: nat, x1: nat, y0: nat, y1: nat) returns (v: Option<byte>)
    requires g.Valid() && x0 < x1 <= g.width && y0 < y1 <= g.height
    requires Area(x0, x1, y0, y1) < 0x1_0000_0000
    ensures v.Some? <==> BoxReadable(g, x1, y0, y1)
    ensures v.Some? && g.Readable() ==> g.Seen().Valid() && v.value == BoxValue(g.Seen(), x0, x1, y0, y1)
  {
    hide Area, Trunc32, Px, GrayImage.Valid, GrayImage.Readable, GrayImage.Seen, GrayImage.UsedStart, BoxValue, BoxSum,
      RowSum;
    var sum: u32, n: nat := 0, 0;
    AreaNext(x0, x1, y0, y0);
    BoxStart(g, x0, x1, y0);
    ghost var readable := g.Readable();
    for yy := y0 to y1
      invariant BoxReadable(g, x1, y0, yy)
      invariant readable ==> g.Seen().Valid() && sum == Trunc32(BoxSum(g.Seen(), x0, x1, y0, yy))
      invariant n == Area(x0, x1, y0, yy)
    {
      var row := g.UsedStart(yy);
      if row < 0 || row > |g.pix| {
        return None;
      }
      RowStart(g, x0, yy);
      ghost var before := if readable then BoxSum(g.Seen(), x0, x1, y0, yy) else 0;
      for xx := x0 to x1
        invariant xx > x0 ==> row + xx <= |g.pix|
        invariant readable ==> g.Seen().Valid() && sum == Trunc32(before + RowSum(g.Seen(), yy, x0, xx))
        invariant n == Area(x0, x1, y0, yy) + (xx - x0)
      {
        if row + xx >= |g.pix| {
          return None;
        }
        if readable {
          PixelSeen(g, xx, yy);
          RowNextPixel(g.Seen(), x0, xx, yy);
          TruncAdd(before + RowSum(g.Seen(), yy, x0, xx), g.pix[row + xx]);
        }
        sum := Trunc32(sum + g.pix[row + xx]);
        n := n + 1;
      }
      AreaNext(x0, x1, y0, yy);
      if readable {
        BoxNextRow(g.Seen(), x0, x1, y0, yy);
      }
    }
    PositiveArea(x0, x1, y0, y1);
    if readable {
      MeanExact(g.Seen(), x0, x1, y0, y1);
      BoxValueIs(g.Seen(), x0, x1, y0, y1);
    }
    var mean := sum / n;
    v := Some(mean % 0x100);
  }

  lemma BoxValueIs(g: GrayImage, x0: nat, x1: nat, y0: nat, y1: nat)
    requires g.Valid() && x0 < x1 <= g.width && y0 < y1 <= g.height
    ensures Area(x0, x1, y0, y1) > 0
    ensures BoxValue(g, x0, x1, y0, y1) == Trunc32(BoxSum(g, x0, x1, y0, y1)) / Area(x0, x1, y0, y1)
  {
    hide BoxSum, Area, Trunc32;
    PositiveArea(x0, x1, y0, y1);
  }

  lemma SeenSize(g: GrayImage)
    requires g.Readable() && g.height > 0
    ensures g.Seen().Valid() && g.Seen().width == g.width && g.Seen().height == g.height
  {
  }

  lemma BoxStart(g: GrayImage, x0: nat, x1: nat, y0: nat)
    requires x0 <= x1 <= g.width && y0 < g.height
    ensures Trunc32(0) == 0
    ensures g.Readable() ==> g.Seen().Valid() && g.Seen().width == g.width && g.Seen().height == g.height
    ensures g.Readable() ==> BoxSum(g.Seen(), x0, x1, y0, y0) == 0
  {
    hide GrayImage.Seen, GrayImage.Readable, RowSum;
    if g.Readable() {
      SeenSize(g);
    }
  }

  lemma RowStart(g: GrayImage, x0: nat, yy: nat)
    requires x0 <= g.width && yy < g.height
    ensures g.Readable() ==> g.Seen().Valid() && g.Seen().width == g.width && g.Seen().height == g.height
    ensures g.Readable() ==> RowSum(g.Seen(), yy, x0, x0) == 0
  {
    hide GrayImage.Seen, GrayImage.Readable;
    if g.Readable() {
      SeenSize(g);
    }
  }

  lemma PixelSeen(g: GrayImage, xx: nat, yy: nat)
    requires g.Readable() && xx < g.width && yy < g.height
    ensures g.Seen().Valid() && g.Seen().width == g.width && g.Seen().height == g.height
    ensures 0 <= g.UsedStart(yy) + xx < |g.pix| && g.pix[g.UsedStart(yy) + xx] == Px(g.Seen(), xx, yy)
  {
    UsedIsShifted(g, xx, yy);
    OffsetInside(g.Seen(), xx, yy);
  }

  lemma RowNextPixel(g: GrayImage, x0: nat, xx: nat, yy: nat)
    requires g.Valid() && x0 <= xx < g.width && yy < g.height
    ensures RowSum(g, yy, x0, xx + 1) == RowSum(g, yy, x0, xx) + Px(g, xx, yy)
  {
    hide Px, GrayImage.Valid;
  }

  lemma BoxNextRow(g: GrayImage, x0: nat, x1: nat, y0: nat, yy: nat)
    requires g.Valid() && x0 <= x1 <= g.width && y0 <= yy < g.height
    ensures BoxSum(g, x0, x1, y0, yy + 1) == BoxSum(g, x0, x1, y0, yy) + RowSum(g, yy, x0, x1)
  {
    hide RowSum, GrayImage.Valid;
  }

  lemma TruncAdd(a: nat, b: nat)
    ensures Trunc32(Trunc32(a) + b) == Trunc32(a + b) && Trunc32(0) == 0
  {
  }

  lemma AreaNext(x0: nat, x1: nat, y0: nat, y: nat)
    requires x0 <= x1 && y0 <= y
    ensures Area(x0, x1, y0, y + 1) == Area(x0, x1, y0, y) + (x1 - x0) && Area(x0, x1, y0, y0) == 0
  {
    assert (x1 - x0) * (y + 1 - y0) == (x1 - x0) * (y - y0) + (x1 - x0);
  }

  // downscaleGray: rows of dstW pixels, each the value of its box in the image that the code
  // sees; None where the code fails, which is where that image does not lie in the buffer.
  method DownscaleGray(src: GrayImage, dstW: nat, dstH: nat) returns (dst: Option<GrayImage>)
    requires src.Valid() && src.width > 0 && src.height > 0 && dstW > 0 && dstH > 0
    requires src.width * src.height < 0x1_0000_0000
    ensures dst.Some? <==> src.Readable()
    ensures dst.Some? ==>
              var d := dst.value;
              && d.Valid() && d.Anchored() && d.width == d.stride == dstW && d.height == dstH
              && forall dx: nat, dy: nat :: dx < dstW && dy < dstH ==>
                   Boxed(src.Seen(), dx, dy, dstW, dstH) && Px(d, dx, dy) == TargetValue(src.Seen(), dx, dy, dstW, dstH)
  {
    hide Span, BoxValue, Pos, GrayImage.Valid, GrayImage.Readable, GrayImage.Seen, GrayImage.Shift, BoxReadable,
      Reached;
    hide Boxed, TargetValue;
    var pix := new byte[dstW * dstH];
    StartDone(src, dstW, dstH, pix[..]);
    for dy := 0 to dstH
      invariant Done(src, dstW, dstH, pix[..], 0, dy)
      invariant dy > 0 ==> 0 <= src.Shift()
      invariant dy == dstH ==> src.UsedStart(src.height - 1) + src.width <= |src.pix|
    {
      var (y0, y1) := Span(dy, dstH, src.height);
      for dx := 0 to dstW
        invariant Done(src, dstW, dstH, pix[..], dx, dy)
        invariant dy > 0 || dx > 0 ==> 0 <= src.Shift()
        invariant dy == dstH - 1 && dx == dstW ==> src.UsedStart(src.height - 1) + src.width <= |src.pix|
      {
        var (x0, x1) := Span(dx, dstW, src.width);
        BoxIn(src, dx, dy, dstW, dstH);
        var v := BoxAverage(src, x0, x1, y0, y1);
        if v.None? {
          UnreadableBox(src, x1, y0, y1);
          return None;
        }
        Corners(src, dx, dy, dstW, dstH);
        ghost var before := pix[..];
        PosInside(dstW, dstH, dx, dy);
        PutByte(pix, dstW, dx, dy, v.value);
        MoreDone(src, dstW, dstH, before, pix[..], dx, dy, v.value);
      }
      RowDone(src, dstW, dstH, pix[..], dy);
    }
    AllReadable(src);
    var d := GrayImage(0, 0, dstW, dstH, dstW, pix[..]);
    DoneAll(src, dstW, dstH, d);
    dst := Some(d);
  }

  // The targets before column dx of row dy have the values of their boxes.
  ghost predicate Done(src: GrayImage, dstW: nat, dstH: nat, pix: seq<byte>, dx: nat, dy: nat)
    requires src.height > 0 && dstW > 0 && dstH > 0
  {
    && |pix| == dstW * dstH
    && (src.Readable() ==>
          forall x: nat, y: nat :: x < dstW && y < dstH && Reached(x, y, dx, dy) ==>
            && Boxed(src.Seen(), x, y, dstW, dstH) && Pos(dstW, x, y) < |pix|
            && pix[Pos(dstW, x, y)] == TargetValue(src.Seen(), x, y, dstW, dstH))
  }

  lemma StartDone(src: GrayImage, dstW: nat, dstH: nat, pix: seq<byte>)
    requires src.height > 0 && dstW > 0 && dstH > 0 && |pix| == dstW * dstH
    ensures Done(src, dstW, dstH, pix, 0, 0)
  {
    hide GrayImage.Readable, Boxed, TargetValue;
  }

  lemma RowDone(src: GrayImage, dstW: nat, dstH: nat, pix: seq<byte>, dy: nat)
    requires src.height > 0 && dstW > 0 && dstH > 0 && Done(src, dstW, dstH, pix, dstW, dy)
    ensures Done(src, dstW, dstH, pix, 0, dy + 1)
  {
    hide GrayImage.Readable, Boxed, TargetValue, Pos;
    assert forall x: nat, y: nat :: x < dstW && Reached(x, y, 0, dy + 1) ==> Reached(x, y, dstW, dy);
  }

  lemma MoreDone(src: GrayImage, dstW: nat, dstH: nat, before: seq<byte>, after: seq<byte>, dx: nat, dy: nat, v: byte)
    requires src.height > 0 && src.width > 0 && dx < dstW && dy < dstH
    requires src.width * src.height < 0x1_0000_0000
    requires Done(src, dstW, dstH, before, dx, dy) && |after| == |before| && Pos(dstW, dx, dy) < |after|
    requires forall k :: 0 <= k < |after| ==> after[k] == if k == Pos(dstW, dx, dy) then v else before[k]
    requires src.Readable() ==>
        Boxed(src.Seen(), dx, dy, dstW, dstH)
        && v == TargetValue(src.Seen(), dx, dy, dstW, dstH)
    ensures Done(src, dstW, dstH, after, dx + 1, dy)
  {
    hide GrayImage.Readable, GrayImage.Seen, Boxed, TargetValue, Pos;
    forall x: nat, y: nat | x < dstW && Pos(dstW, x, y) == Pos(dstW, dx, dy) ensures x == dx && y == dy {
      PosInjective(dstW, dx, dy, x, y);
    }
    forall x: nat, y: nat | src.Readable() && x < dstW && y < dstH && Reached(x, y, dx + 1, dy)
      ensures Boxed(src.Seen(), x, y, dstW, dstH) && Pos(dstW, x, y) < |after|
      ensures after[Pos(dstW, x, y)] == TargetValue(src.Seen(), x, y, dstW, dstH)
    {
      assert Reached(x, y, dx, dy) || (x == dx && y == dy);
    }
  }

  // The box of a target, in the source and in what the code sees of it.
  lemma BoxIn(src: GrayImage, dx: nat, dy: nat, dstW: nat, dstH: nat)
    requires src.Valid() && src.width > 0 && src.height > 0 && dx < dstW && dy < dstH
    requires src.width * src.height < 0x1_0000_0000
    ensures var (x0, x1) := Span(dx, dstW, src.width);
            var (y0, y1) := Span(dy, dstH, src.height);
            && x0 < x1 <= src.width && y0 < y1 <= src.height && Area(x0, x1, y0, y1) < 0x1_0000_0000
            && (src.Readable() ==> Boxed(src.Seen(), dx, dy, dstW, dstH)
                                   && TargetValue(src.Seen(), dx, dy, dstW, dstH)
                                     == BoxValue(src.Seen(), x0, x1, y0, y1))
  {
    hide GrayImage.Readable, GrayImage.Seen, GrayImage.Valid, Span, BoxValue;
    BoxOf(src, dx, dy, dstW, dstH);
    if src.Readable() {
      SeenSize(src);
      BoxOf(src.Seen(), dx, dy, dstW, dstH);
    }
  }

  // A box the code fails on is not in what it could read.
  lemma UnreadableBox(g: GrayImage, x1: nat, y0: nat, y1: nat)
    requires x1 <= g.width && y1 <= g.height && !BoxReadable(g, x1, y0, y1)
    ensures !g.Readable()
  {
    hide GrayImage.UsedStart;
    if g.Readable() {
      forall yy: nat | y0 <= yy < y1 ensures 0 <= g.UsedStart(yy) && g.UsedStart(yy) + x1 <= |g.pix| {
        UsedIsShifted(g, 0, yy);
        TimesMono(yy, g.height - 1, g.stride);
      }
    }
  }

  // The first box reads the first row from where it starts, and the last box the end of the last row.
  lemma Corners(src: GrayImage, dx: nat, dy: nat, dstW: nat, dstH: nat)
    requires src.width > 0 && src.height > 0 && dx < dstW && dy < dstH
    requires var (x0, x1) := Span(dx, dstW, src.width);
             var (y0, y1) := Span(dy, dstH, src.height);
             BoxReadable(src, x1, y0, y1)
    ensures dx == 0 && dy == 0 ==> 0 <= src.Shift()
    ensures dx == dstW - 1 && dy == dstH - 1 ==> src.UsedStart(src.height - 1) + src.width <= |src.pix|
  {
    hide Span, GrayImage.UsedStart, GrayImage.Shift;
    var (x0, x1) := Span(dx, dstW, src.width);
    var (y0, y1) := Span(dy, dstH, src.height);
    SpanInside(dy, dstH, src.height);
    if dx == 0 && dy == 0 {
      SpanEnds(dstH, src.height);
      UsedIsShifted(src, 0, 0);
    }
    if dx == dstW - 1 && dy == dstH - 1 {
      SpanEnds(dstW, src.width);
      SpanEnds(dstH, src.height);
    }
  }

  // The first span starts at 0 and the last one ends at the end, whether the axis shrinks or grows.
  lemma SpanEnds(dstN: nat, srcN: nat)
    requires dstN > 0 && srcN > 0
    ensures Span(0, dstN, srcN).0 == 0 && Span(dstN - 1, dstN, srcN).1 == srcN
  {
    ZeroTimes(srcN);
    WholeTimes(srcN, dstN);
    SpanInside(dstN - 1, dstN, srcN);
    var hi := dstN * srcN / dstN;
    assert hi == srcN by {
      assert dstN * srcN == srcN * dstN;
    }
  }

  lemma AllReadable(g: GrayImage)
    requires g.Valid() && g.height > 0 && 0 <= g.Shift() && g.UsedStart(g.height - 1) + g.width <= |g.pix|
    ensures g.Readable()
  {
    UsedIsShifted(g, 0, g.height - 1);
  }

  lemma DoneAll(src: GrayImage, dstW: nat, dstH: nat, d: GrayImage)
    requires src.Readable() && src.height > 0 && dstW > 0 && dstH > 0
    requires Done(src, dstW, dstH, d.pix, 0, dstH)
    requires d.minX == d.minY == 0 && d.width == d.stride == dstW && d.height == dstH
    ensures d.Valid()
    ensures forall dx: nat, dy: nat :: dx < dstW && dy < dstH ==>
              Boxed(src.Seen(), dx, dy, dstW, dstH) && Px(d, dx, dy) == TargetValue(src.Seen(), dx, dy, dstW, dstH)
  {
    hide GrayImage.Readable, GrayImage.Seen, Boxed, TargetValue, Pos;
    TargetValid(dstW, dstH, |d.pix|);
    forall dx: nat, dy: nat | dx < dstW && dy < dstH
      ensures Boxed(src.Seen(), dx, dy, dstW, dstH) && Px(d, dx, dy) == TargetValue(src.Seen(), dx, dy, dstW, dstH)
    {
      assert Reached(dx, dy, 0, dstH);
      TargetPx(d, dx, dy);
    }
  }

  lemma TargetValid(dstW: nat, dstH: nat, n: nat)
    requires n == dstW * dstH
    ensures dstH > 0 ==> (dstH - 1) * dstW + dstW <= n
  {
    if dstH > 0 {
      RowNext(dstW, dstH - 1);
    }
  }

  lemma TargetPx(dst: GrayImage, dx: nat, dy: nat)
    requires dst.Valid() && dst.stride == dst.width && dx < dst.width && dy < dst.height
    ensures Pos(dst.width, dx, dy) < |dst.pix| && Px(dst, dx, dy) == dst.pix[Pos(dst.width, dx, dy)]
  {
    OffsetInside(dst, dx, dy);
  }

  method PutByte(pix: array<byte>, w: nat, x: nat, y: nat, v: byte)
    requires Pos(w, x, y) < pix.Length
    modifies pix
    ensures forall k :: 0 <= k < pix.Length ==> pix[k] == if k == Pos(w, x, y) then v else old(pix[k])
  {
    pix[y * w + x] := v;
  }

  // The box of a target pixel lies in the source.
  ghost predicate Boxed(src: GrayImage, dx: nat, dy: nat, dstW: nat, dstH: nat)
    requires dstW > 0 && dstH > 0
  {
    var (x0, x1) := Span(dx, dstW, src.width);
    var (y0, y1) := Span(dy, dstH, src.height);
    src.Valid() && x0 < x1 <= src.width && y0 < y1 <= src.height && 0 < Area(x0, x1, y0, y1) < 0x1_0000_0000
  }

  ghost function TargetValue(src: GrayImage, dx: nat, dy: nat, dstW: nat, dstH: nat): nat
    requires dstW > 0 && dstH > 0 && Boxed(src, dx, dy, dstW, dstH)
  {
    var (x0, x1) := Span(dx, dstW, src.width);
    var (y0, y1) := Span(dy, dstH, src.height);
    BoxValue(src, x0, x1, y0, y1)
  }

  lemma BoxOf(src: GrayImage, dx: nat, dy: nat, dstW: nat, dstH: nat)
    requires src.Valid() && src.width > 0 && src.height > 0 && dx < dstW && dy < dstH
    requires src.width * src.height < 0x1_0000_0000
    ensures Boxed(src, dx, dy, dstW, dstH)
  {
    hide Span;
    SpanInside(dx, dstW, src.width);
    SpanInside(dy, dstH, src.height);
    var (x0, x1) := Span(dx, dstW, src.width);
    var (y0, y1) := Span(dy, dstH, src.height);
    PositiveArea(x0, x1, y0, y1);
    TimesMono(x1 - x0, src.width, y1 - y0);
    TimesMono(y1 - y0, src.height, src.width);
    assert src.width * (y1 - y0) == (y1 - y0) * src.width && src.height * src.width == src.width * src.height;
  }

  // ----- conservation: the boxes tile the page, so the averages add up to it -----

  ghost function BoxArea(src: GrayImage, dx: nat, dy: nat, dstW: nat, dstH: nat): nat
    requires dstW > 0 && dstH > 0 && Boxed(src, dx, dy, dstW, dstH)
  {
    var (x0, x1) := Span(dx, dstW, src.width);
    var (y0, y1) := Span(dy, dstH, src.height);
    Area(x0, x1, y0, y1)
  }

  ghost function BoxTotal(src: GrayImage, dx: nat, dy: nat, dstW: nat, dstH: nat): nat
    requires dstW > 0 && dstH > 0 && Boxed(src, dx, dy, dstW, dstH)
  {
    var (x0, x1) := Span(dx, dstW, src.width);
    var (y0, y1) := Span(dy, dstH, src.height);
    BoxSum(src, x0, x1, y0, y1)
  }

  // Every box lies in the source and its sum fits 32 bits.
  ghost predicate SumsFit(src: GrayImage, dstW: nat, dstH: nat) {
    && dstW > 0 && dstH > 0
    && forall dx: nat, dy: nat :: dx < dstW && dy < dstH ==>
         Boxed(src, dx, dy, dstW, dstH) && BoxTotal(src, dx, dy, dstW, dstH) < 0x1_0000_0000
  }

  // Which is so whenever no box has more than 16,843,009 pixels.
  lemma SmallBoxesFit(src: GrayImage, dstW: nat, dstH: nat)
    requires src.Valid() && src.width > 0 && src.height > 0 && dstW > 0 && dstH > 0
    requires src.width * src.height < 0x1_0000_0000
    requires forall dx: nat, dy: nat :: dx < dstW && dy < dstH && Boxed(src, dx, dy, dstW, dstH) ==>
               BoxArea(src, dx, dy, dstW, dstH) <= 16843009
    ensures SumsFit(src, dstW, dstH)
  {
    hide Span, BoxSum, Area;
    forall dx: nat, dy: nat | dx < dstW && dy < dstH
      ensures Boxed(src, dx, dy, dstW, dstH) && BoxTotal(src, dx, dy, dstW, dstH) < 0x1_0000_0000
    {
      BoxOf(src, dx, dy, dstW, dstH);
      var (x0, x1) := Span(dx, dstW, src.width);
      var (y0, y1) := Span(dy, dstH, src.height);
      assert BoxArea(src, dx, dy, dstW, dstH) <= 16843009;
      MeanExact(src, x0, x1, y0, y1);
    }
  }

  ghost function WeightedBox(src: GrayImage, dx: nat, dy: nat, dstW: nat, dstH: nat): nat
    requires dstW > 0 && dstH > 0 && Boxed(src, dx, dy, dstW, dstH)
  {
    BoxArea(src, dx, dy, dstW, dstH) * TargetValue(src, dx, dy, dstW, dstH)
  }

  // The averages of target row dy, weighted by the areas of their boxes.
  ghost function WeightedRow(src: GrayImage, dstW: nat, dstH: nat, dy: nat, n: nat): nat
    requires SumsFit(src, dstW, dstH) && n <= dstW && dy < dstH
  {
    if n == 0 then 0
    else
      assert Boxed(src, n - 1, dy, dstW, dstH) by { BoxFits(src, dstW, dstH, n - 1, dy); }
      WeightedRow(src, dstW, dstH, dy, n - 1) + WeightedBox(src, n - 1, dy, dstW, dstH)
  }

  ghost function Weighted(src: GrayImage, dstW: nat, dstH: nat, n: nat): nat
    requires SumsFit(src, dstW, dstH) && n <= dstH
  {
    if n == 0 then 0 else Weighted(src, dstW, dstH, n - 1) + WeightedRow(src, dstW, dstH, n - 1, dstW)
  }

  // One box: the weighted average misses less than its area, being the floor of the mean.
  lemma BoxLoss(src: GrayImage, dx: nat, dy: nat, dstW: nat, dstH: nat)
    requires dstW > 0 && dstH > 0 && Boxed(src, dx, dy, dstW, dstH)
    requires BoxTotal(src, dx, dy, dstW, dstH) < 0x1_0000_0000
    ensures var s, a := BoxTotal(src, dx, dy, dstW, dstH), BoxArea(src, dx, dy, dstW, dstH);
            && a > 0 && TargetValue(src, dx, dy, dstW, dstH) == s / a
            && 0 <= s - a * TargetValue(src, dx, dy, dstW, dstH) < a
  {
    hide Span, BoxSum, Area;
    var (x0, x1) := Span(dx, dstW, src.width);
    var (y0, y1) := Span(dy, dstH, src.height);
    MeanExact(src, x0, x1, y0, y1);
    var s, a := BoxSum(src, x0, x1, y0, y1), Area(x0, x1, y0, y1);
    assert s == a * (s / a) + s % a;
  }

  lemma {:induction false} RowLoss(src: GrayImage, dstW: nat, dstH: nat, dy: nat, n: nat)
    requires src.Valid() && 0 < dstW <= src.width && 0 < dstH <= src.height && n <= dstW && dy < dstH
    requires SumsFit(src, dstW, dstH)
    ensures var x, y0, y1 := Lo(n, dstW, src.width), Lo(dy, dstH, src.height), Lo(dy + 1, dstH, src.height);
            && x <= src.width && y0 <= y1 <= src.height
            && 0 <= BoxSum(src, 0, x, y0, y1) - WeightedRow(src, dstW, dstH, dy, n) <= Area(0, x, y0, y1) - n
  {
    hide Span, BoxSum, TargetValue, Lo, Px, SumsFit, Area;
    SpanTiles(dy, dstH, src.height);
    LoMono(dy + 1, dstH, dstH, src.height);
    SpanTiles(0, dstW, src.width);
    LoMono(n, dstW, dstW, src.width);
    var y0, y1 := Lo(dy, dstH, src.height), Lo(dy + 1, dstH, src.height);
    if n == 0 {
      EmptyBox(src, y0, y1);
    } else {
      RowLoss(src, dstW, dstH, dy, n - 1);
      SpanTiles(n - 1, dstW, src.width);
      BoxFits(src, dstW, dstH, n - 1, dy);
      BoxLoss(src, n - 1, dy, dstW, dstH);
      var x0, x1 := Lo(n - 1, dstW, src.width), Lo(n, dstW, src.width);
      BoxSumSplitX(src, 0, x0, x1, y0, y1);
      AreaSplitX(x0, x1, y0, y1);
    }
  }

  lemma BoxFits(src: GrayImage, dstW: nat, dstH: nat, dx: nat, dy: nat)
    requires SumsFit(src, dstW, dstH) && dx < dstW && dy < dstH
    ensures Boxed(src, dx, dy, dstW, dstH) && BoxTotal(src, dx, dy, dstW, dstH) < 0x1_0000_0000
  {
    hide Boxed, BoxTotal;
  }

  lemma AreaSplitX(x0: nat, x1: nat, y0: nat, y1: nat)
    ensures Area(0, x1, y0, y1) == Area(0, x0, y0, y1) + Area(x0, x1, y0, y1)
  {
    assert x1 * (y1 - y0) == x0 * (y1 - y0) + (x1 - x0) * (y1 - y0);
  }

  lemma AreaSplitY(w: nat, y0: nat, y1: nat)
    ensures Area(0, w, 0, y1) == Area(0, w, 0, y0) + Area(0, w, y0, y1)
  {
    assert w * y1 == w * y0 + w * (y1 - y0);
  }

  lemma {:induction false} EmptyBox(src: GrayImage, y0: nat, y1: nat)
    requires src.Valid() && y0 <= y1 <= src.height
    ensures BoxSum(src, 0, 0, y0, y1) == 0 && Area(0, 0, y0, y1) == 0
  {
    if y0 < y1 {
      EmptyBox(src, y0, y1 - 1);
    }
  }

  lemma {:induction false} PageLoss(src: GrayImage, dstW: nat, dstH: nat, n: nat)
    requires src.Valid() && 0 < dstW <= src.width && 0 < dstH <= src.height && n <= dstH
    requires SumsFit(src, dstW, dstH)
    ensures var y := Lo(n, dstH, src.height);
            && y <= src.height
            && 0 <= BoxSum(src, 0, src.width, 0, y) - Weighted(src, dstW, dstH, n)
            && BoxSum(src, 0, src.width, 0, y) - Weighted(src, dstW, dstH, n) <= Area(0, src.width, 0, y) - n * dstW
  {
    hide Span, BoxSum, TargetValue, Lo, Px, WeightedRow, SumsFit;
    SpanTiles(0, dstH, src.height);
    SpanTiles(0, dstW, src.width);
    LoMono(n, dstH, dstH, src.height);
    if n == 0 {
      NoRows(src);
    } else {
      PageLoss(src, dstW, dstH, n - 1);
      RowLoss(src, dstW, dstH, n - 1, dstW);
      var y0, y1 := Lo(n - 1, dstH, src.height), Lo(n, dstH, src.height);
      BoxSumSplitY(src, 0, src.width, 0, y0, y1);
      AreaSplitY(src.width, y0, y1);
      RowNext(dstW, n - 1);
    }
  }

  lemma NoRows(src: GrayImage)
    requires src.Valid()
    ensures BoxSum(src, 0, src.width, 0, 0) == 0 && Area(0, src.width, 0, 0) == 0
  {
  }

  // When both axes shrink, the weighted sum of the target pixels misses the sum of the source
  // pixels by less than one gray level for each source pixel.
  lemma InkConserved(src: GrayImage, dstW: nat, dstH: nat)
    requires src.Valid() && 0 < dstW <= src.width && 0 < dstH <= src.height
    requires SumsFit(src, dstW, dstH)
    ensures 0 <= BoxSum(src, 0, src.width, 0, src.height) - Weighted(src, dstW, dstH, dstH) < src.width * src.height
  {
    hide BoxSum, Weighted, SumsFit;
    PageLoss(src, dstW, dstH, dstH);
    SpanTiles(0, dstH, src.height);
    TimesMono(1, dstH, dstW);
  }
}
