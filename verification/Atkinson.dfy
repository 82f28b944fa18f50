/**
 Atkinson error diffusion (internal/adapters/printing/binarizer/atkinson.go), over the reals.
 The code scatters each pixel's error forward into a shared buffer; the reference gathers, for
 each pixel, the errors of the pixels before it.
 */
module Atkinson {
  import opened Bytes
  import opened Mono
  import opened Numbers

  // The six neighbours that each receive an eighth of the error.
  function Dx(s: nat): int {
    if s == 0 then 1 else if s == 1 then 2 else if s == 2 then -1 else if s == 3 then 0 else if s == 4 then 1 else 0
  }

  function Dy(s: nat): nat {
    if s <= 1 then 0 else if s <= 4 then 1 else 2
  }

  function Quantised(v: real): real { if v < 128.0 then 0.0 else 255.0 }

  function ErrorShare(v: real): real { (v - Quantised(v)) / 8.0 }

  predicate Inside(g: Gray, x: int, y: int) {
    0 <= x < g.width && 0 <= y < |g.rows|
  }

  // ----- the reference: what a pixel is worth when its turn comes -----

  function Pixel(g: Gray, x: int, y: int): real
    requires g.Valid() && Inside(g, x, y)
  {
    g.rows[y][x] as real
  }

  function Share(g: Gray, x: int, y: int, s: nat): real
    requires g.Valid() && Inside(g, x, y) && s < 6
    decreases y, x, 0, s
  {
    if Inside(g, x - Dx(s), y - Dy(s)) then ErrorShare(Worth(g, x - Dx(s), y - Dy(s))) else 0.0
  }

  function Gathered(g: Gray, x: int, y: int, n: nat): real
    requires g.Valid() && Inside(g, x, y) && n <= 6
    decreases y, x, 1, n
  {
    if n == 0 then Pixel(g, x, y) else Gathered(g, x, y, n - 1) + Share(g, x, y, n - 1)
  }

  function Worth(g: Gray, x: int, y: int): real
    requires g.Valid() && Inside(g, x, y)
    decreases y, x, 2, 0
  {
    Gathered(g, x, y, 6)
  }

  // Every value stays within 96 of the gray scale, since each of the six shares is at most 16.
  lemma {:induction false} WorthBounded(g: Gray, x: int, y: int)
    requires g.Valid() && Inside(g, x, y)
    ensures -96.0 <= Worth(g, x, y) <= 351.0
    decreases y, x, 2, 0
  {
    GatheredBounded(g, x, y, 6);
  }

  lemma {:induction false} GatheredBounded(g: Gray, x: int, y: int, n: nat)
    requires g.Valid() && Inside(g, x, y) && n <= 6
    ensures -16.0 * n as real <= Gathered(g, x, y, n) <= 255.0 + 16.0 * n as real
    decreases y, x, 1, n
  {
    if n > 0 {
      GatheredBounded(g, x, y, n - 1);
      ShareBounded(g, x, y, n - 1);
    }
  }

  lemma {:induction false} ShareBounded(g: Gray, x: int, y: int, s: nat)
    requires g.Valid() && Inside(g, x, y) && s < 6
    ensures -16.0 <= Share(g, x, y, s) <= 16.0
    decreases y, x, 0, s
  {
    if Inside(g, x - Dx(s), y - Dy(s)) {
      WorthBounded(g, x - Dx(s), y - Dy(s));
    }
  }

  // The error made by quantising a pixel is at most half the distance between the two levels,
  // but for the slack that the shares bring.
  lemma QuantisationError(g: Gray, x: int, y: int)
    requires g.Valid() && Inside(g, x, y)
    ensures -128.0 <= Worth(g, x, y) - Quantised(Worth(g, x, y)) <= 128.0
  {
    WorthBounded(g, x, y);
  }

  ghost predicate Bilevel(g: Gray) {
    forall y, x :: 0 <= y < |g.rows| && 0 <= x < |g.rows[y]| ==> g.rows[y][x] == 0 || g.rows[y][x] == 255
  }

  // A pure black and white image makes no error at all.
  lemma {:induction false} BilevelWorth(g: Gray, x: int, y: int)
    requires g.Valid() && Bilevel(g) && Inside(g, x, y)
    ensures Worth(g, x, y) == Pixel(g, x, y)
    decreases y, x, 2, 0
  {
    BilevelGathered(g, x, y, 6);
  }

  lemma {:induction false} BilevelGathered(g: Gray, x: int, y: int, n: nat)
    requires g.Valid() && Bilevel(g) && Inside(g, x, y) && n <= 6
    ensures Gathered(g, x, y, n) == Pixel(g, x, y)
    decreases y, x, 1, n
  {
    if n > 0 {
      BilevelGathered(g, x, y, n - 1);
      if Inside(g, x - Dx(n - 1), y - Dy(n - 1)) {
        BilevelWorth(g, x - Dx(n - 1), y - Dy(n - 1));
      }
    }
  }

  ghost function Dark(g: Gray): (int, int) -> bool
    requires g.Valid()
  {
    (x, y) => Inside(g, x, y) && Worth(g, x, y) < 128.0
  }

  // On such an image the result is the one of the fixed threshold 128.
  lemma BilevelIsThreshold(g: Gray, atkinson: MonoBitmap, threshold: MonoBitmap)
    requires g.Valid() && Bilevel(g)
    requires Paints(atkinson, g.width, g.Height(), Dark(g))
    requires Paints(threshold, g.width, g.Height(), Below(g, 128))
    ensures atkinson == threshold
  {
    hide Dot;
    forall x: nat, y: nat | x < 8 * threshold.Stride() && y < g.Height()
      ensures Dot(threshold.bits, threshold.Stride(), x, y) <==> x < g.width && Dark(g)(x, y)
    {
      if x < g.width {
        BilevelWorth(g, x, y);
      }
    }
    PaintsOne(atkinson, threshold, g.width, g.Height(), Dark(g));
  }

  // ----- the buffer -----

  // The error of source pixel (x', y') has been spread to its first m neighbours when the code
  // is at neighbour m of (x, y): all of it for pixels before (x, y), part of it for (x, y).
  predicate Spread(x': int, y': int, s: nat, x: int, y: int, m: nat) {
    Reached(x', y', x, y) || (x' == x && y' == y && s < m)
  }

  ghost function Received(g: Gray, px: int, py: int, s: nat, x: int, y: int, m: nat): real
    requires g.Valid() && Inside(g, px, py) && s < 6
  {
    if Spread(px - Dx(s), py - Dy(s), s, x, y, m) then Share(g, px, py, s) else 0.0
  }

  ghost function Sofar(g: Gray, px: int, py: int, n: nat, x: int, y: int, m: nat): real
    requires g.Valid() && Inside(g, px, py) && n <= 6
  {
    if n == 0 then Pixel(g, px, py)
    else Sofar(g, px, py, n - 1, x, y, m) + Received(g, px, py, n - 1, x, y, m)
  }

  // The buffer holds, for every pixel, the gray value and the errors received so far.
  ghost predicate Holds(buf: seq<real>, g: Gray, x: int, y: int, m: nat)
    requires g.Valid()
  {
    && |buf| == g.width * |g.rows|
    && forall px: nat, py: nat :: Inside(g, px, py) ==>
         Pos(g.width, px, py) < |buf| && buf[Pos(g.width, px, py)] == Sofar(g, px, py, 6, x, y, m)
  }

  // Spreading to neighbour m adds the share to that neighbour alone.
  lemma {:induction false} SofarStep(g: Gray, px: int, py: int, n: nat, x: int, y: int, m: nat)
    requires g.Valid() && Inside(g, px, py) && Inside(g, x, y) && n <= 6 && m < 6
    ensures Sofar(g, px, py, n, x, y, m + 1)
         == Sofar(g, px, py, n, x, y, m)
            + if m < n && px == x + Dx(m) && py == y + Dy(m) then ErrorShare(Worth(g, x, y)) else 0.0
  {
    if n > 0 {
      SofarStep(g, px, py, n - 1, x, y, m);
    }
  }

  // Moving on to the next pixel changes nothing.
  lemma {:induction false} SofarNext(g: Gray, px: int, py: int, n: nat, x: int, y: int)
    requires g.Valid() && Inside(g, px, py) && n <= 6
    ensures Sofar(g, px, py, n, x, y, 6) == Sofar(g, px, py, n, x + 1, y, 0)
  {
    if n > 0 {
      SofarNext(g, px, py, n - 1, x, y);
    }
  }

  lemma {:induction false} SofarNextRow(g: Gray, px: int, py: int, n: nat, y: int)
    requires g.Valid() && Inside(g, px, py) && n <= 6
    ensures Sofar(g, px, py, n, g.width, y, 0) == Sofar(g, px, py, n, 0, y + 1, 0)
  {
    if n > 0 {
      SofarNextRow(g, px, py, n - 1, y);
    }
  }

  // Nothing has been received at the start, and everything once the pixel's turn has come:
  // from then on the buffer keeps the pixel as it is.
  lemma {:induction false} SofarStart(g: Gray, px: int, py: int, n: nat)
    requires g.Valid() && Inside(g, px, py) && n <= 6
    ensures Sofar(g, px, py, n, 0, 0, 0) == Pixel(g, px, py)
  {
    if n > 0 {
      SofarStart(g, px, py, n - 1);
    }
  }

  lemma {:induction false} SofarDone(g: Gray, px: int, py: int, n: nat, x: int, y: int, m: nat)
    requires g.Valid() && Inside(g, px, py) && n <= 6
    requires Reached(px, py, x, y) || (px == x && py == y)
    ensures Sofar(g, px, py, n, x, y, m) == Gathered(g, px, py, n)
  {
    if n > 0 {
      SofarDone(g, px, py, n - 1, x, y, m);
    }
  }

  ghost function Scattered(buf: seq<real>, g: Gray, x: int, y: int, m: nat): seq<real>
    requires g.Valid() && Inside(g, x, y) && m < 6 && |buf| == g.width * |g.rows|
  {
    Bump(buf, g.width, |g.rows|, x + Dx(m), y + Dy(m), ErrorShare(Worth(g, x, y)))
  }

  lemma HoldsStep(buf: seq<real>, g: Gray, x: int, y: int, m: nat)
    requires g.Valid() && Inside(g, x, y) && m < 6 && Holds(buf, g, x, y, m)
    ensures Holds(Scattered(buf, g, x, y, m), g, x, y, m + 1)
  {
    hide Sofar, Worth, ErrorShare, Pos, Dx, Dy;
    var t := Scattered(buf, g, x, y, m);
    forall px: nat, py: nat | Inside(g, px, py)
      ensures Pos(g.width, px, py) < |t| && t[Pos(g.width, px, py)] == Sofar(g, px, py, 6, x, y, m + 1)
    {
      SofarStep(g, px, py, 6, x, y, m);
      var tx, ty := x + Dx(m), y + Dy(m);
      if Inside(g, tx, ty) && Pos(g.width, px, py) == Pos(g.width, tx, ty) {
        PosInjective(g.width, px, py, tx, ty);
      }
    }
  }

  lemma HoldsMove(buf: seq<real>, g: Gray, x: int, y: int)
    requires g.Valid()
    ensures Holds(buf, g, x, y, 6) ==> Holds(buf, g, x + 1, y, 0)
    ensures Holds(buf, g, g.width, y, 0) ==> Holds(buf, g, 0, y + 1, 0)
  {
    hide Sofar, Pos;
    forall px: nat, py: nat | Inside(g, px, py)
      ensures Sofar(g, px, py, 6, x, y, 6) == Sofar(g, px, py, 6, x + 1, y, 0)
      ensures Sofar(g, px, py, 6, g.width, y, 0) == Sofar(g, px, py, 6, 0, y + 1, 0)
    {
      SofarNext(g, px, py, 6, x, y);
      SofarNextRow(g, px, py, 6, y);
    }
  }

  lemma HoldsStart(buf: seq<real>, g: Gray)
    requires g.Valid() && |buf| == g.width * |g.rows|
    requires forall x: nat, y: nat ::
        Inside(g, x, y)
        ==> Pos(g.width, x, y) < |buf| && buf[Pos(g.width, x, y)] == Pixel(g, x, y)
    ensures Holds(buf, g, 0, 0, 0)
  {
    hide Sofar, Pos, Pixel;
    forall px: nat, py: nat | Inside(g, px, py) ensures Sofar(g, px, py, 6, 0, 0, 0) == Pixel(g, px, py) {
      SofarStart(g, px, py, 6);
    }
  }

  lemma CurrentWorth(buf: seq<real>, g: Gray, x: nat, y: nat)
    requires g.Valid() && Inside(g, x, y) && Holds(buf, g, x, y, 0)
    ensures Pos(g.width, x, y) < |buf| && buf[Pos(g.width, x, y)] == Worth(g, x, y)
  {
    hide Sofar, Pos, Gathered;
    SofarDone(g, x, y, 6, x, y, 0);
  }

  // Whatever comes later, a pixel that had its turn stays in the buffer as it was quantised.
  lemma ProcessedStays(buf: seq<real>, g: Gray, px: nat, py: nat, x: int, y: int, m: nat)
    requires g.Valid() && Inside(g, px, py) && Reached(px, py, x, y) && Holds(buf, g, x, y, m)
    ensures Pos(g.width, px, py) < |buf| && buf[Pos(g.width, px, py)] == Worth(g, px, py)
    ensures -96.0 <= buf[Pos(g.width, px, py)] <= 351.0
  {
    hide Sofar, Pos, Gathered;
    SofarDone(g, px, py, 6, x, y, m);
    WorthBounded(g, px, py);
  }

  // At any moment every entry of the buffer lies between -96 and 351.
  lemma {:induction false} SofarBounded(g: Gray, px: int, py: int, n: nat, x: int, y: int, m: nat)
    requires g.Valid() && Inside(g, px, py) && n <= 6
    ensures -16.0 * n as real <= Sofar(g, px, py, n, x, y, m) <= 255.0 + 16.0 * n as real
  {
    if n > 0 {
      SofarBounded(g, px, py, n - 1, x, y, m);
      ShareBounded(g, px, py, n - 1);
    }
  }

  lemma BufferBounded(buf: seq<real>, g: Gray, x: int, y: int, m: nat, px: nat, py: nat)
    requires g.Valid() && Holds(buf, g, x, y, m) && Inside(g, px, py)
    ensures Pos(g.width, px, py) < |buf| && -96.0 <= buf[Pos(g.width, px, py)] <= 351.0
  {
    hide Sofar, Pos;
    SofarBounded(g, px, py, 6, x, y, m);
  }

  // ----- the buffer as the errors are scattered -----

  // b, of h rows of w, with e added at x, y if that lies inside.
  ghost function Bump(b: seq<real>, w: nat, h: nat, x: int, y: int, e: real): (r: seq<real>)
    requires |b| == w * h
    ensures |r| == |b|
  {
    if 0 <= x < w && 0 <= y < h then
      assert Pos(w, x, y) < |b| by { PosInside(w, h, x, y); }
      b[Pos(w, x, y) := b[Pos(w, x, y)] + e]
    else b
  }

  // b with e added at the first m neighbours of x, y.
  ghost function Scatter(b: seq<real>, w: nat, h: nat, x: int, y: int, e: real, m: nat): (r: seq<real>)
    requires |b| == w * h && m <= 6
    ensures |r| == |b|
  {
    if m == 0 then b else Bump(Scatter(b, w, h, x, y, e, m - 1), w, h, x + Dx(m - 1), y + Dy(m - 1), e)
  }

  // The buffer when the turn of x, y comes: the gray values, and for each pixel before x, y, its
  // error scattered from the value that it had in the buffer.
  ghost function BufferAt(g: Gray, x: nat, y: nat): (b: seq<real>)
    requires g.Valid() && x <= g.width && y <= |g.rows| && (x == 0 || y < |g.rows|)
    ensures |b| == g.width * |g.rows|
    decreases y, x
  {
    var w, h := g.width, |g.rows|;
    if x > 0 then
      var b := BufferAt(g, x - 1, y);
      assert Pos(w, x - 1, y) < |b| by { PosInside(w, h, x - 1, y); }
      Scatter(b, w, h, x - 1, y, ErrorShare(b[Pos(w, x - 1, y)]), 6)
    else if y > 0 then BufferAt(g, w, y - 1)
    else Pixels(g)
  }

  ghost function Pixels(g: Gray): (b: seq<real>)
    requires g.Valid()
    ensures |b| == g.width * |g.rows|
  {
    Joined(g.rows, g.width)
  }

  // The values of the rows, one row after the other.
  ghost function Joined(rows: seq<seq<byte>>, w: nat): (b: seq<real>)
    requires forall y :: 0 <= y < |rows| ==> |rows[y]| == w
    ensures |b| == w * |rows|
  {
    if rows == [] then []
    else
      var n := |rows| - 1;
      assert w * |rows| == w * n + w;
      Joined(rows[..n], w) + seq(w, x requires 0 <= x < w => rows[n][x] as real)
  }

  lemma {:induction false} JoinedAt(rows: seq<seq<byte>>, w: nat, x: nat, y: nat)
    requires (forall k :: 0 <= k < |rows| ==> |rows[k]| == w) && x < w && y < |rows|
    ensures Pos(w, x, y) < |Joined(rows, w)| && Joined(rows, w)[Pos(w, x, y)] == rows[y][x] as real
  {
    var n := |rows| - 1;
    PosInside(w, |rows|, x, y);
    if y < n {
      PosInside(w, n, x, y);
      JoinedAt(rows[..n], w, x, y);
    } else {
      assert w * n == n * w;
    }
  }

  lemma BumpAt(b: seq<real>, w: nat, h: nat, x: int, y: int, e: real, px: nat, py: nat)
    requires |b| == w * h && px < w && py < h
    ensures Pos(w, px, py) < |b|
    ensures Bump(b, w, h, x, y, e)[Pos(w, px, py)]
         == b[Pos(w, px, py)] + if px == x && py == y then e else 0.0
  {
    hide Pos;
    PosInside(w, h, px, py);
    if 0 <= x < w && 0 <= y < h && Pos(w, px, py) == Pos(w, x, y) {
      PosInjective(w, px, py, x, y);
    }
  }

  // One of the first m neighbours of x, y is px, py.
  ghost predicate Neighbour(x: int, y: int, m: nat, px: int, py: int) {
    m > 0 && ((px == x + Dx(m - 1) && py == y + Dy(m - 1)) || Neighbour(x, y, m - 1, px, py))
  }

  // No two neighbours are the same place.
  lemma {:induction false} NeighboursDiffer(x: int, y: int, m: nat)
    requires m < 6
    ensures !Neighbour(x, y, m, x + Dx(m), y + Dy(m))
  {
    var s := m;
    while s > 0
      invariant 0 <= s <= m
      invariant Neighbour(x, y, m, x + Dx(m), y + Dy(m)) == Neighbour(x, y, s, x + Dx(m), y + Dy(m))
    {
      s := s - 1;
    }
  }

  // The places that gain are the first m neighbours.
  lemma {:induction false} ScatterFirst(b: seq<real>, w: nat, h: nat, x: int, y: int, e: real, m: nat, px: nat, py: nat)
    requires |b| == w * h && m <= 6 && px < w && py < h
    ensures Pos(w, px, py) < |b|
    ensures Scatter(b, w, h, x, y, e, m)[Pos(w, px, py)]
         == b[Pos(w, px, py)] + if Neighbour(x, y, m, px, py) then e else 0.0
  {
    hide Pos, Bump, Dx, Dy;
    PosInside(w, h, px, py);
    if m > 0 {
      ScatterFirst(b, w, h, x, y, e, m - 1, px, py);
      BumpAt(Scatter(b, w, h, x, y, e, m - 1), w, h, x + Dx(m - 1), y + Dy(m - 1), e, px, py);
      NeighboursDiffer(x, y, m - 1);
    }
  }

  // From the turn of a pixel to that of the next, the two to its right, the three below it and the
  // one two below it, as far as they lie inside, gain an eighth of the difference between its value
  // in the buffer and the level it is printed at; nothing else changes.
  lemma BufferStep(g: Gray, x: nat, y: nat, px: nat, py: nat)
    requires g.Valid() && x < g.width && y < |g.rows| && px < g.width && py < |g.rows|
    ensures Pos(g.width, x, y) < |BufferAt(g, x, y)| && Pos(g.width, px, py) < |BufferAt(g, x, y)|
    ensures var b, b', at := BufferAt(g, x, y), BufferAt(g, x + 1, y), Pos(g.width, px, py);
            var v := b[Pos(g.width, x, y)];
            b'[at] == b[at] + if || (py == y && (px == x + 1 || px == x + 2))
                                 || (py == y + 1 && x - 1 <= px <= x + 1)
                                 || (py == y + 2 && px == x)
                              then (v - if v < 128.0 then 0.0 else 255.0) / 8.0 else 0.0
  {
    hide Pos, Scatter;
    var w, h, b := g.width, |g.rows|, BufferAt(g, x, y);
    PosInside(w, h, x, y);
    var e := ErrorShare(b[Pos(w, x, y)]);
    ScatterFirst(b, w, h, x, y, e, 6, px, py);
    NeighbourPlaces(x, y, px, py);
  }

  lemma NeighbourPlaces(x: int, y: int, px: int, py: int)
    ensures Neighbour(x, y, 6, px, py) <==>
            || (py == y && (px == x + 1 || px == x + 2))
            || (py == y + 1 && x - 1 <= px <= x + 1)
            || (py == y + 2 && px == x)
  {
    assert !Neighbour(x, y, 0, px, py);
    assert Neighbour(x, y, 1, px, py) <==> py == y && px == x + 1;
    assert Neighbour(x, y, 2, px, py) <==> py == y && x + 1 <= px <= x + 2;
    assert Neighbour(x, y, 3, px, py) <==> Neighbour(x, y, 2, px, py) || (py == y + 1 && px == x - 1);
    assert Neighbour(x, y, 4, px, py) <==> Neighbour(x, y, 2, px, py) || (py == y + 1 && x - 1 <= px <= x);
    assert Neighbour(x, y, 5, px, py) <==> Neighbour(x, y, 2, px, py) || (py == y + 1 && x - 1 <= px <= x + 1);
  }

  // The first buffer holds the gray values, and a row starts with what the row above leaves.
  lemma BufferStart(g: Gray, x: nat, y: nat)
    requires g.Valid() && x < g.width && y < |g.rows|
    ensures Pos(g.width, x, y) < |BufferAt(g, 0, 0)| && BufferAt(g, 0, 0)[Pos(g.width, x, y)] == g.rows[y][x] as real
    ensures BufferAt(g, 0, y + 1) == BufferAt(g, g.width, y)
  {
    JoinedAt(g.rows, g.width, x, y);
  }

  // ----- conservation -----

  ghost function Sum(b: seq<real>): real {
    if b == [] then 0.0 else Sum(b[..|b| - 1]) + b[|b| - 1]
  }

  lemma {:induction false} SumUpdate(b: seq<real>, i: nat, v: real)
    requires i < |b|
    ensures Sum(b[i := v]) == Sum(b) - b[i] + v
  {
    var n := |b| - 1;
    if i < n {
      SumUpdate(b[..n], i, v);
      assert b[i := v][..n] == b[..n][i := v];
    } else {
      assert b[i := v][..n] == b[..n];
    }
  }

  // How many of the first m neighbours lie inside.
  function Targets(w: nat, h: nat, x: int, y: int, m: nat): nat
    requires m <= 6
  {
    if m == 0 then 0
    else Targets(w, h, x, y, m - 1) + if 0 <= x + Dx(m - 1) < w && 0 <= y + Dy(m - 1) < h then 1 else 0
  }

  lemma {:induction false} ScatterSum(b: seq<real>, w: nat, h: nat, x: int, y: int, e: real, m: nat)
    requires |b| == w * h && m <= 6
    ensures Sum(Scatter(b, w, h, x, y, e, m)) == Sum(b) + Targets(w, h, x, y, m) as real * e
  {
    hide Sum, Bump, Dx, Dy;
    if m > 0 {
      ScatterSum(b, w, h, x, y, e, m - 1);
      BumpSum(Scatter(b, w, h, x, y, e, m - 1), w, h, x + Dx(m - 1), y + Dy(m - 1), e);
      OneMore(Targets(w, h, x, y, m - 1), e);
    }
  }

  lemma BumpSum(b: seq<real>, w: nat, h: nat, x: int, y: int, e: real)
    requires |b| == w * h
    ensures Sum(Bump(b, w, h, x, y, e)) == Sum(b) + if 0 <= x < w && 0 <= y < h then e else 0.0
  {
    hide Sum, Pos;
    if 0 <= x < w && 0 <= y < h {
      PosInside(w, h, x, y);
      SumUpdate(b, Pos(w, x, y), b[Pos(w, x, y)] + e);
    }
  }

  lemma OneMore(n: nat, e: real)
    ensures (n + 1) as real * e == n as real * e + e
  {
  }

  // Error is handed on and not made: the sum of the buffer changes by an eighth of the error of the
  // pixel for each neighbour inside, and so by six eighths away from the edges.
  lemma ErrorConserved(g: Gray, x: nat, y: nat)
    requires g.Valid() && x < g.width && y < |g.rows|
    ensures Pos(g.width, x, y) < |BufferAt(g, x, y)|
    ensures var v := BufferAt(g, x, y)[Pos(g.width, x, y)];
            var error := v - if v < 128.0 then 0.0 else 255.0;
            var gained := Sum(BufferAt(g, x + 1, y)) - Sum(BufferAt(g, x, y));
            && gained == Targets(g.width, |g.rows|, x, y, 6) as real * (error / 8.0)
            && (1 <= x && x + 2 < g.width && y + 2 < |g.rows| ==> gained == 6.0 * error / 8.0)
  {
    hide Sum, Scatter, Pos;
    var w, h, b := g.width, |g.rows|, BufferAt(g, x, y);
    PosInside(w, h, x, y);
    ScatterSum(b, w, h, x, y, ErrorShare(b[Pos(w, x, y)]), 6);
    if 1 <= x && x + 2 < w && y + 2 < h {
      AllInside(w, h, x, y, 6);
    }
  }

  lemma {:induction false} AllInside(w: nat, h: nat, x: nat, y: nat, m: nat)
    requires 1 <= x && x + 2 < w && y + 2 < h && m <= 6
    ensures Targets(w, h, x, y, m) == m
  {
    if m > 0 {
      AllInside(w, h, x, y, m - 1);
    }
  }

  // ----- scattering forward is gathering -----

  lemma {:induction false} ScatterHolds(b: seq<real>, g: Gray, x: nat, y: nat, m: nat)
    requires g.Valid() && Inside(g, x, y) && m <= 6 && Holds(b, g, x, y, 0)
    ensures |b| == g.width * |g.rows|
    ensures Holds(Scatter(b, g.width, |g.rows|, x, y, ErrorShare(Worth(g, x, y)), m), g, x, y, m)
  {
    hide Sofar, Pos, Worth, ErrorShare, Bump;
    HoldsLength(b, g, x, y, 0);
    if m > 0 {
      ScatterHolds(b, g, x, y, m - 1);
      HoldsStep(Scatter(b, g.width, |g.rows|, x, y, ErrorShare(Worth(g, x, y)), m - 1), g, x, y, m - 1);
    }
  }

  // The value of a pixel when its turn comes is what it gathers from the pixels before it.
  lemma {:induction false} BufferHolds(g: Gray, x: nat, y: nat)
    requires g.Valid() && x <= g.width && y <= |g.rows| && (x == 0 || y < |g.rows|)
    ensures Holds(BufferAt(g, x, y), g, x, y, 0)
    decreases y, x
  {
    hide Holds, Scatter, Worth, ErrorShare, Pos;
    var w, h := g.width, |g.rows|;
    if x > 0 {
      BufferHolds(g, x - 1, y);
      var b := BufferAt(g, x - 1, y);
      CurrentWorth(b, g, x - 1, y);
      ScatterHolds(b, g, x - 1, y, 6);
      HoldsMove(BufferAt(g, x, y), g, x - 1, y);
    } else if y > 0 {
      BufferHolds(g, w, y - 1);
      HoldsMove(BufferAt(g, w, y - 1), g, 0, y - 1);
    } else {
      forall px: nat, py: nat | Inside(g, px, py)
        ensures Pos(w, px, py) < |Pixels(g)| && Pixels(g)[Pos(w, px, py)] == Pixel(g, px, py)
      {
        JoinedAt(g.rows, w, px, py);
      }
      HoldsStart(Pixels(g), g);
    }
  }

  lemma DarkInBuffer(g: Gray, x: nat, y: nat)
    requires g.Valid() && Inside(g, x, y)
    ensures Pos(g.width, x, y) < |BufferAt(g, x, y)|
    ensures Dark(g)(x, y) <==> BufferAt(g, x, y)[Pos(g.width, x, y)] < 128.0
  {
    hide Pos, Holds, BufferAt, Worth;
    BufferHolds(g, x, y);
    CurrentWorth(BufferAt(g, x, y), g, x, y);
  }

  // ----- the code -----

  method LoadPixels(g: Gray) returns (buf: array<real>)
    requires g.Valid()
    ensures fresh(buf) && Holds(buf[..], g, 0, 0, 0)
  {
    hide Pos, Holds;
    var w, h := g.width, |g.rows|;
    buf := new real[w * h];
    for y := 0 to h
      invariant forall x': nat, y': nat :: Inside(g, x', y') && y' < y ==>
                  Pos(w, x', y') < buf.Length && buf[Pos(w, x', y')] == Pixel(g, x', y')
    {
      for x := 0 to w
        invariant forall x': nat, y': nat :: Inside(g, x', y') && Reached(x', y', x, y) ==>
                    Pos(w, x', y') < buf.Length && buf[Pos(w, x', y')] == Pixel(g, x', y')
      {
        PosInside(w, h, x, y);
        forall x': nat, y': nat | Inside(g, x', y') && Pos(w, x', y') == Pos(w, x, y) ensures x' == x && y' == y {
          PosInjective(w, x, y, x', y');
        }
        PutReal(buf, w, x, y, g.rows[y][x] as real);
      }
    }
    HoldsStart(buf[..], g);
  }

  method PutReal(buf: array<real>, w: nat, x: nat, y: nat, v: real)
    requires Pos(w, x, y) < buf.Length
    modifies buf
    ensures buf[..] == old(buf[..])[Pos(w, x, y) := v]
    ensures forall k :: 0 <= k < buf.Length ==> buf[k] == if k == Pos(w, x, y) then v else old(buf[k])
  {
    buf[y * w + x] := v;
  }

  method GetReal(buf: array<real>, w: nat, x: nat, y: nat) returns (v: real)
    requires Pos(w, x, y) < buf.Length
    ensures v == buf[Pos(w, x, y)]
  {
    v := buf[y * w + x];
  }

  method SpreadError(buf: array<real>, g: Gray, x: nat, y: nat, qErr: real)
    requires g.Valid() && Inside(g, x, y) && qErr == ErrorShare(Worth(g, x, y)) && Holds(buf[..], g, x, y, 0)
    modifies buf
    ensures Holds(buf[..], g, x, y, 6)
    ensures |old(buf[..])| == g.width * |g.rows|
    ensures buf[..] == Scatter(old(buf[..]), g.width, |g.rows|, x, y, qErr, 6)
  {
    hide Pos, Holds, Worth, ErrorShare;
    var w, h := g.width, |g.rows|;
    HoldsLength(buf[..], g, x, y, 0);
    for s := 0 to 6
      invariant Holds(buf[..], g, x, y, s)
      invariant buf[..] == Scatter(old(buf[..]), w, h, x, y, qErr, s)
    {
      ghost var before := buf[..];
      HoldsStep(before, g, x, y, s);
      var nx, ny := x + Dx(s), y + Dy(s);
      if nx >= 0 && nx < w && ny >= 0 && ny < h {
        PosInside(w, h, nx, ny);
        var v := GetReal(buf, w, nx, ny);
        PutReal(buf, w, nx, ny, v + qErr);
      }
      assert buf[..] == Scattered(before, g, x, y, s);
    }
  }

  lemma HoldsLength(buf: seq<real>, g: Gray, x: int, y: int, m: nat)
    requires g.Valid() && Holds(buf, g, x, y, m)
    ensures |buf| == g.width * |g.rows|
  {
    hide Sofar, Pos;
  }

  method Binarize(g: Gray) returns (mb: MonoBitmap)
    requires g.Valid()
    ensures Paints(mb, g.width, g.Height(), Dark(g))
    ensures forall x: nat, y: nat :: Inside(g, x, y) ==>
              && Pos(g.width, x, y) < |BufferAt(g, x, y)|
              && (Dot(mb.bits, mb.Stride(), x, y) <==> BufferAt(g, x, y)[Pos(g.width, x, y)] < 128.0)
  {
    hide Pos, Holds, Worth, Dot, Cell, DotSet, BufferAt;
    var w, h := g.width, g.Height();
    var buf := LoadPixels(g);
    var stride := (w + 7) / 8;
    var bits := NewBits(stride, h);
    for y := 0 to h
      invariant Holds(buf[..], g, 0, y, 0)
      invariant forall x': nat, y': nat :: x' < 8 * stride && y' < h ==>
                  (Dot(bits[..], stride, x', y') <==> y' < y && x' < w && Dark(g)(x', y'))
    {
      for x := 0 to w
        invariant Holds(buf[..], g, x, y, 0)
        invariant forall x': nat, y': nat :: x' < 8 * stride && y' < h ==>
                    (Dot(bits[..], stride, x', y') <==> Reached(x', y', x, y) && x' < w && Dark(g)(x', y'))
      {
        CurrentWorth(buf[..], g, x, y);
        var v := GetReal(buf, w, x, y);
        var newv := 0.0;
        var black := v < 128.0;
        if !black {
          newv := 255.0;
        }
        var qErr := (v - newv) / 8.0;
        SpreadError(buf, g, x, y, qErr);
        HoldsMove(buf[..], g, x, y);
        if black {
          CellInside(stride, h, x, y);
          DotSetOnly(bits[..], stride, x, y);
          PutDot(bits, stride, x, y);
        }
      }
      HoldsMove(buf[..], g, 0, y);
    }
    mb := MonoBitmap(w, h, bits[..]);
    forall x: nat, y: nat | Inside(g, x, y)
      ensures Pos(w, x, y) < |BufferAt(g, x, y)|
      ensures Dark(g)(x, y) <==> BufferAt(g, x, y)[Pos(w, x, y)] < 128.0
    {
      DarkInBuffer(g, x, y);
    }
  }
}
