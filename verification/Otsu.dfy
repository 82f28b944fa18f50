/**
 Otsu's threshold (internal/adapters/printing/binarizer/otsu.go), reals standing for float64. The
 code makes one pass over a histogram; the definition splits the pixels at every level.
 */
module Otsu {
  import opened Bytes
  import opened Mono

  // ----- the definition: classes of pixels, their means, the variance between them -----

  function Pixels(rows: seq<seq<byte>>): seq<byte> {
    if rows == [] then [] else Pixels(rows[..|rows| - 1]) + rows[|rows| - 1]
  }

  // The pixels at or below a level, and those above it.
  function Low(ps: seq<byte>, level: int): (r: seq<byte>)
    ensures |r| <= |ps|
  {
    if ps == [] then []
    else
      var n := |ps| - 1;
      Low(ps[..n], level) + if ps[n] <= level then [ps[n]] else []
  }

  function High(ps: seq<byte>, level: int): seq<byte> {
    if ps == [] then []
    else
      var n := |ps| - 1;
      High(ps[..n], level) + if ps[n] > level then [ps[n]] else []
  }

  function Sum(ps: seq<byte>): nat {
    if ps == [] then 0 else Sum(ps[..|ps| - 1]) + ps[|ps| - 1]
  }

  predicate Splits(ps: seq<byte>, level: int) {
    Low(ps, level) != [] && High(ps, level) != []
  }

  // The weighted squared distance of the means of two classes, from their sizes and sums.
  function Between(n0: nat, s0: nat, n1: nat, s1: int): real
    requires n0 > 0 && n1 > 0
  {
    var d := s0 as real / n0 as real - s1 as real / n1 as real;
    n0 as real * n1 as real * d * d
  }

  function Variance(ps: seq<byte>, level: int): real
    requires Splits(ps, level)
  {
    var lo, hi := Low(ps, level), High(ps, level);
    Between(|lo|, Sum(lo), |hi|, Sum(hi))
  }

  // level splits the pixels with the greatest variance among the levels below bound.
  ghost predicate Best(ps: seq<byte>, level: int, bound: int) {
    && 0 <= level < bound && Splits(ps, level)
    && forall j :: 0 <= j < bound && Splits(ps, j) ==> Variance(ps, j) <= Variance(ps, level)
  }

  ghost predicate LeastBest(ps: seq<byte>, level: int, bound: int) {
    Best(ps, level, bound) && forall j :: 0 <= j < level ==> !Best(ps, j, bound)
  }

  ghost predicate GreatestBest(ps: seq<byte>, level: int, bound: int) {
    Best(ps, level, bound) && forall j :: level < j < bound ==> !Best(ps, j, bound)
  }

  // ----- histogram and prefix sums against the classes -----

  function Count(ps: seq<byte>, v: int): nat {
    if ps == [] then 0 else Count(ps[..|ps| - 1], v) + if ps[|ps| - 1] == v then 1 else 0
  }

  lemma {:induction false} LowStep(ps: seq<byte>, level: int)
    ensures |Low(ps, level)| == |Low(ps, level - 1)| + Count(ps, level)
    ensures Sum(Low(ps, level)) == Sum(Low(ps, level - 1)) + level * Count(ps, level)
  {
    if ps != [] {
      var n := |ps| - 1;
      var rest, v := ps[..n], ps[n];
      LowStep(rest, level);
      LowLast(ps, level);
      LowLast(ps, level - 1);
      TimesNext(level, Count(rest, level));
    }
  }

  lemma TimesNext(a: int, c: nat)
    ensures a * (c + 1) == a * c + a && a * (c + 0) == a * c
  {
  }

  lemma LowLast(ps: seq<byte>, level: int)
    requires ps != []
    ensures var n := |ps| - 1;
            && |Low(ps, level)| == |Low(ps[..n], level)| + (if ps[n] <= level then 1 else 0)
            && Sum(Low(ps, level)) == Sum(Low(ps[..n], level)) + (if ps[n] <= level then ps[n] else 0)
  {
    var n := |ps| - 1;
    SumOne(Low(ps[..n], level), ps[n]);
    assert Low(ps[..n], level) + [] == Low(ps[..n], level);
  }

  lemma SumOne(ps: seq<byte>, v: byte)
    ensures Sum(ps + [v]) == Sum(ps) + v
  {
    assert (ps + [v])[..|ps|] == ps;
  }

  lemma {:induction false} LowNone(ps: seq<byte>)
    ensures Low(ps, -1) == [] && Sum(Low(ps, -1)) == 0
  {
    if ps != [] {
      LowNone(ps[..|ps| - 1]);
    }
  }

  lemma {:induction false} LowAll(ps: seq<byte>)
    ensures Low(ps, 255) == ps
  {
    if ps != [] {
      LowAll(ps[..|ps| - 1]);
    }
  }

  lemma {:induction false} Partition(ps: seq<byte>, level: int)
    ensures |Low(ps, level)| + |High(ps, level)| == |ps|
    ensures Sum(Low(ps, level)) + Sum(High(ps, level)) == Sum(ps)
  {
    if ps != [] {
      var n := |ps| - 1;
      Partition(ps[..n], level);
      SumOne(Low(ps[..n], level), ps[n]);
      SumOne(High(ps[..n], level), ps[n]);
      assert Low(ps[..n], level) + [] == Low(ps[..n], level);
      assert High(ps[..n], level) + [] == High(ps[..n], level);
    }
  }

  lemma {:induction false} LowMono(ps: seq<byte>, a: int, b: int)
    requires a <= b
    ensures |Low(ps, a)| <= |Low(ps, b)|
    decreases b - a
  {
    if a < b {
      LowStep(ps, b);
      LowMono(ps, a, b - 1);
    }
  }

  lemma SquareNonNegative(a: real, b: real, d: real)
    requires a >= 0.0 && b >= 0.0
    ensures a * b * d * d >= 0.0
  {
    assert a * b >= 0.0;
    assert d * d >= 0.0;
    assert a * b * d * d == (a * b) * (d * d);
  }

  // The code's formula is the variance between the classes.
  lemma VarianceIs(ps: seq<byte>, level: int, wB: nat, wF: int, sum: nat, sumB: nat)
    requires wB == |Low(ps, level)| && sumB == Sum(Low(ps, level)) && sum == Sum(ps)
    requires wF == |ps| - wB && wB > 0 && wF > 0
    ensures Splits(ps, level) && Variance(ps, level) == Between(wB, sumB, wF, sum - sumB) >= 0.0
  {
    hide Low, High, Sum;
    Partition(ps, level);
    var d := sumB as real / wB as real - (sum - sumB) as real / wF as real;
    SquareNonNegative(wB as real, wF as real, d);
  }

  // ----- the code -----

  // What the scan knows about the levels below i.
  ghost predicate Scanned(ps: seq<byte>, i: int, maxVar: real, first: int, last: int) {
    if exists j :: 0 <= j < i && Splits(ps, j) then
      LeastBest(ps, first, i) && GreatestBest(ps, last, i) && maxVar == Variance(ps, first)
    else maxVar == -1.0 && first == 128 && last == 128
  }

  lemma ScanSplit(ps: seq<byte>, i: nat, maxVar: real, first: int, last: int)
    requires Scanned(ps, i, maxVar, first, last) && Splits(ps, i) && Variance(ps, i) >= 0.0
    ensures var v := Variance(ps, i);
            && (v > maxVar ==> Scanned(ps, i + 1, v, i, i))
            && (v == maxVar ==> Scanned(ps, i + 1, maxVar, first, i))
            && (v < maxVar ==> Scanned(ps, i + 1, maxVar, first, last))
  {
    hide Splits, Variance;
    var v, n := Variance(ps, i), i + 1;
    if exists j :: 0 <= j < i && Splits(ps, j) {
      forall j | 0 <= j < i && Best(ps, j, n) ensures Best(ps, j, i) && Variance(ps, j) >= v {
      }
      if v > maxVar {
        assert Best(ps, i, n);
        forall j | 0 <= j < i ensures !Best(ps, j, n) {
          if Splits(ps, j) {
            assert Variance(ps, j) <= maxVar;
          }
        }
      } else {
        assert Best(ps, first, n) && Best(ps, last, n);
        if v == maxVar {
          assert Best(ps, i, n);
        }
      }
    } else {
      assert Best(ps, i, n);
    }
  }

  lemma ScanSkip(ps: seq<byte>, i: nat, k: nat, maxVar: real, first: int, last: int)
    requires Scanned(ps, i, maxVar, first, last) && i <= k
    requires forall j :: i <= j < k ==> !Splits(ps, j)
    ensures Scanned(ps, k, maxVar, first, last)
  {
    hide Splits, Variance;
    if exists j :: 0 <= j < i && Splits(ps, j) {
      assert Best(ps, first, k) && Best(ps, last, k);
      forall j | 0 <= j < k && Best(ps, j, k) ensures Best(ps, j, i) {
      }
    }
  }

  method Histogram(g: Gray) returns (hist: array<nat>, total: nat)
    requires g.Valid()
    ensures hist.Length == 256 && fresh(hist)
    ensures total == |Pixels(g.rows)|
    ensures forall v :: 0 <= v < 256 ==> hist[v] == Count(Pixels(g.rows), v)
  {
    hist := new nat[256](_ => 0);
    total := 0;
    ghost var ps: seq<byte> := [];
    for y := 0 to |g.rows|
      invariant ps == Pixels(g.rows[..y]) && total == |ps|
      invariant forall v :: 0 <= v < 256 ==> hist[v] == Count(ps, v)
    {
      for x := 0 to g.width
        invariant ps == Pixels(g.rows[..y]) + g.rows[y][..x] && total == |ps|
        invariant forall v :: 0 <= v < 256 ==> hist[v] == Count(ps, v)
      {
        var v := g.rows[y][x];
        assert (ps + [v])[..|ps|] == ps;
        hist[v] := hist[v] + 1;
        total := total + 1;
        ps := ps + [v];
      }
      assert g.rows[y][..g.width] == g.rows[y];
      assert g.rows[..y + 1][..y] == g.rows[..y];
    }
    assert g.rows[..|g.rows|] == g.rows;
  }

  // otsuThreshold
  method OtsuThreshold(g: Gray) returns (t: byte)
    requires g.Valid()
    ensures OtsuLevel(Pixels(g.rows), t)
  {
    hide Splits, Variance, Scanned, Low, Count, Pixels, LeastBest, GreatestBest;
    ghost var ps := Pixels(g.rows);
    var hist, total := Histogram(g);
    if total == 0 {
      NothingSplits(ps);
      return 128;
    }
    var sum := SumLevels(ps, hist);
    var first, last := Scan(ps, hist, total, sum);
    Midpoint(ps, first, last);
    t := (first + last) / 2;
  }

  method SumLevels(ghost ps: seq<byte>, hist: array<nat>) returns (sum: nat)
    requires hist.Length == 256 && forall v :: 0 <= v < 256 ==> hist[v] == Count(ps, v)
    ensures sum == Sum(ps)
  {
    hide Low, Count;
    sum := 0;
    LowNone(ps);
    for i := 0 to 256
      invariant sum == Sum(Low(ps, i - 1))
    {
      LowStep(ps, i);
      sum := sum + i * hist[i];
    }
    LowAll(ps);
  }

  // The pass over the levels.
  method Scan(ghost ps: seq<byte>, hist: array<nat>, total: nat, sum: nat) returns (first: nat, last: nat)
    requires hist.Length == 256 && forall v :: 0 <= v < 256 ==> hist[v] == Count(ps, v)
    requires total == |ps| && sum == Sum(ps)
    ensures exists maxVar :: Scanned(ps, 256, maxVar, first, last)
  {
    hide Low, Count, Splits, Variance, Scanned, Sum;
    var sumB, wB, maxVar := 0, 0, -1.0;
    first, last := 128, 128;
    LowNone(ps);
    ScanStart(ps);
    for i := 0 to 256
      invariant wB == |Low(ps, i - 1)| && sumB == Sum(Low(ps, i - 1))
      invariant Scanned(ps, i, maxVar, first, last)
    {
      LowStep(ps, i);
      wB := wB + hist[i];
      if wB == 0 {
        SplitsIff(ps, i);
        ScanSkip(ps, i, i + 1, maxVar, first, last);
        Nothing(i, hist[i]);
        continue;
      }
      var wF := total - wB;
      if wF == 0 {
        forall j | i <= j < 256 ensures !Splits(ps, j) {
          LowMono(ps, i, j);
          SplitsIff(ps, j);
        }
        ScanSkip(ps, i, 256, maxVar, first, last);
        return;
      }
      sumB := sumB + i * hist[i];
      var mB := sumB as real / wB as real;
      LowAtMost(ps, i);
      var mF := (sum as real - sumB as real) / wF as real;
      var between := wB as real * wF as real * (mB - mF) * (mB - mF);
      assert between == Between(wB, sumB, wF, sum - sumB) by {
        assert (sum - sumB) as real == sum as real - sumB as real;
      }
      VarianceIs(ps, i, wB, wF, sum, sumB);
      ScanSplit(ps, i, maxVar, first, last);
      if between > maxVar {
        maxVar := between;
        first, last := i, i;
      } else if between == maxVar {
        last := i;
      }
    }
  }

  lemma Nothing(i: nat, c: nat)
    ensures c == 0 ==> i * c == 0
  {
  }

  lemma LowAtMost(ps: seq<byte>, i: int)
    ensures |Low(ps, i)| <= |ps|
  {
  }

  lemma ScanStart(ps: seq<byte>)
    ensures Scanned(ps, 0, -1.0, 128, 128)
  {
  }

  lemma SplitsIff(ps: seq<byte>, level: int)
    ensures Splits(ps, level) <==> 0 < |Low(ps, level)| < |ps|
  {
    Partition(ps, level);
  }

  lemma NothingSplits(ps: seq<byte>)
    requires ps == []
    ensures forall j :: 0 <= j < 256 ==> !Splits(ps, j)
  {
  }

  lemma Midpoint(ps: seq<byte>, first: int, last: int)
    requires exists maxVar :: Scanned(ps, 256, maxVar, first, last)
    ensures 0 <= (first + last) / 2 < 256
    ensures if exists j :: 0 <= j < 256 && Splits(ps, j) then LeastBest(ps, first, 256) && GreatestBest(ps, last, 256)
            else first == 128 && last == 128
  {
    hide Splits, Variance;
  }

  // The level of an image: the middle of its best levels, or 128 if no level splits it.
  ghost predicate OtsuLevel(ps: seq<byte>, t: int) {
    if exists j :: 0 <= j < 256 && Splits(ps, j) then
      exists first, last :: LeastBest(ps, first, 256) && GreatestBest(ps, last, 256) && t == (first + last) / 2
    else t == 128
  }

  // Otsu.Binarize: pixels at or below the biased level are black.
  method Binarize(g: Gray, bias: int) returns (mb: MonoBitmap)
    requires g.Valid()
    ensures mb.width == g.width && mb.height == g.Height() && mb.Valid()
    ensures exists level :: OtsuLevel(Pixels(g.rows), level) && BlackUpTo(mb, g, level + bias)
  {
    hide OtsuLevel, Dot;
    var level := OtsuThreshold(g);
    var t := level + bias;
    if t < 0 {
      t := 0;
    }
    if t > 255 {
      t := 255;
    }
    mb := Pack(g, v => v <= t);
    assert BlackUpTo(mb, g, level + bias);
  }

  // A dot is black exactly if its pixel is not lighter than t, t being brought between 0 and 255.
  ghost predicate BlackUpTo(mb: MonoBitmap, g: Gray, t: int)
    requires g.Valid()
  {
    forall x: nat, y: nat :: x < 8 * mb.Stride() && y < g.Height() ==>
      (Dot(mb.bits, mb.Stride(), x, y)
       <==> x < g.width && g.rows[y][x] <= if t < 0 then 0 else if t > 255 then 255 else t)
  }

  // The level is determined by the pixels.
  lemma OneLevel(ps: seq<byte>, t: int, u: int)
    requires OtsuLevel(ps, t) && OtsuLevel(ps, u)
    ensures t == u
  {
    hide Splits, Best;
    if exists j :: 0 <= j < 256 && Splits(ps, j) {
      var first, last :| LeastBest(ps, first, 256) && GreatestBest(ps, last, 256) && t == (first + last) / 2;
      var first', last' :| LeastBest(ps, first', 256) && GreatestBest(ps, last', 256) && u == (first' + last') / 2;
      BestRange(ps, first);
      BestRange(ps, first');
      BestRange(ps, last);
      BestRange(ps, last');
      assert first == first' && last == last';
    }
  }

  // ----- what the level is worth -----

  function Mean(ps: seq<byte>): real
    requires ps != []
  {
    Sum(ps) as real / |ps| as real
  }

  // The squared distances of the pixels from m, summed.
  function Deviation(ps: seq<byte>, m: real): real {
    if ps == [] then 0.0
    else
      var n := |ps| - 1;
      Deviation(ps[..n], m) + (ps[n] as real - m) * (ps[n] as real - m)
  }

  // The spread within the two classes, each around its own mean.
  function Within(ps: seq<byte>, level: int): real
    requires Splits(ps, level)
  {
    var lo, hi := Low(ps, level), High(ps, level);
    Deviation(lo, Mean(lo)) + Deviation(hi, Mean(hi))
  }

  function Squares(ps: seq<byte>): real {
    if ps == [] then 0.0
    else
      var n := |ps| - 1;
      Squares(ps[..n]) + Square(ps[n])
  }

  function Square(v: byte): real { v as real * v as real }

  lemma {:induction false} DeviationIs(ps: seq<byte>, m: real)
    ensures Deviation(ps, m) == Squares(ps) - 2.0 * m * Sum(ps) as real + |ps| as real * m * m
  {
    hide Deviation, Squares, Sum;
    if ps == [] {
      NothingDeviates(m);
    } else {
      var rest, v := ps[..|ps| - 1], ps[|ps| - 1];
      DeviationIs(rest, m);
      DeviationLast(ps, m);
      DeviationStep(Deviation(rest, m), Squares(rest), Sum(rest) as real, |rest| as real, m, v as real);
    }
  }

  lemma NothingDeviates(m: real)
    ensures Deviation([], m) == 0.0 && Squares([]) == 0.0 && Sum([]) == 0
  {
  }

  lemma DeviationLast(ps: seq<byte>, m: real)
    requires ps != []
    ensures var rest, v := ps[..|ps| - 1], ps[|ps| - 1];
            && Deviation(ps, m) == Deviation(rest, m) + (v as real - m) * (v as real - m)
            && Squares(ps) == Squares(rest) + v as real * v as real
            && Sum(ps) as real == Sum(rest) as real + v as real
  {
  }

  lemma DeviationStep(d: real, q: real, s: real, n: real, m: real, v: real)
    requires d == q - 2.0 * m * s + n * m * m
    ensures d + (v - m) * (v - m) == q + v * v - 2.0 * m * (s + v) + (n + 1.0) * m * m
  {
  }

  lemma {:induction false} SquaresPartition(ps: seq<byte>, level: int)
    ensures Squares(Low(ps, level)) + Squares(High(ps, level)) == Squares(ps)
  {
    hide Square;
    if ps != [] {
      var n := |ps| - 1;
      SquaresPartition(ps[..n], level);
      SquaresOne(Low(ps[..n], level), ps[n]);
      SquaresOne(High(ps[..n], level), ps[n]);
      assert Low(ps[..n], level) + [] == Low(ps[..n], level);
      assert High(ps[..n], level) + [] == High(ps[..n], level);
    }
  }

  lemma SquaresOne(ps: seq<byte>, v: byte)
    ensures Squares(ps + [v]) == Squares(ps) + Square(v)
  {
    assert (ps + [v])[..|ps|] == ps;
  }

  lemma AroundMean(ps: seq<byte>)
    requires ps != []
    ensures var m, n := Mean(ps), |ps| as real;
            Sum(ps) as real == n * m && Deviation(ps, m) == Squares(ps) - n * m * m
  {
    hide Sum, Deviation, Squares;
    var m, n := Mean(ps), |ps| as real;
    assert Sum(ps) as real == n * m;
    DeviationIs(ps, m);
    Cancel(m, n);
  }

  lemma Cancel(m: real, n: real)
    ensures -2.0 * m * (n * m) + n * m * m == -(n * m * m)
  {
  }

  // The variance between the classes is what splitting takes from the spread of the pixels around
  // their mean, times their number.
  lemma VarianceDecomposes(ps: seq<byte>, level: int)
    requires Splits(ps, level)
    ensures ps != []
    ensures var n := |ps| as real;
            Variance(ps, level) == n * Deviation(ps, Mean(ps)) - n * Within(ps, level)
  {
    hide *;
    var lo, hi := Low(ps, level), High(ps, level);
    AreClasses(ps, level);
    Partition(ps, level);
    SquaresPartition(ps, level);
    AroundMean(ps);
    AroundMean(lo);
    AroundMean(hi);
    BetweenMeans(lo, hi);
    Decompose(|lo| as real, Mean(lo), Squares(lo), Deviation(lo, Mean(lo)), |hi| as real, Mean(hi), Squares(hi),
              Deviation(hi, Mean(hi)), |ps| as real, Mean(ps), Deviation(ps, Mean(ps)));
  }

  lemma AreClasses(ps: seq<byte>, level: int)
    requires Splits(ps, level)
    ensures var lo, hi := Low(ps, level), High(ps, level);
            && lo != [] && hi != [] && ps != []
            && Variance(ps, level) == Between(|lo|, Sum(lo), |hi|, Sum(hi))
            && Within(ps, level) == Deviation(lo, Mean(lo)) + Deviation(hi, Mean(hi))
  {
    hide Sum, Deviation, Low, High, Mean, Between;
    Partition(ps, level);
  }

  lemma BetweenMeans(lo: seq<byte>, hi: seq<byte>)
    requires lo != [] && hi != []
    ensures var u, v := Mean(lo), Mean(hi);
            Between(|lo|, Sum(lo), |hi|, Sum(hi)) == |lo| as real * |hi| as real * (u - v) * (u - v)
  {
    hide Sum;
  }

  lemma Decompose(a: real, u: real, p: real, c: real, b: real, v: real, q: real, d: real, n: real, m: real, e: real)
    requires n == a + b && n * m == a * u + b * v
    requires c == p - a * u * u && d == q - b * v * v && e == p + q - n * m * m
    ensures a * b * (u - v) * (u - v) == n * e - n * (c + d)
  {
    var s := a * u + b * v;
    assert n * (n * m * m) == (n * m) * (n * m) == s * s;
    assert s * s == a * a * u * u + 2.0 * a * b * u * v + b * b * v * v;
    assert n * (c + d) == n * (p + q) - (a + b) * (a * u * u + b * v * v);
    assert n * e == n * (p + q) - n * (n * m * m);
  }

  // So the best levels are those that leave the least spread within the classes.
  lemma BestIsTightest(ps: seq<byte>, i: int, j: int)
    requires Splits(ps, i) && Splits(ps, j)
    ensures Variance(ps, i) <= Variance(ps, j) <==> Within(ps, j) <= Within(ps, i)
  {
    hide Splits, Variance, Within, Deviation, Mean;
    VarianceDecomposes(ps, i);
    VarianceDecomposes(ps, j);
    Scaled(|ps| as real, Within(ps, i), Within(ps, j));
  }

  lemma Scaled(n: real, a: real, b: real)
    requires n > 0.0
    ensures n * b <= n * a <==> b <= a
  {
  }

  // When the best levels are contiguous the level is one of them.
  lemma LevelIsBest(ps: seq<byte>, t: int)
    requires OtsuLevel(ps, t) && exists j :: 0 <= j < 256 && Splits(ps, j)
    requires forall i, j, k :: i < j < k && Best(ps, i, 256) && Best(ps, k, 256) ==> Best(ps, j, 256)
    ensures Best(ps, t, 256)
  {
    hide Splits, Best;
    var first, last :| LeastBest(ps, first, 256) && GreatestBest(ps, last, 256) && t == (first + last) / 2;
    BestRange(ps, last);
    if last < first {
      assert false;
    }
  }

  lemma BestRange(ps: seq<byte>, level: int)
    ensures Best(ps, level, 256) ==> 0 <= level < 256
  {
  }

  ghost predicate TwoValued(ps: seq<byte>, a: byte, b: byte) {
    a < b && a in ps && b in ps && forall v :: v in ps ==> v == a || v == b
  }

  lemma {:induction false} TwoClasses(ps: seq<byte>, a: byte, b: byte, level: int)
    requires a < b && forall v :: v in ps ==> v == a || v == b
    ensures level < a ==> Low(ps, level) == []
    ensures level >= b ==> High(ps, level) == []
    ensures a <= level < b ==> Low(ps, level) == Low(ps, a) && High(ps, level) == High(ps, a)
    ensures a in ps ==> Low(ps, a) != []
    ensures b in ps ==> High(ps, a) != []
  {
    if ps != [] {
      var n := |ps| - 1;
      assert ps == ps[..n] + [ps[n]];
      assert ps[n] in ps && forall v :: v in ps[..n] ==> v in ps;
      TwoClasses(ps[..n], a, b, level);
    }
  }

  lemma TwoValuedLevels(ps: seq<byte>, a: byte, b: byte, j: int)
    requires TwoValued(ps, a, b)
    ensures Splits(ps, j) <==> a <= j < b
    ensures Splits(ps, j) && Splits(ps, a) ==> Variance(ps, j) == Variance(ps, a)
  {
    hide Low, High, Between;
    TwoClasses(ps, a, b, j);
    TwoClasses(ps, a, b, a);
  }

  // On a picture of two gray levels the level is half way between them, so without bias the darker
  // one prints black and the lighter one white.
  lemma TwoValuedSeparated(ps: seq<byte>, a: byte, b: byte, t: int)
    requires TwoValued(ps, a, b) && OtsuLevel(ps, t)
    ensures t == (a + b - 1) / 2
    ensures forall v :: v in ps ==> (v <= t <==> v == a)
  {
    hide Splits, Variance;
    forall j ensures Splits(ps, j) <==> a <= j < b
             ensures Splits(ps, j) && Splits(ps, a) ==> Variance(ps, j) == Variance(ps, a)
    {
      TwoValuedLevels(ps, a, b, j);
    }
    assert Splits(ps, a);
    var first, last :| LeastBest(ps, first, 256) && GreatestBest(ps, last, 256) && t == (first + last) / 2;
    assert Best(ps, a, 256) && Best(ps, b - 1, 256);
  }

  // No level splits the pixels exactly when they are all alike, and then the level is 128.
  lemma UniformLevel(ps: seq<byte>)
    ensures (forall j :: 0 <= j < 256 ==> !Splits(ps, j)) <==> forall v, w :: v in ps && w in ps ==> v == w
    ensures (forall v, w :: v in ps && w in ps ==> v == w) ==> forall t :: OtsuLevel(ps, t) <==> t == 128
  {
    hide Splits;
    forall j, v, w | v in ps && w in ps && v <= j < w ensures Splits(ps, j) {
      InClasses(ps, v, j);
      InClasses(ps, w, j);
      ClassesSplit(ps, j);
    }
    forall j | Splits(ps, j) ensures exists v, w :: v in ps && w in ps && v < w {
      ClassesSplit(ps, j);
      var lo, hi := Low(ps, j), High(ps, j);
      InClasses(ps, lo[0], j);
      InClasses(ps, hi[0], j);
    }
    if forall j :: 0 <= j < 256 ==> !Splits(ps, j) {
      forall v, w | v in ps && w in ps ensures v == w {
        assert !Splits(ps, v) && !Splits(ps, w);
      }
    }
  }

  lemma ClassesSplit(ps: seq<byte>, level: int)
    ensures Splits(ps, level) <==> Low(ps, level) != [] && High(ps, level) != []
  {
  }

  lemma {:induction false} InClasses(ps: seq<byte>, v: int, level: int)
    ensures v in Low(ps, level) <==> v in ps && v <= level
    ensures v in High(ps, level) <==> v in ps && v > level
  {
    if ps != [] {
      InClasses(ps[..|ps| - 1], v, level);
      assert ps == ps[..|ps| - 1] + [ps[|ps| - 1]];
    }
  }
}
