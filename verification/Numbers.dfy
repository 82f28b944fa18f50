/** Powers of two, and the places of a grid that is stored row after row. */
module Numbers {
  function Pow2(n: nat): nat {
    if n == 0 then 1 else 2 * Pow2(n - 1)
  }

  lemma RowNext(stride: nat, y: nat)
    ensures (y + 1) * stride == y * stride + stride
  {
  }

  lemma {:induction false} RowOrder(stride: nat, y: nat, y': nat)
    ensures y < y' ==> y * stride + stride <= y' * stride
    decreases y'
  {
    if y < y' {
      RowNext(stride, y' - 1);
      RowOrder(stride, y, y' - 1);
    }
  }

  // Where column x of row y is, in rows of stride places.
  function Pos(stride: nat, x: nat, y: nat): nat { y * stride + x }

  lemma PosInside(stride: nat, height: nat, x: nat, y: nat)
    requires x < stride && y < height
    ensures Pos(stride, x, y) < stride * height
  {
    RowNext(stride, height - 1);
    RowOrder(stride, y, height);
  }

  lemma PosInjective(stride: nat, x: nat, y: nat, x': nat, y': nat)
    requires x < stride && x' < stride && Pos(stride, x, y) == Pos(stride, x', y')
    ensures x == x' && y == y'
  {
    RowOrder(stride, y, y');
    RowOrder(stride, y', y);
  }
}
