/** Sample buffers of one audio block and the element-wise arithmetic the
    mixing engine performs on them (numpy's vectorised operations). Samples are
    modelled as mathematical reals; floating-point rounding is not modelled. */
module Signal {

  /** One channel's samples for one block, one entry per frame. */
  type Samples = seq<real>

  /** `np.zeros(n)`. */
  function Zeros(n: nat): (r: Samples)
    ensures |r| == n
    ensures forall k :: 0 <= k < n ==> r[k] == 0.0
  {
    seq(n, _ => 0.0)
  }

  /** `s * g`: every sample multiplied by the same gain. */
  function Scaled(s: Samples, g: real): (r: Samples)
    ensures |r| == |s|
    ensures forall k :: 0 <= k < |s| ==> r[k] == s[k] * g
  {
    seq(|s|, k requires 0 <= k < |s| => s[k] * g)
  }

  /** `a + b` on two buffers of the same length. */
  function Add(a: Samples, b: Samples): (r: Samples)
    requires |a| == |b|
    ensures |r| == |a|
    ensures forall k :: 0 <= k < |a| ==> r[k] == a[k] + b[k]
  {
    seq(|a|, k requires 0 <= k < |a| => a[k] + b[k])
  }

  /** `np.sum(s**2)`. */
  function SumSquares(s: Samples): (r: real)
    ensures r >= 0.0
  {
    if s == [] then 0.0 else s[0] * s[0] + SumSquares(s[1..])
  }

  /** `np.mean(s**2)`, the square of the RMS energy. An empty block (where numpy
      would yield NaN) is given energy 0. */
  function MeanSquare(s: Samples): (r: real)
    ensures r >= 0.0
  {
    if |s| == 0 then 0.0 else SumSquares(s) / (|s| as real)
  }

  /** An all-zero buffer has energy 0. */
  lemma {:induction false} MeanSquareOfZeros(n: nat)
    ensures MeanSquare(Zeros(n)) == 0.0
  {
    SumSquaresOfZeros(n);
  }

  lemma {:induction false} SumSquaresOfZeros(n: nat)
    ensures SumSquares(Zeros(n)) == 0.0
  {
    if n > 0 {
      assert Zeros(n)[1..] == Zeros(n - 1);
      SumSquaresOfZeros(n - 1);
    }
  }

  /** `np.clip(x, lo, hi)` on one value. */
  function Clip(x: real, lo: real, hi: real): (r: real)
    requires lo <= hi
    ensures lo <= r <= hi
    ensures lo <= x <= hi ==> r == x
    ensures x < lo ==> r == lo
    ensures hi < x ==> r == hi
  {
    if x < lo then lo else if hi < x then hi else x
  }

  /** The square of a value: the mean square of a signal is the square of
      its RMS. */
  function Sq(x: real): real
  {
    x * x
  }

  /** For non-negative values, comparing RMS values is the same as comparing
      their squares; this is why the model may work with mean squares and a
      squared threshold instead of square roots. */
  lemma SquareComparison(x: real, y: real)
    requires x >= 0.0 && y >= 0.0
    ensures x < y <==> x * x < y * y
    ensures x <= y <==> x * x <= y * y
  {
    if x < y {
      SquareStrictlyMonotone(x, y);
    } else if y < x {
      SquareStrictlyMonotone(y, x);
    }
  }

  /** A non-zero value has a positive square. */
  lemma SquarePositive(x: real)
    requires x != 0.0
    ensures x * x > 0.0
  {
  }

  /** Squaring is strictly increasing on the non-negative reals. */
  lemma SquareStrictlyMonotone(x: real, y: real)
    requires 0.0 <= x < y
    ensures x * x < y * y
  {
    var d := y - x;
    assert y * y == x * x + 2.0 * x * d + d * d;
    SquarePositive(d);
    assert x * d >= 0.0;
  }

  /** A non-negative amount scaled by a coefficient in [0, 1] stays between 0
      and itself. */
  lemma ScaledBetween(d: real, alpha: real)
    requires d >= 0.0 && 0.0 <= alpha <= 1.0
    ensures 0.0 <= d * alpha <= d
  {
    assert d - d * alpha == d * (1.0 - alpha);
  }
}
