/**
 * Integer facts shared by the kernels and the launch-configuration code:
 * ceiling division for grid sizes, the quotient/remainder decomposition of
 * flat offsets, and the coverage of a loop that starts at a lane number and
 * strides by the number of lanes.
 */
module IndexArith {

  /** Integer ceiling of a / b, as the launch code computes `(a - 1) / b + 1`
      for a >= 1 (and 0 for a == 0). */
  function CeilDiv(a: nat, b: nat): (r: nat)
    requires b > 0
    ensures r * b >= a
    ensures r == 0 || (r - 1) * b < a
  {
    if a == 0 then 0 else
      var q := (a - 1) / b;
      DivModSplit(a - 1, b);
      q + 1
  }

  /** o is q * d + o % d with 0 <= o % d < d. */
  lemma DivModSplit(o: int, d: int)
    requires d > 0
    ensures o == (o / d) * d + o % d
    ensures 0 <= o % d < d
  {
  }

  /** The quotient and the remainder of q * d + r are q and r when 0 <= r < d. */
  lemma DivModOf(q: int, d: int, r: int)
    requires d > 0 && 0 <= r < d
    ensures (q * d + r) / d == q
    ensures (q * d + r) % d == r
  {
    var o := q * d + r;
    DivModSplit(o, d);
    var q', r' := o / d, o % d;
    assert (q - q') * d == r' - r;
    if q > q' {
      assert (q - q') * d >= d by { MulAtLeast(q - q', d); }
    } else if q < q' {
      assert (q' - q) * d >= d by { MulAtLeast(q' - q, d); }
    }
  }

  lemma MulAtLeast(a: int, d: int)
    requires a >= 1 && d > 0
    ensures a * d >= d
  {
  }

  /** A positive product of naturals has positive factors. */
  lemma PositiveFactors(a: int, b: int)
    requires a >= 0 && b >= 0 && a * b > 0
    ensures a >= 1 && b >= 1
  {
    assert a == 0 || b == 0 ==> a * b == 0;
  }

  /** Multiplication distributes over a sum. */
  lemma Distrib(a: int, b: int, c: int)
    ensures (a + b) * c == a * c + b * c
  {
  }

  /** a * d <= b * d for 0 <= a <= b and d >= 0. */
  lemma MulMono(a: int, b: int, d: int)
    requires 0 <= a <= b && d >= 0
    ensures a * d <= b * d
  {
    assert b * d - a * d == (b - a) * d;
  }

  /** A quotient stays below q when the dividend stays below q * d. */
  lemma DivBelow(o: int, d: int, q: int)
    requires d > 0 && 0 <= o < q * d
    ensures o / d < q
  {
    DivModSplit(o, d);
    if o / d >= q {
      MulMono(q, o / d, d);
    }
  }

  /** Two-level offset: with 0 <= r < d and 0 <= q < n the offset r + q * d
      lies in [0, n * d). */
  lemma OffsetBelow(r: int, q: int, d: int, n: int)
    requires 0 <= r < d && 0 <= q < n
    ensures 0 <= r + q * d < n * d
  {
    MulMono(q, n - 1, d);
    assert (n - 1) * d + d == n * d;
  }

  /** The remainder a % d: for a strided loop, the lane that visits index a. */
  function Rem(a: int, d: int): (r: int)
    requires d > 0
    ensures 0 <= r < d
  {
    a % d
  }

  /** The quotient a / d, tied to Rem. */
  function Quot(a: int, d: int): (q: int)
    requires d > 0
    ensures a == q * d + Rem(a, d)
    ensures a >= 0 ==> q >= 0
  {
    DivModSplit(a, d);
    a / d
  }

  /** Quotient and remainder of q * d + r with 0 <= r < d. */
  lemma QuotRemOf(q: int, d: int, r: int)
    requires d > 0 && 0 <= r < d
    ensures Quot(q * d + r, d) == q && Rem(q * d + r, d) == r
  {
    DivModOf(q, d, r);
  }

  /** The quotient of an index below n * d is below n. */
  lemma QuotBelow(a: int, d: int, n: int)
    requires d > 0 && 0 <= a < n * d
    ensures 0 <= Quot(a, d) < n
  {
    DivBelow(a, d, n);
  }

  /** Strided coverage: a loop over `i := lane; i < bound; i := i + stride`
      visits index c exactly when c % stride == lane. Stepping over one
      stride never skips a matching index. */
  lemma StrideStep(c: int, i: int, stride: int)
    requires stride > 0 && i >= 0 && c >= 0
    requires Rem(c, stride) == Rem(i, stride)
    requires i <= c < i + stride
    ensures c == i
  {
    DivModSplit(c, stride);
    DivModSplit(i, stride);
    var qc, qi := c / stride, i / stride;
    assert (qc - qi) * stride == c - i;
    if qc > qi {
      MulAtLeast(qc - qi, stride);
    } else if qc < qi {
      MulAtLeast(qi - qc, stride);
    }
  }

  /** The next index of a strided loop stays in the same residue class. */
  lemma StrideResidue(i: int, stride: int)
    requires stride > 0
    ensures Rem(i + stride, stride) == Rem(i, stride)
  {
    DivModSplit(i, stride);
    DivModOf(i / stride + 1, stride, i % stride);
    assert (i / stride + 1) * stride + i % stride == i + stride;
  }

  /** A lane below the stride is its own residue. */
  lemma FirstLane(lane: int, stride: int)
    requires 0 <= lane < stride
    ensures Rem(lane, stride) == lane
  {
    DivModOf(0, stride, lane);
  }
}
