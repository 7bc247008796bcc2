/**
  The number of fractional bits and which fixed-point weights are accepted, stated on the
  weights and the row sums of the matrix.
*/
module FixedPointBits {
  import opened Csc
  import opened FixedPoint

  /** The sum of the weight magnitudes of a bin. */
  function RowSum(m: Matrix, bin: nat): real
    requires m.Valid()
  {
    PartReal(Magnitudes(m.data), m.indices, bin, 0, |m.data|)
  }

  /** With b bits every weight is within the limit of its type; a matrix without entries
      counts as one of weight 1. */
  ghost predicate WeightsFit(m: Matrix, wlimit: nat, b: nat)
    requires m.Valid()
  {
    && (forall k :: 0 <= k < |m.data| ==> Scale(Abs(m.data[k]), b) <= wlimit as real)
    && (m.data == [] ==> Scale(1.0, b) <= wlimit as real)
  }

  /** With b bits every row sum (taken as at least 1e-30) times the largest pixel, plus
      one, is at most 2^62; a matrix without bins counts as one of row sum 1. */
  ghost predicate RowsFit(m: Matrix, maxval: nat, b: nat)
    requires m.Valid()
  {
    && (forall bin :: 0 <= bin < m.nbins ==> RowFits(maxval, RowSum(m, bin), b))
    && (m.nbins == 0 ==> RowFits(maxval, 1.0, b))
  }

  predicate RowFits(maxval: nat, row: real, b: nat) {
    (maxval + 1) as real * Scale(MaxReal(row, TINY), b) <= TWO_62 as real
  }

  ghost predicate BitsFit(m: Matrix, maxval: nat, wlimit: nat, b: nat)
    requires m.Valid()
  {
    WeightsFit(m, wlimit, b) && RowsFit(m, maxval, b)
  }

  /** A negative weight within a millionth of some weight. */
  ghost predicate Negligible(data: seq<real>, k: nat)
    requires k < |data|
  {
    exists j :: 0 <= j < |data| && data[k] >= -Abs(data[j]) / 1000000.0
  }

  /** What the largest weight of a column has to become: the rounded sum of the column
      less the other weights, rounded one by one. */
  function Remainder(w: seq<real>, lo: nat, hi: nat): int
    requires lo < hi <= |w|
  {
    var big := FirstMax(w, lo, hi);
    Rint(SumReal(w, lo, hi)) - (SumInt(Rounded(w), lo, hi) - Rint(w[big]))
  }

  /** The column's integer weights are unsigned and within the limit. */
  ghost predicate ColumnFits(w: seq<real>, lo: nat, hi: nat, wlimit: nat)
    requires lo < hi <= |w|
  {
    && 0 <= Remainder(w, lo, hi) <= wlimit
    && forall k :: lo <= k < hi && k != FirstMax(w, lo, hi) ==> Rint(w[k]) <= wlimit
  }

  ghost predicate PixelFits(m: Matrix, w: seq<real>, wlimit: nat, p: nat)
    requires m.Valid() && |w| == |m.indices| && p < m.Npix() && m.Count(p) > 0
  {
    m.indptr[p + 1] <= |w| && ColumnFits(w, m.indptr[p], m.indptr[p + 1], wlimit)
  }

  ghost predicate ColumnsFit(m: Matrix, w: seq<real>, wlimit: nat)
    requires m.Valid() && |w| == |m.indices|
  {
    forall p :: 0 <= p < m.Npix() && m.Count(p) > 0 ==> PixelFits(m, w, wlimit, p)
  }

  /** The adjusted weights lo .. hi are unsigned and within the limit. */
  predicate Within(q: seq<int>, lo: nat, hi: nat, wlimit: nat) {
    forall k :: lo <= k < hi && k < |q| ==> 0 <= q[k] <= wlimit
  }

  /** A column of one weight, or whose largest stays clear of both limits by half the
      number of its weights, which is what rounding can take from it or give to it. */
  ghost predicate Roomy(m: Matrix, w: seq<real>, p: nat, wlimit: nat)
    requires m.Valid() && |w| == |m.indices| && p < m.Npix() && m.Count(p) > 0
  {
    m.Count(p) == 1 ||
      (m.Count(p) as real / 2.0 <= w[Biggest(m, w, p)] && w[Biggest(m, w, p)] + m.Count(p) as real / 2.0 <= wlimit as real)
  }
}
