/**
  Fixed-point weights for exact integer sums: how many fractional bits fit
  (`_fixed_point_bits`), the rounding of the weights with each column's residual on
  its largest weight (`_quantise`), and the wrapping sums of the integer dots.
*/
module FixedPoint {
  import opened Csc
  import opened Numpy
  import opened Product

  // ---- arithmetic ---------------------------------------------------------

  /** np.rint: to the nearest integer, ties to even (IEEE 754-2019, 4.3.1). */
  function Rint(r: real): int {
    var f := r.Floor;
    var d := r - f as real;
    if d < 0.5 then f else if d > 0.5 then f + 1 else if f % 2 == 0 then f else f + 1
  }

  function Pow2(e: int): (r: real)
    ensures r > 0.0
    decreases if e < 0 then -e else e
  {
    if e == 0 then 1.0 else if e > 0 then 2.0 * Pow2(e - 1) else Pow2(e + 1) / 2.0
  }

  /** floor(log2(r)), by doubling and halving. */
  function FloorLog2(r: real): (e: int)
    requires r > 0.0
    ensures Pow2(e) <= r < Pow2(e + 1)
    decreases if r >= 1.0 then r.Floor else 2 + (1.0 / r).Floor
  {
    if r >= 2.0 then
      assert (r / 2.0).Floor < r.Floor;
      FloorLog2(r / 2.0) + 1
    else if r < 1.0 then
      assert 2.0 * r < 1.0 ==> (1.0 / (2.0 * r)).Floor < (1.0 / r).Floor by { HalfFloor(r); }
      FloorLog2(2.0 * r) - 1
    else 0
  }

  lemma HalfFloor(r: real)
    requires 0.0 < r < 1.0
    ensures 2.0 * r < 1.0 ==> (1.0 / (2.0 * r)).Floor < (1.0 / r).Floor
  {
    if 2.0 * r < 1.0 {
      var x := 1.0 / r;
      assert x * r == 1.0;
      assert 1.0 / (2.0 * r) == x / 2.0;
      assert x > 2.0;
    }
  }

  function Abs(r: real): real {
    if r < 0.0 then -r else r
  }

  function MaxReal(a: real, b: real): real {
    if a < b then b else a
  }

  function SumReal(s: seq<real>, lo: nat, hi: nat): real
    requires hi <= |s|
  {
    if hi <= lo then 0.0 else SumReal(s, lo, hi - 1) + s[hi - 1]
  }

  function SumInt(s: seq<int>, lo: nat, hi: nat): int
    requires hi <= |s|
  {
    if hi <= lo then 0 else SumInt(s, lo, hi - 1) + s[hi - 1]
  }

  /** The sum of s over the entries lo .. hi of bin b (np.bincount with weights). */
  function PartReal(s: seq<real>, bins: seq<nat>, b: nat, lo: nat, hi: nat): real
    requires hi <= |s| == |bins|
  {
    if hi <= lo then 0.0
    else PartReal(s, bins, b, lo, hi - 1) + if bins[hi - 1] == b then s[hi - 1] else 0.0
  }

  function PartInt(s: seq<int>, bins: seq<nat>, b: nat, lo: nat, hi: nat): int
    requires hi <= |s| == |bins|
  {
    if hi <= lo then 0
    else PartInt(s, bins, b, lo, hi - 1) + if bins[hi - 1] == b then s[hi - 1] else 0
  }

  /** The largest magnitude in s, 0 when empty. */
  function MaxAbs(s: seq<real>): (r: real)
    ensures r >= 0.0 && forall k :: 0 <= k < |s| ==> Abs(s[k]) <= r
  {
    if s == [] then 0.0 else MaxReal(MaxAbs(s[..|s| - 1]), Abs(s[|s| - 1]))
  }

  function Magnitudes(s: seq<real>): (r: seq<real>)
    ensures |r| == |s| && forall k :: 0 <= k < |s| ==> r[k] == Abs(s[k])
  {
    seq(|s|, k requires 0 <= k < |s| => Abs(s[k]))
  }

  /** The largest sum of weight magnitudes over the bins below n, 0 for none. */
  function MaxRowSum(m: Matrix, n: nat): (r: real)
    requires m.Valid()
    ensures r >= 0.0
    ensures forall b :: 0 <= b < n ==> PartReal(Magnitudes(m.data), m.indices, b, 0, |m.data|) <= r
  {
    if n == 0 then 0.0
    else MaxReal(MaxRowSum(m, n - 1), PartReal(Magnitudes(m.data), m.indices, n - 1, 0, |m.data|))
  }

  // ---- _fixed_point_bits --------------------------------------------------

  const TINY: real := 1.0 / 1000000000000000000000000000000.0
  const MAX_BITS: int := 40
  const MIN_BITS: int := 4
  const TWO_62: int := 0x4000_0000_0000_0000
  const TWO_63: int := 0x8000_0000_0000_0000
  const TWO_64: int := 0x1_0000_0000_0000_0000

  function Lesser(a: int, b: int): int {
    if a < b then a else b
  }

  /** floor(log2(wlimit / max(wmax, 1e-30))): the weights fit their integer type. */
  function FitBits(wlimit: nat, wmax: real): (e: int)
    requires wlimit >= 1
  {
    Positive(wlimit as real, MaxReal(wmax, TINY));
    FloorLog2(wlimit as real / MaxReal(wmax, TINY))
  }

  /** 2^62 / ((maxval + 1) * max(rmax, 1e-30)) */
  function Budget(maxval: nat, rmax: real): (r: real)
    ensures r > 0.0
  {
    ProductPositive((maxval + 1) as real, MaxReal(rmax, TINY));
    Positive(TWO_62 as real, (maxval + 1) as real * MaxReal(rmax, TINY));
    TWO_62 as real / ((maxval + 1) as real * MaxReal(rmax, TINY))
  }

  /** floor(62 - log2(maxval + 1) - log2(max(rmax, 1e-30))): the sums fit int64. */
  function SumBits(maxval: nat, rmax: real): (e: int) {
    FloorLog2(Budget(maxval, rmax))
  }

  /** The number of fractional bits for pixels up to maxval: the largest weight must
      fit wlimit (2^wbits - 1), and 2^b * rowsum * (maxval + 1) must fit 2^62. */
  function Bits(m: Matrix, maxval: nat, wlimit: nat): Result<nat>
    requires m.Valid() && wlimit >= 1
  {
    var wmax := if m.data == [] then 1.0 else MaxAbs(m.data);
    var rmax := if m.nbins == 0 then 1.0 else MaxRowSum(m, m.nbins);
    var b := Lesser(Lesser(FitBits(wlimit, wmax), SumBits(maxval, rmax)), MAX_BITS);
    if b < MIN_BITS then Refused(NoRoom) else Success(b)
  }

  lemma Positive(a: real, b: real)
    requires a > 0.0 && b > 0.0
    ensures a / b > 0.0
  {
    var c := a / b;
    assert c * b == a;
    if c <= 0.0 { ProductNonpositive(c, b); }
  }

  lemma ProductNonpositive(a: real, b: real)
    requires a <= 0.0 && b > 0.0
    ensures a * b <= 0.0
  {
  }

  lemma ProductPositive(a: real, b: real)
    requires a > 0.0 && b > 0.0
    ensures a * b > 0.0
  {
  }

  // ---- _quantise ----------------------------------------------------------

  /** Negative weights within 1e-6 of the largest are taken as 0; larger refused. */
  function Clamped(data: seq<real>): Result<seq<real>> {
    if exists k :: 0 <= k < |data| && data[k] < 0.0 && data[k] < -MaxAbs(data) / 1000000.0 then Refused(NegativeWeight)
    else Success(seq(|data|, k requires 0 <= k < |data| => MaxReal(data[k], 0.0)))
  }

  /** r * 2^b */
  function Scale(r: real, b: nat): real {
    if b == 0 then r else 2.0 * Scale(r, b - 1)
  }

  function Scaled(d: seq<real>, b: nat): (w: seq<real>)
    ensures |w| == |d| && forall k :: 0 <= k < |d| ==> w[k] == Scale(d[k], b)
  {
    seq(|d|, k requires 0 <= k < |d| => Scale(d[k], b))
  }

  function Rounded(w: seq<real>): (q: seq<int>)
    ensures |q| == |w| && forall k :: 0 <= k < |w| ==> q[k] == Rint(w[k])
  {
    seq(|w|, k requires 0 <= k < |w| => Rint(w[k]))
  }

  /** The first of the largest weights of the entries lo .. hi. */
  function FirstMax(w: seq<real>, lo: nat, hi: nat): (k: nat)
    requires lo < hi <= |w|
    ensures lo <= k < hi && forall i :: lo <= i < hi ==> w[i] <= w[k]
    ensures forall i :: lo <= i < k ==> w[i] < w[k]
  {
    if lo + 1 == hi then lo
    else
      var k := FirstMax(w, lo, hi - 1);
      if w[hi - 1] > w[k] then hi - 1 else k
  }

  /** What rounding changed in the sum of a column: target - got. */
  function Residual(w: seq<real>, lo: nat, hi: nat): int
    requires hi <= |w|
  {
    Rint(SumReal(w, lo, hi)) - SumInt(Rounded(w), lo, hi)
  }

  function Biggest(m: Matrix, w: seq<real>, p: nat): (k: nat)
    requires m.Valid() && |w| == |m.indices| && p < m.Npix() && m.Count(p) > 0
    ensures m.indptr[p] <= k < m.indptr[p + 1] && k < |w|
  {
    assert m.indptr[p + 1] <= m.indptr[m.Npix()];
    FirstMax(w, m.indptr[p], m.indptr[p + 1])
  }

  /** Entry k after its column's residual has been put on the biggest weight. */
  function Adjusted(m: Matrix, w: seq<real>, pix: seq<nat>, k: nat): int
    requires m.Valid() && |w| == |pix| == |m.indices| && k < |w|
    requires pix[k] < m.Npix() && m.indptr[pix[k]] <= k < m.indptr[pix[k] + 1]
  {
    var p := pix[k];
    Rint(w[k]) + if k == Biggest(m, w, p) then Residual(w, m.indptr[p], m.indptr[p + 1]) else 0
  }

  function AllAdjusted(m: Matrix, w: seq<real>): (q: seq<int>)
    requires m.Valid() && |w| == |m.indices|
    ensures |q| == |w| && |Pix(m)| == |w|
  {
    TraceAt(m);
    seq(|w|, k requires 0 <= k < |w| => PixAt(m, k); Adjusted(m, w, Pix(m), k))
  }

  function Quantise(m: Matrix, b: nat, wlimit: nat): Result<seq<int>>
    requires m.Valid()
  {
    match Clamped(m.data)
    case Refused(e) => Refused(e)
    case Success(d) =>
      var q := AllAdjusted(m, Scaled(d, b));
      if exists k :: 0 <= k < |q| && q[k] < 0 then Refused(NegativeWeight)
      else if exists k :: 0 <= k < |q| && q[k] > wlimit then Refused(WeightOverflow)
      else Success(q)
  }

  /** What a column of integer weights keeps of its weights w: the rounded sum, and
      every weight within a half, except the first of the largest, which may move by
      half the number of bins. */
  ghost predicate IntensityKept(q: seq<int>, w: seq<real>, lo: nat, hi: nat) {
    && |q| == |w| && lo < hi <= |w|
    && SumInt(q, lo, hi) == Rint(SumReal(w, lo, hi))
    && (forall k :: lo <= k < hi && k != FirstMax(w, lo, hi) ==> Abs(q[k] as real - w[k]) <= 0.5)
    && Abs(q[FirstMax(w, lo, hi)] as real - w[FirstMax(w, lo, hi)]) <= (hi - lo) as real / 2.0
  }

  // ---- the integer dots ---------------------------------------------------

  function PixelInt(x: seq<int>, p: nat): int {
    if p < |x| then x[p] else 0
  }

  /** The exact products weight * pixel, entry by entry. */
  function Products(q: seq<int>, pix: seq<nat>, x: seq<int>): (r: seq<int>)
    requires |q| == |pix|
    ensures |r| == |q| && forall k :: 0 <= k < |q| ==> r[k] == q[k] * PixelInt(x, pix[k])
  {
    seq(|q|, k requires 0 <= k < |q| => q[k] * PixelInt(x, pix[k]))
  }

  /** The exact sum of bin b. */
  function BinSum(m: Matrix, q: seq<int>, x: seq<int>, b: nat): int
    requires m.Valid() && |q| == |m.indices|
  {
    TraceAt(m);
    PartInt(Products(q, Pix(m), x), m.indices, b, 0, |q|)
  }

  /** out[bin] += (uint64_t) d[k] * (uint64_t) (int64_t) v, all modulo 2^64
      (src/steps/dot_fixed.hpp), over the first n entries. */
  function Wrapped(q: seq<int>, pix: seq<nat>, bins: seq<nat>, x: seq<int>, b: nat, n: nat): (r: int)
    requires n <= |q| == |pix| == |bins|
    ensures 0 <= r < TWO_64
  {
    if n == 0 then 0
    else
      var before := Wrapped(q, pix, bins, x, b, n - 1);
      if bins[n - 1] == b then (before + q[n - 1] * (PixelInt(x, pix[n - 1]) % TWO_64)) % TWO_64 else before
  }

  /** The powder is read back as int64. */
  function AsInt64(v: int): int {
    if v < TWO_63 then v else v - TWO_64
  }
}
