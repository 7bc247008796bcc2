/**
  The int64 sums of the integer dots: when they cannot leave int64, an input for
  which they do, and what the wrapping accumulation computes.
*/
module FixedPointSums {
  import opened Csc
  import opened FixedPoint
  import opened FixedPointProof
  import opened Numpy
  import opened Product

  // ---- powers of two ------------------------------------------------------

  lemma {:induction false} Pow2Ascends(a: int, b: int)
    requires a <= b
    ensures Pow2(a) <= Pow2(b)
    decreases b - a
  {
    if a < b { Pow2Ascends(a, b - 1); }
  }

  lemma {:induction false} Pow2Adds(a: nat, b: nat)
    ensures Pow2(a + b) == Pow2(a) * Pow2(b)
  {
    if b > 0 {
      Pow2Adds(a, b - 1);
      assert Pow2(a + b) == 2.0 * Pow2(a + b - 1);
    }
  }

  /** The logarithm is the only exponent that brackets its argument. */
  lemma FloorLog2Unique(r: real, e: int)
    requires r > 0.0 && Pow2(e) <= r < Pow2(e + 1)
    ensures FloorLog2(r) == e
  {
    var f := FloorLog2(r);
    if f < e { Pow2Ascends(f + 1, e); }
    if e < f { Pow2Ascends(e + 1, f); }
  }

  // ---- the sums of a bin --------------------------------------------------

  lemma {:induction false} PartAscends(s: seq<real>, t: seq<real>, bins: seq<nat>, b: nat, n: nat)
    requires |s| == |t| == |bins| && n <= |s| && forall k :: 0 <= k < n ==> s[k] <= t[k]
    ensures PartReal(s, bins, b, 0, n) <= PartReal(t, bins, b, 0, n)
  {
    if n > 0 { PartAscends(s, t, bins, b, n - 1); }
  }

  lemma {:induction false} PartScaled(d: seq<real>, bits: nat, bins: seq<nat>, b: nat, n: nat)
    requires |d| == |bins| && n <= |d|
    ensures PartReal(Scaled(d, bits), bins, b, 0, n) == Scale(PartReal(d, bins, b, 0, n), bits)
  {
    if n > 0 {
      PartScaled(d, bits, bins, b, n - 1);
      ScaleAdds(PartReal(d, bins, b, 0, n - 1), d[n - 1], bits);
    } else {
      ScaleAdds(0.0, 0.0, bits);
    }
  }

  lemma {:induction false} ScaleAscends(r: real, s: real, b: nat)
    requires r <= s
    ensures Scale(r, b) <= Scale(s, b)
  {
    if b > 0 { ScaleAscends(r, s, b - 1); }
  }

  lemma {:induction false} ScaleIsProduct(r: real, b: nat)
    ensures Scale(r, b) == r * Pow2(b)
  {
    if b > 0 { ScaleIsProduct(r, b - 1); }
  }

  /** The sum of the weights of a bin, all pixels at 1. */
  function WeightSum(m: Matrix, q: seq<int>, b: nat): int
    requires m.Valid() && |q| == |m.indices|
  {
    PartInt(q, m.indices, b, 0, |q|)
  }

  lemma ScaleUp(r: real, s: real, p: real)
    requires r <= s && p > 0.0
    ensures r * p <= s * p
  {
  }

  /** The clamped weights of a bin are at most its weight magnitudes. */
  lemma ClampedRow(m: Matrix, d: seq<real>, b: nat)
    requires m.Valid() && Clamped(m.data) == Success(d) && |d| == |m.data| && b < m.nbins
    ensures PartReal(d, m.indices, b, 0, |d|) <= MaxRowSum(m, m.nbins)
  {
    PartAscends(d, Magnitudes(m.data), m.indices, b, |d|);
  }

  lemma ScaledRow(m: Matrix, d: seq<real>, bits: nat, b: nat, row: real)
    requires m.Valid() && |d| == |m.indices| && PartReal(d, m.indices, b, 0, |d|) <= row
    ensures PartReal(Scaled(d, bits), m.indices, b, 0, |d|) <= Scale(row, bits)
  {
    PartScaled(d, bits, m.indices, b, |d|);
    ScaleAscends(PartReal(d, m.indices, b, 0, |d|), row, bits);
  }

  lemma AdjustedRow(m: Matrix, w: seq<real>, b: nat)
    requires m.Valid() && |w| == |m.indices|
    ensures WeightSum(m, AllAdjusted(m, w), b) as real
            <= PartReal(w, m.indices, b, 0, |w|) + |m.indices| as real / 2.0
  {
    BinError(m, w, b, m.Npix());
    ErrorPart(AllAdjusted(m, w), w, m.indices, b, 0, |w|);
  }

  lemma QuantiseIs(m: Matrix, bits: nat, wlimit: nat, q: seq<int>) returns (d: seq<real>)
    requires m.Valid() && Quantise(m, bits, wlimit) == Success(q)
    ensures Clamped(m.data) == Success(d) && |d| == |m.data| == |q|
    ensures q == AllAdjusted(m, Scaled(d, bits)) && forall k :: 0 <= k < |q| ==> q[k] >= 0
  {
    d := Clamped(m.data).value;
  }

  /** The integer weights of a bin exceed the scaled weights by at most half the
      number of entries of the matrix, which is what the residuals can add. */
  lemma WeightSumBound(m: Matrix, d: seq<real>, bits: nat, b: nat)
    requires m.Valid() && Clamped(m.data) == Success(d) && |d| == |m.data| && b < m.nbins
    ensures WeightSum(m, AllAdjusted(m, Scaled(d, bits)), b) as real
            <= Scale(MaxRowSum(m, m.nbins), bits) + |m.indices| as real / 2.0
  {
    var row := MaxRowSum(m, m.nbins);
    ClampedRow(m, d, b);
    ScaledRow(m, d, bits, b, row);
    AdjustedRow(m, Scaled(d, bits), b);
  }

  lemma QuotientBound(total: real, scale: real, p: real)
    requires total > 0.0 && scale > 0.0 && p <= total / scale
    ensures p * scale <= total
  {
    ScaleUp(p, total / scale, scale);
    assert (total / scale) * scale == total;
  }

  lemma RowBound(v: real, row: real, rmax: real, p: real, total: real)
    requires v > 0.0 && p > 0.0 && rmax <= row && p * (v * row) <= total
    ensures v * (rmax * p) <= total
  {
    ProductPositive(v, p);
    ScaleUp(rmax, row, v * p);
    Regroup(v, row, p);
    Regroup(v, rmax, p);
  }

  lemma BudgetBound(maxval: nat, rmax: real, p: real)
    requires 0.0 < p <= Budget(maxval, rmax)
    ensures (maxval + 1) as real * (rmax * p) <= TWO_62 as real
  {
    var v, row := (maxval + 1) as real, MaxReal(rmax, TINY);
    ProductPositive(v, row);
    QuotientBound(TWO_62 as real, v * row, p);
    RowBound(v, row, rmax, p, TWO_62 as real);
  }

  lemma SumBitsBound(maxval: nat, rmax: real, b: nat)
    requires b <= SumBits(maxval, rmax)
    ensures (maxval + 1) as real * Scale(rmax, b) <= TWO_62 as real
  {
    Pow2Ascends(b, SumBits(maxval, rmax));
    BudgetBound(maxval, rmax, Pow2(b));
    ScaleIsProduct(rmax, b);
  }

  lemma BitsWithinSum(m: Matrix, maxval: nat, wlimit: nat, b: nat)
    requires m.Valid() && wlimit >= 1 && Bits(m, maxval, wlimit) == Success(b) && m.nbins > 0
    ensures b <= SumBits(maxval, MaxRowSum(m, m.nbins))
  {
  }

  lemma BudgetOfRow(v: real, row: real, rmax: real, b: nat, total: real)
    requires v > 0.0 && row <= rmax && v * Scale(rmax, b) <= total
    ensures v * Scale(row, b) <= total
  {
    ScaleAscends(row, rmax, b);
    ScaleUp(Scale(row, b), Scale(rmax, b), v);
  }

  /** The number of bits was chosen so that the largest scaled sum of a bin times the
      largest pixel, plus one, is at most 2^62. */
  lemma BitsBound(m: Matrix, maxval: nat, wlimit: nat, b: nat)
    requires m.Valid() && wlimit >= 1 && Bits(m, maxval, wlimit) == Success(b) && m.nbins > 0
    ensures (maxval + 1) as real * Scale(MaxRowSum(m, m.nbins), b) <= TWO_62 as real
  {
    BitsWithinSum(m, maxval, wlimit, b);
    SumBitsBound(maxval, MaxRowSum(m, m.nbins), b);
  }

  /** So it is for the scaled weight magnitudes of every bin. */
  lemma BinBudget(m: Matrix, maxval: nat, wlimit: nat, b: nat, bin: nat)
    requires m.Valid() && wlimit >= 1 && Bits(m, maxval, wlimit) == Success(b) && bin < m.nbins
    ensures (maxval + 1) as real * Scale(PartReal(Magnitudes(m.data), m.indices, bin, 0, |m.data|), b) <= TWO_62 as real
  {
    var row := PartReal(Magnitudes(m.data), m.indices, bin, 0, |m.data|);
    BitsBound(m, maxval, wlimit, b);
    BudgetOfRow((maxval + 1) as real, row, MaxRowSum(m, m.nbins), b, TWO_62 as real);
  }

  lemma Regroup(a: real, r: real, p: real)
    ensures p * (a * r) == r * (a * p) == a * (r * p)
  {
  }

  // ---- overflow -----------------------------------------------------------

  lemma {:induction false} ProductsBound(q: seq<int>, pix: seq<nat>, x: seq<int>, bins: seq<nat>, b: nat, lo: int, hi: int, n: nat)
    requires |q| == |pix| == |bins| && n <= |q|
    requires forall k :: 0 <= k < n ==> q[k] >= 0
    requires forall k :: 0 <= k < n ==> lo <= PixelInt(x, pix[k]) <= hi
    ensures lo * PartInt(q, bins, b, 0, n) <= PartInt(Products(q, pix, x), bins, b, 0, n) <= hi * PartInt(q, bins, b, 0, n)
  {
    if n > 0 {
      ProductsBound(q, pix, x, bins, b, lo, hi, n - 1);
      ProductBound(q[n - 1], PixelInt(x, pix[n - 1]), lo, hi);
      Distribute(lo, PartInt(q, bins, b, 0, n - 1), q[n - 1]);
      Distribute(hi, PartInt(q, bins, b, 0, n - 1), q[n - 1]);
    }
  }

  lemma ProductBound(w: int, v: int, lo: int, hi: int)
    requires w >= 0 && lo <= v <= hi
    ensures lo * w <= w * v <= hi * w
  {
  }

  lemma Distribute(a: int, b: int, c: int)
    ensures a * (b + c) == a * b + a * c
  {
  }

  lemma {:induction false} PartNonnegative(q: seq<int>, bins: seq<nat>, b: nat, n: nat)
    requires |q| == |bins| && n <= |q| && forall k :: 0 <= k < n ==> q[k] >= 0
    ensures PartInt(q, bins, b, 0, n) >= 0
  {
    if n > 0 { PartNonnegative(q, bins, b, n - 1); }
  }

  lemma TwiceFits(v: nat, s: nat, nnz: nat, scaled: real)
    requires s as real <= scaled + nnz as real / 2.0 && v >= 1 && v as real * scaled <= TWO_62 as real
    ensures 2 * (v * s) <= TWO_63 + v * nnz
  {
    ScaleUp(s as real, scaled + nnz as real / 2.0, v as real);
    assert v as real * (scaled + nnz as real / 2.0) == v as real * scaled + v as real * nnz as real / 2.0;
    assert (v * nnz) as real == v as real * nnz as real;
    assert (v * s) as real == v as real * s as real;
  }

  /** (maxval + 1) * s <= 2^62 + (maxval + 1) * nnz / 2 keeps maxval * s below 2^63. */
  lemma SumFits(maxval: nat, s: nat, nnz: nat, scaled: real)
    requires s as real <= scaled + nnz as real / 2.0
    requires (maxval + 1) as real * scaled <= TWO_62 as real
    ensures nnz * maxval <= TWO_63 ==> maxval * s < TWO_63
    ensures nnz * (maxval + 1) <= TWO_63 ==> (maxval + 1) * s <= TWO_63
  {
    TwiceFits(maxval + 1, s, nnz, scaled);
    if nnz * maxval <= TWO_63 { UpperFits(maxval, s, nnz); }
  }

  lemma UpperFits(maxval: nat, s: nat, nnz: nat)
    requires 2 * ((maxval + 1) * s) <= TWO_63 + (maxval + 1) * nnz && nnz * maxval <= TWO_63
    ensures maxval * s < TWO_63
  {
    var gap := 2 * s - nnz;
    assert (maxval + 1) * gap == 2 * ((maxval + 1) * s) - (maxval + 1) * nnz;
    assert 2 * (maxval * s) == maxval * gap + nnz * maxval;
    if gap <= 0 { MulSign(maxval, gap); } else { assert maxval * gap == (maxval + 1) * gap - gap; }
  }

  lemma MulSign(a: nat, b: int)
    requires b <= 0
    ensures a * b <= 0
  {
  }

  /** A frame of pixels between -(maxval + 1) and maxval. */
  predicate InRange(x: seq<int>, maxval: nat) {
    forall p :: 0 <= p < |x| ==> -(maxval + 1) <= x[p] <= maxval
  }

  predicate Unsigned(x: seq<int>) {
    forall p :: 0 <= p < |x| ==> 0 <= x[p]
  }

  lemma ScaledTop(maxval: nat, top: real, bits: nat) returns (scaled: real)
    requires bits <= SumBits(maxval, top)
    ensures scaled == Scale(top, bits) && (maxval + 1) as real * scaled <= TWO_62 as real
  {
    scaled := Scale(top, bits);
    SumBitsBound(maxval, top, bits);
  }

  lemma WeightSumScaled(m: Matrix, maxval: nat, d: seq<real>, bits: nat, b: nat) returns (scaled: real)
    requires m.Valid() && Clamped(m.data) == Success(d) && |d| == |m.data| && b < m.nbins
    requires bits <= SumBits(maxval, MaxRowSum(m, m.nbins))
    ensures WeightSum(m, AllAdjusted(m, Scaled(d, bits)), b) as real <= scaled + |m.indices| as real / 2.0
    ensures (maxval + 1) as real * scaled <= TWO_62 as real
  {
    scaled := ScaledTop(maxval, MaxRowSum(m, m.nbins), bits);
    WeightSumBound(m, d, bits, b);
  }

  lemma WeightSumFits(m: Matrix, maxval: nat, wlimit: nat, bits: nat, b: nat)
    requires m.Valid() && wlimit >= 1 && b < m.nbins
    requires Bits(m, maxval, wlimit) == Success(bits) && Quantise(m, bits, wlimit).Success?
    ensures |Quantise(m, bits, wlimit).value| == |m.indices|
    ensures var s := WeightSum(m, Quantise(m, bits, wlimit).value, b);
            && s >= 0
            && (|m.indices| * maxval <= TWO_63 ==> maxval * s < TWO_63)
            && (|m.indices| * (maxval + 1) <= TWO_63 ==> (maxval + 1) * s <= TWO_63)
  {
    var q := Quantise(m, bits, wlimit).value;
    var d := QuantiseIs(m, bits, wlimit, q);
    PartNonnegative(q, m.indices, b, |q|);
    BitsWithinSum(m, maxval, wlimit, bits);
    var scaled := WeightSumScaled(m, maxval, d, bits, b);
    SumFits(maxval, WeightSum(m, q, b), |m.indices|, scaled);
  }

  /** A bin is at most its weights times the largest pixel, at least its weights times
      the smallest. */
  lemma BinBounds(m: Matrix, q: seq<int>, maxval: nat, x: seq<int>, b: nat)
    requires m.Valid() && |q| == |m.indices| && InRange(x, maxval)
    requires forall k :: 0 <= k < |q| ==> q[k] >= 0
    ensures -(maxval + 1) * WeightSum(m, q, b) <= BinSum(m, q, x, b) <= maxval * WeightSum(m, q, b)
    ensures Unsigned(x) ==> 0 <= BinSum(m, q, x, b)
  {
    TraceAt(m);
    ProductsBound(q, Pix(m), x, m.indices, b, -(maxval + 1), maxval, |q|);
    if Unsigned(x) { ProductsBound(q, Pix(m), x, m.indices, b, 0, maxval, |q|); }
  }

  /** Fixed-point sums stay in int64: with the bits the source chooses and the
      weights it makes, no bin of any frame of pixels up to maxval reaches 2^63 when
      entries * maxval <= 2^63, nor falls below -2^63 for signed pixels when
      entries * (maxval + 1) <= 2^63. */
  lemma SumsFit(m: Matrix, maxval: nat, wlimit: nat, bits: nat, x: seq<int>, b: nat)
    requires m.Valid() && wlimit >= 1 && b < m.nbins
    requires Bits(m, maxval, wlimit) == Success(bits) && Quantise(m, bits, wlimit).Success?
    requires InRange(x, maxval)
    ensures |Quantise(m, bits, wlimit).value| == |m.indices|
    ensures |m.indices| * maxval <= TWO_63 ==> BinSum(m, Quantise(m, bits, wlimit).value, x, b) < TWO_63
    ensures |m.indices| * (maxval + 1) <= TWO_63 || Unsigned(x) ==> -TWO_63 <= BinSum(m, Quantise(m, bits, wlimit).value, x, b)
  {
    var q := Quantise(m, bits, wlimit).value;
    QuantiseFits(m, bits, wlimit);
    WeightSumFits(m, maxval, wlimit, bits, b);
    BinBounds(m, q, maxval, x, b);
  }

  /** For 8 and 16 bit pixels the condition always holds: indptr is a uint32. */
  lemma NarrowPixelsFit(m: Matrix, maxval: nat, wlimit: nat, bits: nat, x: seq<int>, b: nat)
    requires m.Valid() && wlimit >= 1 && b < m.nbins && |m.indices| < U32 && maxval < 0x1_0000
    requires Bits(m, maxval, wlimit) == Success(bits) && Quantise(m, bits, wlimit).Success?
    requires InRange(x, maxval)
    ensures |Quantise(m, bits, wlimit).value| == |m.indices|
    ensures -TWO_63 <= BinSum(m, Quantise(m, bits, wlimit).value, x, b) < TWO_63
  {
    MulMonotone(|m.indices|, U32, maxval + 1);
    MulMonotone(maxval + 1, 0x1_0000, U32);
    SumsFit(m, maxval, wlimit, bits, x, b);
  }

  /** The frame with every pixel at maxval. */
  function Saturated(m: Matrix, maxval: nat): (x: seq<int>)
    requires m.Valid()
    ensures InRange(x, maxval) && Unsigned(x)
  {
    seq(m.Npix(), _ => maxval)
  }

  lemma {:induction false} SaturatedSum(q: seq<int>, pix: seq<nat>, x: seq<int>, bins: seq<nat>, b: nat, v: int, n: nat)
    requires |q| == |pix| == |bins| && n <= |q| && forall k :: 0 <= k < n ==> PixelInt(x, pix[k]) == v
    ensures PartInt(Products(q, pix, x), bins, b, 0, n) == v * PartInt(q, bins, b, 0, n)
  {
    if n > 0 {
      SaturatedSum(q, pix, x, bins, b, v, n - 1);
      Distribute(v, PartInt(q, bins, b, 0, n - 1), q[n - 1]);
    }
  }

  /** Exactly when the sums of unsigned pixels stay below 2^63: when the weights of
      each bin, which are known once the matrix is made, times maxval do. */
  lemma SumsFitExactly(m: Matrix, q: seq<int>, maxval: nat, b: nat)
    requires m.Valid() && |q| == |m.indices| && forall k :: 0 <= k < |q| ==> q[k] >= 0
    ensures (forall x :: InRange(x, maxval) && Unsigned(x) ==> BinSum(m, q, x, b) < TWO_63)
            <==> maxval * WeightSum(m, q, b) < TWO_63
  {
    TraceAt(m);
    forall x | InRange(x, maxval) && Unsigned(x) ensures BinSum(m, q, x, b) <= maxval * WeightSum(m, q, b) {
      ProductsBound(q, Pix(m), x, m.indices, b, 0, maxval, |q|);
    }
    var full := Saturated(m, maxval);
    forall k | 0 <= k < |q| ensures PixelInt(full, Pix(m)[k]) == maxval { PixAt(m, k); }
    SaturatedSum(q, Pix(m), full, m.indices, b, maxval, |q|);
    assert BinSum(m, q, full, b) == maxval * WeightSum(m, q, b);
  }

  /** The lowest frame: every pixel at -(maxval + 1). */
  function Lowest(m: Matrix, maxval: nat): (x: seq<int>)
    requires m.Valid()
    ensures |x| == m.Npix() && forall p :: 0 <= p < |x| ==> x[p] == -(maxval + 1)
  {
    seq(m.Npix(), _ => -(maxval + 1))
  }

  lemma LowestSum(m: Matrix, q: seq<int>, maxval: nat, b: nat)
    requires m.Valid() && |q| == |m.indices|
    ensures BinSum(m, q, Lowest(m, maxval), b) == -(maxval + 1) * WeightSum(m, q, b)
  {
    TraceAt(m);
    var low := Lowest(m, maxval);
    forall k | 0 <= k < |q| ensures PixelInt(low, Pix(m)[k]) == -(maxval + 1) { PixAt(m, k); }
    SaturatedSum(q, Pix(m), low, m.indices, b, -(maxval + 1), |q|);
  }

  lemma NegateTimes(a: int, b: int)
    ensures -a * b == -(a * b)
  {
  }

  /** Exactly when the sums of signed pixels stay in int64: when the weights of the bin
      times maxval + 1, the magnitude of the lowest pixel, are at most 2^63. */
  lemma SignedSumsFitExactly(m: Matrix, q: seq<int>, maxval: nat, b: nat)
    requires m.Valid() && |q| == |m.indices| && forall k :: 0 <= k < |q| ==> q[k] >= 0
    ensures (forall x :: InRange(x, maxval) ==> -TWO_63 <= BinSum(m, q, x, b) < TWO_63)
            <==> (maxval + 1) * WeightSum(m, q, b) <= TWO_63
  {
    var s := WeightSum(m, q, b);
    PartNonnegative(q, m.indices, b, |q|);
    NegateTimes(maxval + 1, s);
    SignedBound(maxval, s);
    if (maxval + 1) * s <= TWO_63 {
      forall x | InRange(x, maxval) ensures -TWO_63 <= BinSum(m, q, x, b) < TWO_63 { BinBounds(m, q, maxval, x, b); }
    }
    LowestSum(m, q, maxval, b);
    assert InRange(Lowest(m, maxval), maxval);
  }

  /** A positive sum reaches less far than a negative one. */
  lemma SignedBound(maxval: nat, s: nat)
    ensures (maxval + 1) * s <= TWO_63 ==> maxval * s < TWO_63
  {
    Distribute(s, maxval, 1);
    assert (maxval + 1) * s == maxval * s + s;
    if s == 0 { assert maxval * s == 0; }
  }

  // ---- the wrapping accumulation ------------------------------------------

  lemma ModStep(p: int, w: int, v: int)
    ensures (p % TWO_64 + w * (v % TWO_64)) % TWO_64 == (p + w * v) % TWO_64
  {
    var c := v / TWO_64;
    var k := w * c;
    assert v == TWO_64 * c + v % TWO_64;
    assert w * v == TWO_64 * k + w * (v % TWO_64);
  }

  lemma {:induction false} WrappedIsModular(q: seq<int>, pix: seq<nat>, bins: seq<nat>, x: seq<int>, b: nat, n: nat)
    requires n <= |q| == |pix| == |bins|
    ensures Wrapped(q, pix, bins, x, b, n) == PartInt(Products(q, pix, x), bins, b, 0, n) % TWO_64
  {
    if n > 0 {
      WrappedIsModular(q, pix, bins, x, b, n - 1);
      ModStep(PartInt(Products(q, pix, x), bins, b, 0, n - 1), q[n - 1], PixelInt(x, pix[n - 1]));
    }
  }

  lemma Int64Back(v: int)
    ensures AsInt64(v % TWO_64) == v <==> -TWO_63 <= v < TWO_63
  {
  }

  /** The int64 read back from the wrapping accumulation is the exact sum exactly when
      the exact sum is an int64. */
  lemma WrappedIsExact(m: Matrix, q: seq<int>, x: seq<int>, b: nat)
    requires m.Valid() && |q| == |m.indices| == |Pix(m)|
    ensures AsInt64(Wrapped(q, Pix(m), m.indices, x, b, |q|)) == BinSum(m, q, x, b)
            <==> -TWO_63 <= BinSum(m, q, x, b) < TWO_63
  {
    WrappedIsModular(q, Pix(m), m.indices, x, b, |q|);
    Int64Back(BinSum(m, q, x, b));
  }

  /** The powder of a fixed-point matrix: what the wrapping kernel leaves in a bin is
      the exact sum, for 8 and 16 bit pixels whatever the matrix. */
  lemma NarrowPowderIsExact(m: Matrix, maxval: nat, wlimit: nat, bits: nat, x: seq<int>, b: nat)
    requires m.Valid() && wlimit >= 1 && b < m.nbins && |m.indices| < U32 && maxval < 0x1_0000
    requires Bits(m, maxval, wlimit) == Success(bits) && Quantise(m, bits, wlimit).Success?
    requires InRange(x, maxval)
    ensures |Quantise(m, bits, wlimit).value| == |m.indices| == |Pix(m)|
    ensures var q := Quantise(m, bits, wlimit).value;
            AsInt64(Wrapped(q, Pix(m), m.indices, x, b, |q|)) == BinSum(m, q, x, b)
  {
    NarrowPixelsFit(m, maxval, wlimit, bits, x, b);
    TraceAt(m);
    WrappedIsExact(m, Quantise(m, bits, wlimit).value, x, b);
  }
}
