/** The chosen bits are the most that fit, and which weights quantise. */
module FixedPointBitsProof {
  import opened Csc
  import opened FixedPoint
  import opened FixedPointBits
  import opened FixedPointProof
  import opened FixedPointSums
  import opened Numpy

  // ---- the two limits -----------------------------------------------------

  /** The logarithm counts the powers of two below its argument. */
  lemma LogAtMost(r: real, b: int)
    requires r > 0.0
    ensures b <= FloorLog2(r) <==> Pow2(b) <= r
  {
    if b <= FloorLog2(r) { Pow2Ascends(b, FloorLog2(r)); } else { Pow2Ascends(FloorLog2(r) + 1, b); }
  }

  /** p is at most q exactly when its multiple is. */
  lemma MultipleAtMost(p: real, q: real, s: real, sp: real, sq: real)
    requires s > 0.0 && sp == p * s && sq == q * s
    ensures p <= q <==> sp <= sq
  {
    if p <= q { ScaleUp(p, q, s); } else { StrictlyUp(q, p, s); }
  }

  lemma StrictlyUp(r: real, s: real, p: real)
    requires r < s && p > 0.0
    ensures r * p < s * p
  {
    ProductPositive(s - r, p);
    assert (s - r) * p == s * p - r * p;
  }

  /** The bits whose scaling of s stays within total, when r is their quotient. */
  lemma LogQuotient(r: real, total: real, s: real, b: nat)
    requires r > 0.0 && s > 0.0 && r * s == total
    ensures b <= FloorLog2(r) <==> Scale(s, b) <= total
  {
    LogAtMost(r, b);
    ScaledBy(s, b);
    MultipleAtMost(Pow2(b), r, s, Scale(s, b), total);
  }

  lemma ScaledBy(s: real, b: nat)
    ensures Scale(s, b) == Pow2(b) * s
  {
    ScaleIsProduct(s, b);
  }

  lemma QuotientTimes(total: real, s: real)
    requires total > 0.0 && s > 0.0
    ensures total / s > 0.0 && total / s * s == total
  {
    Positive(total, s);
    var q := total / s;
    assert q * s == total;
  }

  lemma FitMeans(wlimit: nat, wmax: real, b: nat)
    requires wlimit >= 1
    ensures b <= FitBits(wlimit, wmax) <==> Scale(MaxReal(wmax, TINY), b) <= wlimit as real
  {
    var s := MaxReal(wmax, TINY);
    QuotientTimes(wlimit as real, s);
    LogQuotient(wlimit as real / s, wlimit as real, s, b);
  }

  lemma {:induction false} ScaleTimes(v: real, s: real, b: nat)
    ensures Scale(v * s, b) == v * Scale(s, b)
  {
    if b > 0 {
      ScaleTimes(v, s, b - 1);
      assert 2.0 * (v * Scale(s, b - 1)) == v * (2.0 * Scale(s, b - 1));
    }
  }

  lemma BudgetTimes(maxval: nat, rmax: real, s: real)
    requires s == (maxval + 1) as real * MaxReal(rmax, TINY)
    ensures s > 0.0 && Budget(maxval, rmax) * s == TWO_62 as real
  {
    ProductPositive((maxval + 1) as real, MaxReal(rmax, TINY));
    QuotientTimes(TWO_62 as real, s);
  }

  lemma SumMeansFor(maxval: nat, rmax: real, b: nat, s: real)
    requires s == (maxval + 1) as real * MaxReal(rmax, TINY)
    ensures b <= SumBits(maxval, rmax) <==> Scale(s, b) <= TWO_62 as real
  {
    BudgetTimes(maxval, rmax, s);
    LogQuotient(Budget(maxval, rmax), TWO_62 as real, s, b);
  }

  lemma SumMeans(maxval: nat, rmax: real, b: nat)
    ensures b <= SumBits(maxval, rmax) <==> RowFits(maxval, rmax, b)
  {
    SumMeansFor(maxval, rmax, b, (maxval + 1) as real * MaxReal(rmax, TINY));
    ScaleTimes((maxval + 1) as real, MaxReal(rmax, TINY), b);
  }

  lemma {:induction false} MaxAbsAttained(s: seq<real>) returns (k: nat)
    requires s != []
    ensures k < |s| && Abs(s[k]) == MaxAbs(s)
  {
    var n := |s| - 1;
    if n == 0 || MaxAbs(s[..n]) < Abs(s[n]) {
      k := n;
      assert n == 0 ==> s[..n] == [];
    } else {
      k := MaxAbsAttained(s[..n]);
    }
  }

  lemma {:induction false} MaxRowAttained(m: Matrix, n: nat) returns (bin: nat)
    requires m.Valid() && n > 0
    ensures bin < n && RowSum(m, bin) == MaxRowSum(m, n)
  {
    RowNonnegative(m, n - 1, |m.data|);
    if n == 1 || MaxRowSum(m, n - 1) < RowSum(m, n - 1) {
      bin := n - 1;
      assert MaxRowSum(m, 0) == 0.0;
    } else {
      bin := MaxRowAttained(m, n - 1);
    }
  }

  lemma {:induction false} RowNonnegative(m: Matrix, bin: nat, n: nat)
    requires m.Valid() && n <= |m.data|
    ensures PartReal(Magnitudes(m.data), m.indices, bin, 0, n) >= 0.0
  {
    if n > 0 { RowNonnegative(m, bin, n - 1); }
  }

  lemma TinyFits(b: nat)
    requires b <= 41
    ensures Scale(TINY, b) <= 1.0
  {
    ScaleIsProduct(TINY, b);
    Pow2Ascends(b, 41);
    Pow2FortyOne();
    ScaleUp(Pow2(b), Pow2(41), TINY);
  }

  lemma Pow2FortyOne()
    ensures Pow2(41) == 2199023255552.0
  {
    assert Pow2(1) == 2.0 && Pow2(5) == 32.0;
    Pow2Doubles(5);
    Pow2Doubles(10);
    Pow2Doubles(20);
    assert Pow2(41) == 2.0 * Pow2(40);
  }

  lemma Pow2Doubles(a: nat)
    ensures Pow2(2 * a) == Pow2(a) * Pow2(a)
  {
    Pow2Adds(a, a);
  }

  function LargestWeight(m: Matrix): real
    requires m.Valid()
  {
    if m.data == [] then 1.0 else MaxAbs(m.data)
  }

  function LargestRow(m: Matrix): real
    requires m.Valid()
  {
    if m.nbins == 0 then 1.0 else MaxRowSum(m, m.nbins)
  }

  lemma WeightsMean(m: Matrix, wlimit: nat, b: nat)
    requires m.Valid() && wlimit >= 1 && b <= 41
    ensures Scale(MaxReal(LargestWeight(m), TINY), b) <= wlimit as real <==> WeightsFit(m, wlimit, b)
  {
    var s := MaxReal(LargestWeight(m), TINY);
    TinyFits(b);
    if m.data == [] {
      assert s == 1.0;
    } else {
      forall k | 0 <= k < |m.data| ensures Scale(Abs(m.data[k]), b) <= Scale(s, b) { ScaleAscends(Abs(m.data[k]), s, b); }
      var k := MaxAbsAttained(m.data);
    }
  }

  lemma RowFitsBelow(maxval: nat, row: real, top: real, b: nat)
    requires row <= top && RowFits(maxval, top, b)
    ensures RowFits(maxval, row, b)
  {
    ScaleAscends(MaxReal(row, TINY), MaxReal(top, TINY), b);
    ScaleUp(Scale(MaxReal(row, TINY), b), Scale(MaxReal(top, TINY), b), (maxval + 1) as real);
  }

  lemma RowsMean(m: Matrix, maxval: nat, b: nat)
    requires m.Valid()
    ensures RowFits(maxval, LargestRow(m), b) <==> RowsFit(m, maxval, b)
  {
    if m.nbins > 0 {
      var bin := MaxRowAttained(m, m.nbins);
      if RowFits(maxval, LargestRow(m), b) {
        forall bin | 0 <= bin < m.nbins ensures RowFits(maxval, RowSum(m, bin), b) {
          RowFitsBelow(maxval, RowSum(m, bin), LargestRow(m), b);
        }
      }
    }
  }

  /** b bits fit exactly when b is within both of the computed limits. */
  lemma FitsMeans(m: Matrix, maxval: nat, wlimit: nat, b: nat)
    requires m.Valid() && wlimit >= 1 && b <= 41
    ensures BitsFit(m, maxval, wlimit, b) <==> b <= FitBits(wlimit, LargestWeight(m)) && b <= SumBits(maxval, LargestRow(m))
  {
    assert b <= FitBits(wlimit, LargestWeight(m)) <==> WeightsFit(m, wlimit, b) by {
      FitMeans(wlimit, LargestWeight(m), b);
      WeightsMean(m, wlimit, b);
    }
    assert b <= SumBits(maxval, LargestRow(m)) <==> RowsFit(m, maxval, b) by {
      SumMeans(maxval, LargestRow(m), b);
      RowsMean(m, maxval, b);
    }
  }

  /** The number of bits is the largest that fits, at most 40; the matrix is refused exactly
      when not even 4 bits fit. */
  lemma BitsExactly(m: Matrix, maxval: nat, wlimit: nat, b: nat)
    requires m.Valid() && wlimit >= 1
    ensures Bits(m, maxval, wlimit) == Success(b) <==>
              4 <= b <= 40 && BitsFit(m, maxval, wlimit, b) && (b == 40 || !BitsFit(m, maxval, wlimit, b + 1))
    ensures Bits(m, maxval, wlimit) == Refused(NoRoom) <==> !BitsFit(m, maxval, wlimit, 4)
  {
    var most := Lesser(FitBits(wlimit, LargestWeight(m)), SumBits(maxval, LargestRow(m)));
    BitsAre(m, maxval, wlimit);
    FitsMeans(m, maxval, wlimit, 4);
    if b <= 40 {
      FitsMeans(m, maxval, wlimit, b);
      FitsMeans(m, maxval, wlimit, b + 1);
    }
  }

  lemma BitsAre(m: Matrix, maxval: nat, wlimit: nat)
    requires m.Valid() && wlimit >= 1
    ensures var b := Lesser(Lesser(FitBits(wlimit, LargestWeight(m)), SumBits(maxval, LargestRow(m))), 40);
            Bits(m, maxval, wlimit) == if b < 4 then Refused(NoRoom) else Success(b)
  {
  }

  // ---- the weights --------------------------------------------------------

  /** Weights are refused for a negative one that is more than noise, and clamped at 0. */
  lemma ClampedExactly(data: seq<real>)
    ensures Clamped(data).Success? <==> forall k :: 0 <= k < |data| ==> data[k] >= 0.0 || Negligible(data, k)
    ensures Clamped(data).Success? ==>
              && |Clamped(data).value| == |data|
              && forall k :: 0 <= k < |data| ==> Clamped(data).value[k] == MaxReal(data[k], 0.0)
  {
    if data != [] {
      var top := MaxAbsAttained(data);
      forall k | 0 <= k < |data| ensures Negligible(data, k) <==> data[k] >= -MaxAbs(data) / 1000000.0 {
        assert data[k] >= -MaxAbs(data) / 1000000.0 ==> Abs(data[top]) == MaxAbs(data);
      }
    }
  }

  /** Both integer values of a column, in terms of its weights. */
  lemma ColumnIs(m: Matrix, w: seq<real>, p: nat, k: nat)
    requires m.Valid() && |w| == |m.indices| && p < m.Npix() && m.indptr[p] <= k < m.indptr[p + 1]
    ensures m.indptr[p + 1] <= |w| && m.Count(p) > 0
    ensures AllAdjusted(m, w)[k] == if k == Biggest(m, w, p) then Remainder(w, m.indptr[p], m.indptr[p + 1]) else Rint(w[k])
  {
    assert m.indptr[p + 1] <= m.indptr[m.Npix()];
    AdjustedColumn(m, w, p);
  }

  lemma RintSigned(r: real)
    requires r >= 0.0
    ensures Rint(r) >= 0
  {
  }

  lemma WithinColumn(m: Matrix, w: seq<real>, wlimit: nat, p: nat)
    requires m.Valid() && |w| == |m.indices| && p < m.Npix() && m.Count(p) > 0
    requires forall k :: 0 <= k < |w| ==> w[k] >= 0.0
    ensures PixelFits(m, w, wlimit, p) <==> Within(AllAdjusted(m, w), m.indptr[p], m.indptr[p + 1], wlimit)
  {
    var lo, hi, q := m.indptr[p], m.indptr[p + 1], AllAdjusted(m, w);
    assert hi <= m.indptr[m.Npix()];
    var big := Biggest(m, w, p);
    ColumnIs(m, w, p, big);
    forall k | lo <= k < hi ensures q[k] == if k == big then Remainder(w, lo, hi) else Rint(w[k]) {
      ColumnIs(m, w, p, k);
    }
    forall k | lo <= k < hi ensures Rint(w[k]) >= 0 { RintSigned(w[k]); }
    if Within(q, lo, hi, wlimit) { assert 0 <= q[big] <= wlimit; }
  }

  lemma AllWithin(m: Matrix, w: seq<real>, wlimit: nat)
    requires m.Valid() && |w| == |m.indices| && forall k :: 0 <= k < |w| ==> w[k] >= 0.0
    ensures Within(AllAdjusted(m, w), 0, |w|, wlimit) <==> ColumnsFit(m, w, wlimit)
  {
    var q := AllAdjusted(m, w);
    forall p | 0 <= p < m.Npix() && m.Count(p) > 0
      ensures PixelFits(m, w, wlimit, p) <==> Within(q, m.indptr[p], m.indptr[p + 1], wlimit)
    {
      WithinColumn(m, w, wlimit, p);
    }
    if ColumnsFit(m, w, wlimit) {
      forall k | 0 <= k < |w| ensures 0 <= q[k] <= wlimit {
        PixAt(m, k);
        var p := Pix(m)[k];
        assert PixelFits(m, w, wlimit, p);
        assert Within(q, m.indptr[p], m.indptr[p + 1], wlimit);
      }
    }
  }

  lemma {:induction false} ScaleSigned(r: real, b: nat)
    requires r >= 0.0
    ensures Scale(r, b) >= 0.0
  {
    if b > 0 { ScaleSigned(r, b - 1); }
  }

  /** Quantising accepts exactly the matrices whose negative weights are noise and whose
      columns leave their largest weight in range. */
  lemma QuantiseExactly(m: Matrix, b: nat, wlimit: nat)
    requires m.Valid()
    ensures Quantise(m, b, wlimit).Success? <==>
              Clamped(m.data).Success? && |Clamped(m.data).value| == |m.data| && ColumnsFit(m, Scaled(Clamped(m.data).value, b), wlimit)
  {
    if Clamped(m.data).Success? {
      var w := Scaled(Clamped(m.data).value, b);
      forall k | 0 <= k < |w| ensures w[k] >= 0.0 { ScaleSigned(Clamped(m.data).value[k], b); }
      AllWithin(m, w, wlimit);
      QuantiseOf(m, b, wlimit, w);
    }
  }

  lemma QuantiseOf(m: Matrix, b: nat, wlimit: nat, w: seq<real>)
    requires m.Valid() && Clamped(m.data).Success? && |w| == |m.indices| && w == Scaled(Clamped(m.data).value, b)
    ensures Quantise(m, b, wlimit).Success? <==> Within(AllAdjusted(m, w), 0, |w|, wlimit)
  {
  }

  /** The bits that were chosen give weights that quantise whenever no column's largest is
      within half its length of either limit. */
  lemma ChosenBitsQuantise(m: Matrix, maxval: nat, wlimit: nat, b: nat, w: seq<real>)
    requires m.Valid() && wlimit >= 1 && Bits(m, maxval, wlimit) == Success(b)
    requires Clamped(m.data).Success? && |w| == |m.data| && w == Scaled(Clamped(m.data).value, b)
    requires forall p :: 0 <= p < m.Npix() && m.Count(p) > 0 ==> Roomy(m, w, p, wlimit)
    ensures Quantise(m, b, wlimit).Success?
  {
    BitsExactly(m, maxval, wlimit, b);
    forall k | 0 <= k < |w| ensures 0.0 <= w[k] <= wlimit as real {
      ScaleSigned(Clamped(m.data).value[k], b);
      ScaleAscends(Clamped(m.data).value[k], Abs(m.data[k]), b);
    }
    forall p | 0 <= p < m.Npix() && m.Count(p) > 0 ensures PixelFits(m, w, wlimit, p) { RoomyFits(m, w, p, wlimit); }
    QuantiseExactly(m, b, wlimit);
  }

  lemma RintBelow(r: real, n: nat)
    requires r <= n as real
    ensures Rint(r) <= n
  {
  }

  lemma RoomyFits(m: Matrix, w: seq<real>, p: nat, wlimit: nat)
    requires m.Valid() && |w| == |m.indices| && p < m.Npix() && m.Count(p) > 0 && Roomy(m, w, p, wlimit)
    requires forall k :: 0 <= k < |w| ==> 0.0 <= w[k] <= wlimit as real
    ensures PixelFits(m, w, wlimit, p)
  {
    var lo, hi, big := m.indptr[p], m.indptr[p + 1], Biggest(m, w, p);
    ColumnIs(m, w, p, big);
    AdjustedColumn(m, w, p);
    forall k | lo <= k < hi ensures 0 <= Rint(w[k]) <= wlimit {
      RintSigned(w[k]);
      RintBelow(w[k], wlimit);
    }
    if m.Count(p) == 1 {
      SingleRemainder(w, lo);
    } else {
      BigNear(AllAdjusted(m, w), w, lo, hi, big);
    }
  }

  lemma SingleRemainder(w: seq<real>, lo: nat)
    requires lo < |w|
    ensures Remainder(w, lo, lo + 1) == Rint(w[lo])
  {
    assert SumReal(w, lo, lo) == 0.0 && SumInt(Rounded(w), lo, lo) == 0;
  }
}
