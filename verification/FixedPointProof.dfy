/**
  What the fixed-point weights keep: each pixel's intensity, the size of every
  rounding error, and int64 sums that cannot overflow.
*/
module FixedPointProof {
  import opened Csc
  import opened FixedPoint
  import opened Numpy
  import opened Product

  // ---- rounding -----------------------------------------------------------

  lemma RintNear(r: real)
    ensures Abs(Rint(r) as real - r) <= 0.5
    ensures Abs(Rint(r) as real - r) == 0.5 ==> Rint(r) % 2 == 0
  {
  }

  /** The error rounding made in each entry. */
  function Errors(q: seq<int>, w: seq<real>): (e: seq<real>)
    requires |q| == |w|
    ensures |e| == |q| && forall k :: 0 <= k < |q| ==> e[k] == q[k] as real - w[k]
  {
    seq(|q|, k requires 0 <= k < |q| => q[k] as real - w[k])
  }

  lemma {:induction false} ErrorSum(q: seq<int>, w: seq<real>, lo: nat, hi: nat)
    requires |q| == |w| && hi <= |q|
    ensures SumReal(Errors(q, w), lo, hi) == SumInt(q, lo, hi) as real - SumReal(w, lo, hi)
  {
    if lo < hi { ErrorSum(q, w, lo, hi - 1); }
  }

  lemma {:induction false} ErrorPart(q: seq<int>, w: seq<real>, bins: seq<nat>, b: nat, lo: nat, hi: nat)
    requires |q| == |w| == |bins| && hi <= |q|
    ensures PartReal(Errors(q, w), bins, b, lo, hi) == PartInt(q, bins, b, lo, hi) as real - PartReal(w, bins, b, lo, hi)
  {
    if lo < hi { ErrorPart(q, w, bins, b, lo, hi - 1); }
  }

  // ---- one column ---------------------------------------------------------

  /** q is the rounded w with the residual of the column lo .. hi put on its biggest
      entry. */
  ghost predicate ColumnAdjusted(q: seq<int>, w: seq<real>, lo: nat, hi: nat, big: nat) {
    && |q| == |w| && lo <= big < hi <= |w|
    && q[big] == Rint(w[big]) + Residual(w, lo, hi)
    && forall k :: lo <= k < hi && k != big ==> q[k] == Rint(w[k])
  }

  lemma AdjustedColumn(m: Matrix, w: seq<real>, p: nat)
    requires m.Valid() && |w| == |m.indices| && p < m.Npix() && m.Count(p) > 0
    ensures ColumnAdjusted(AllAdjusted(m, w), w, m.indptr[p], m.indptr[p + 1], Biggest(m, w, p))
  {
    var lo, hi := m.indptr[p], m.indptr[p + 1];
    assert hi <= m.indptr[m.Npix()];
    var q := AllAdjusted(m, w);
    forall k | lo <= k < hi
      ensures q[k] == Rint(w[k]) + if k == Biggest(m, w, p) then Residual(w, lo, hi) else 0
    {
      PixOfColumn(m, p, k);
      PixAt(m, k);
    }
  }

  /** Rounding entry by entry and then moving the residual onto one entry gives the
      rounded sum. */
  lemma {:induction false} AdjustedSum(q: seq<int>, w: seq<real>, lo: nat, hi: nat, big: nat, n: nat)
    requires |q| == |w| && lo <= n <= hi <= |w|
    requires forall k :: lo <= k < hi && k != big ==> q[k] == Rint(w[k])
    ensures SumInt(q, lo, n) == SumInt(Rounded(w), lo, n) + if lo <= big < n then q[big] - Rint(w[big]) else 0
    decreases n
  {
    if lo < n { AdjustedSum(q, w, lo, hi, big, n - 1); }
  }

  /** Every entry but the biggest is within a half of its weight. */
  lemma OthersNear(q: seq<int>, w: seq<real>, lo: nat, hi: nat, big: nat, k: nat)
    requires ColumnAdjusted(q, w, lo, hi, big) && lo <= k < hi && k != big
    ensures Abs(q[k] as real - w[k]) <= 0.5
  {
    RintNear(w[k]);
  }

  /** The errors of the entries of bin b, and of the others, each at most a half
      except at `big`. */
  lemma {:induction false} PartBound(e: seq<real>, bins: seq<nat>, b: nat, lo: nat, hi: nat, big: nat)
    requires |e| == |bins| && lo <= hi <= |e|
    requires forall k :: lo <= k < hi && k != big ==> Abs(e[k]) <= 0.5
    ensures var part := PartReal(e, bins, b, lo, hi);
            var rest := SumReal(e, lo, hi) - part;
            && (!(lo <= big < hi && bins[big] == b) ==> Abs(part) <= (hi - lo) as real / 2.0)
            && (lo <= big < hi && bins[big] == b ==> Abs(rest) <= (hi - lo - 1) as real / 2.0)
    decreases hi
  {
    if lo < hi {
      PartBound(e, bins, b, lo, hi - 1, big);
      if big == hi - 1 { RestBound(e, bins, b, lo, hi - 1, big); }
    }
  }

  /** Before `big` is reached, the entries outside bin b are all near. */
  lemma {:induction false} RestBound(e: seq<real>, bins: seq<nat>, b: nat, lo: nat, hi: nat, big: nat)
    requires |e| == |bins| && lo <= hi <= |e| && !(lo <= big < hi)
    requires forall k :: lo <= k < hi ==> Abs(e[k]) <= 0.5
    ensures Abs(SumReal(e, lo, hi) - PartReal(e, bins, b, lo, hi)) <= (hi - lo) as real / 2.0
    decreases hi
  {
    if lo < hi { RestBound(e, bins, b, lo, hi - 1, big); }
  }

  /** The column's integer weights sum to the rounded sum of its weights. */
  lemma ColumnSum(q: seq<int>, w: seq<real>, lo: nat, hi: nat, big: nat)
    requires ColumnAdjusted(q, w, lo, hi, big)
    ensures SumInt(q, lo, hi) == Rint(SumReal(w, lo, hi))
  {
    AdjustedSum(q, w, lo, hi, big, hi);
  }

  /** Whichever entries of a column fall in bin b, their rounding errors add up to at
      most half their number's worth of the whole column. */
  lemma ColumnPart(q: seq<int>, w: seq<real>, lo: nat, hi: nat, big: nat, bins: seq<nat>, b: nat)
    requires ColumnAdjusted(q, w, lo, hi, big) && |bins| == |w|
    ensures Abs(PartReal(Errors(q, w), bins, b, lo, hi)) <= (hi - lo) as real / 2.0
  {
    var e := Errors(q, w);
    forall k | lo <= k < hi && k != big ensures Abs(e[k]) <= 0.5 { OthersNear(q, w, lo, hi, big, k); }
    PartBound(e, bins, b, lo, hi, big);
    ColumnSum(q, w, lo, hi, big);
    ErrorSum(q, w, lo, hi);
    RintNear(SumReal(w, lo, hi));
  }

  lemma {:induction false} SinglePart(e: seq<real>, bins: seq<nat>, lo: nat, hi: nat, big: nat)
    requires |e| == |bins| && lo <= hi <= |e|
    requires forall k :: lo <= k < hi ==> (bins[k] == 1 <==> k == big)
    ensures PartReal(e, bins, 1, lo, hi) == if lo <= big < hi then e[big] else 0.0
    decreases hi
  {
    if lo < hi { SinglePart(e, bins, lo, hi - 1, big); }
  }

  lemma BigNear(q: seq<int>, w: seq<real>, lo: nat, hi: nat, big: nat)
    requires ColumnAdjusted(q, w, lo, hi, big)
    ensures Abs(q[big] as real - w[big]) <= (hi - lo) as real / 2.0
  {
    var bins := seq(|w|, k requires 0 <= k < |w| => if k == big then 1 else 0);
    SinglePart(Errors(q, w), bins, lo, hi, big);
    ColumnPart(q, w, lo, hi, big, bins, 1);
  }

  // ---- the whole matrix ---------------------------------------------------

  lemma {:induction false} PartSplit(e: seq<real>, bins: seq<nat>, b: nat, mid: nat, hi: nat)
    requires |e| == |bins| && mid <= hi <= |e|
    ensures PartReal(e, bins, b, 0, hi) == PartReal(e, bins, b, 0, mid) + PartReal(e, bins, b, mid, hi)
    decreases hi
  {
    if mid < hi { PartSplit(e, bins, b, mid, hi - 1); }
  }

  /** The rounding errors of a bin add up to at most half the number of entries. */
  lemma {:induction false} BinError(m: Matrix, w: seq<real>, b: nat, p: nat)
    requires m.Valid() && |w| == |m.indices| && p <= m.Npix()
    ensures m.indptr[p] <= |w|
    ensures Abs(PartReal(Errors(AllAdjusted(m, w), w), m.indices, b, 0, m.indptr[p])) <= m.indptr[p] as real / 2.0
  {
    assert m.indptr[p] <= m.indptr[m.Npix()];
    if p > 0 {
      var q := AllAdjusted(m, w);
      var lo, hi := m.indptr[p - 1], m.indptr[p];
      BinError(m, w, b, p - 1);
      PartSplit(Errors(q, w), m.indices, b, lo, hi);
      if m.Count(p - 1) > 0 {
        AdjustedColumn(m, w, p - 1);
        ColumnPart(q, w, lo, hi, Biggest(m, w, p - 1), m.indices, b);
      }
    }
  }

  lemma ColumnKept(q: seq<int>, w: seq<real>, lo: nat, hi: nat)
    requires lo < hi <= |w| && ColumnAdjusted(q, w, lo, hi, FirstMax(w, lo, hi))
    ensures IntensityKept(q, w, lo, hi)
  {
    var big := FirstMax(w, lo, hi);
    ColumnSum(q, w, lo, hi, big);
    BigNear(q, w, lo, hi, big);
    forall k | lo <= k < hi && k != big ensures Abs(q[k] as real - w[k]) <= 0.5 { OthersNear(q, w, lo, hi, big, k); }
  }

  /** _quantise keeps the intensity of every pixel: its integer weights sum to the
      rounded sum of its scaled weights; the biggest weight alone carries what the
      rounding of the others lost. */
  lemma QuantiseKeepsIntensity(m: Matrix, b: nat, wlimit: nat, p: nat)
    requires m.Valid() && Quantise(m, b, wlimit).Success? && p < m.Npix() && m.Count(p) > 0
    ensures Clamped(m.data).Success?
    ensures IntensityKept(Quantise(m, b, wlimit).value, Scaled(Clamped(m.data).value, b), m.indptr[p], m.indptr[p + 1])
  {
    var w := Scaled(Clamped(m.data).value, b);
    AdjustedColumn(m, w, p);
    ColumnKept(AllAdjusted(m, w), w, m.indptr[p], m.indptr[p + 1]);
  }

  /** Accepted weights are unsigned and fit their type. */
  lemma QuantiseFits(m: Matrix, b: nat, wlimit: nat)
    requires m.Valid() && Quantise(m, b, wlimit).Success?
    ensures |Quantise(m, b, wlimit).value| == |m.indices|
    ensures forall k :: 0 <= k < |m.indices| ==> 0 <= Quantise(m, b, wlimit).value[k] <= wlimit
  {
  }

  lemma {:induction false} ScaleAdds(r: real, s: real, b: nat)
    ensures Scale(r + s, b) == Scale(r, b) + Scale(s, b)
    ensures Scale(0.0, b) == 0.0
  {
    if b > 0 { ScaleAdds(r, s, b - 1); }
  }

  /** Scaling the weights scales their sum, so the kept sum is round(sum * 2^b). */
  lemma {:induction false} ScaledSum(d: seq<real>, b: nat, lo: nat, hi: nat)
    requires hi <= |d|
    ensures SumReal(Scaled(d, b), lo, hi) == Scale(SumReal(d, lo, hi), b)
  {
    if lo < hi {
      ScaledSum(d, b, lo, hi - 1);
      ScaleAdds(SumReal(d, lo, hi - 1), d[hi - 1], b);
    } else {
      ScaleAdds(0.0, 0.0, b);
    }
  }
}
