/** How far the powder of a fixed-point matrix is from the product of its weights. */
module FixedMatrixProof {
  import opened Csc
  import opened Division
  import opened Dtypes
  import opened FixedMatrix
  import opened FixedPoint
  import opened FixedPointBits
  import FixedPointBitsProof
  import opened FixedPointProof
  import opened FixedPointSums
  import opened Kernels
  import KernelsProof
  import opened Layouts
  import LayoutsProof
  import opened Numpy
  import opened Product
  import opened Routes

  // ---- one column ---------------------------------------------------------

  /** What a column adds to a bin: its pixel times the column's weights in the bin. */
  lemma {:induction false} ColumnTo(m: Matrix, p: nat, x: seq<real>, b: nat, n: nat)
    requires m.Valid() && p < m.Npix() && n <= m.Count(p)
    ensures m.indptr[p] + n <= |m.data|
    ensures Powder(Column(m, p)[..n], x, b) == Pixel(x, p) * PartReal(m.data, m.indices, b, m.indptr[p], m.indptr[p] + n)
  {
    assert m.indptr[p + 1] <= m.indptr[m.Npix()];
    if n > 0 {
      ColumnTo(m, p, x, b, n - 1);
      var c, k := Column(m, p), m.indptr[p] + n - 1;
      assert c[..n][..n - 1] == c[..n - 1] && c[..n][n - 1] == Add(m.indices[k], p, m.data[k]);
      EntryAdds(Pixel(x, p), PartReal(m.data, m.indices, b, m.indptr[p], k), if m.indices[k] == b then m.data[k] else 0.0);
    }
  }

  lemma EntryAdds(v: real, part: real, w: real)
    ensures v * part + w * v == v * (part + w)
  {
  }

  lemma ColumnPowder(m: Matrix, p: nat, x: seq<real>, b: nat)
    requires m.Valid() && p < m.Npix()
    ensures IsTimes(Powder(Column(m, p), x, b), Pixel(x, p), Part(m, p, b))
  {
    assert m.indptr[p + 1] <= m.indptr[m.Npix()];
    ColumnTo(m, p, x, b, m.Count(p));
    assert Column(m, p)[..m.Count(p)] == Column(m, p);
  }

  lemma {:induction false} RealPart(q: seq<int>, bins: seq<nat>, b: nat, lo: nat, hi: nat)
    requires hi <= |q| == |bins|
    ensures PartReal(Reals(q), bins, b, lo, hi) == PartInt(q, bins, b, lo, hi) as real
    decreases hi
  {
    if lo < hi { RealPart(q, bins, b, lo, hi - 1); }
  }

  lemma TimesUp(r: real, s: real, p: real)
    requires r <= s && p >= 0.0
    ensures p * r <= p * s
  {
    assert p * (s - r) >= 0.0;
  }

  lemma TimesDifference(v: real, a: real, c: real)
    ensures v * a - v * c == v * (a - c)
  {
  }

  lemma TimesBounded(v: real, e: real, limit: real, bound: real)
    requires 0.0 <= v <= limit && Near(e, 0.0, bound)
    ensures Near(v * e, 0.0, limit * bound)
  {
    TimesUp(e, bound, v);
    TimesUp(-bound, e, v);
    TimesUp(v, limit, bound);
    assert v * -bound == -(v * bound);
  }

  lemma TimesNegated(v: real, e: real)
    ensures -v * -e == v * e
  {
  }

  /** A pixel of at most limit times an error of at most bound. */
  lemma TimesNear(v: real, a: real, c: real, limit: real, bound: real)
    requires Near(v, 0.0, limit) && Near(a, c, bound)
    ensures Near(v * a, v * c, limit * bound)
  {
    TimesDifference(v, a, c);
    if v >= 0.0 {
      TimesBounded(v, a - c, limit, bound);
    } else {
      TimesBounded(-v, -(a - c), limit, bound);
      TimesNegated(v, a - c);
    }
  }

  lemma HalfStep(limit: real, r: real)
    ensures limit * (r + 0.5) == limit * r + limit / 2.0
  {
  }

  lemma {:induction false} HalfIs(limit: real, n: nat)
    ensures Half(limit, n) == limit * (n as real / 2.0)
  {
    if n > 0 {
      HalfIs(limit, n - 1);
      HalfStep(limit, (n - 1) as real / 2.0);
      assert n as real / 2.0 == (n - 1) as real / 2.0 + 0.5;
    }
  }

  lemma TimesHalf(v: real, a: real, c: real, limit: real, n: nat, va: real, vc: real)
    requires Near(v, 0.0, limit) && Near(a, c, n as real / 2.0) && IsTimes(va, v, a) && IsTimes(vc, v, c)
    ensures Near(va, vc, Half(limit, n))
  {
    TimesNear(v, a, c, limit, n as real / 2.0);
    HalfIs(limit, n);
  }

  /** The rounding errors of a column's entries in a bin. */
  lemma PartError(m: Matrix, w: seq<real>, q: seq<int>, p: nat, b: nat)
    requires m.Valid() && |w| == |m.data| && q == AllAdjusted(m, w) && p < m.Npix()
    ensures m.indptr[p] <= m.indptr[p + 1] <= |w|
    ensures Near(PartReal(Reals(q), m.indices, b, m.indptr[p], m.indptr[p + 1]),
                 PartReal(w, m.indices, b, m.indptr[p], m.indptr[p + 1]), m.Count(p) as real / 2.0)
  {
    assert m.indptr[p + 1] <= m.indptr[m.Npix()];
    var lo, hi := m.indptr[p], m.indptr[p + 1];
    RealPart(q, m.indices, b, lo, hi);
    ErrorPart(q, w, m.indices, b, lo, hi);
    if m.Count(p) > 0 {
      AdjustedColumn(m, w, p);
      ColumnPart(q, w, lo, hi, Biggest(m, w, p), m.indices, b);
    }
  }

  lemma ColumnNear(mi: Matrix, mw: Matrix, p: nat, x: seq<real>, b: nat, limit: real, n: nat)
    requires mi.Valid() && mw.Valid() && p < mi.Npix() && p < mw.Npix() && Near(Pixel(x, p), 0.0, limit)
    requires Near(Part(mi, p, b), Part(mw, p, b), n as real / 2.0)
    ensures Near(Powder(Column(mi, p), x, b), Powder(Column(mw, p), x, b), Half(limit, n))
  {
    ColumnPowder(mi, p, x, b);
    ColumnPowder(mw, p, x, b);
    TimesHalf(Pixel(x, p), Part(mi, p, b), Part(mw, p, b), limit, n, Powder(Column(mi, p), x, b), Powder(Column(mw, p), x, b));
  }

  lemma ColumnError(m: Matrix, w: seq<real>, q: seq<int>, p: nat, x: seq<real>, b: nat, limit: real)
    requires m.Valid() && |w| == |m.data| && q == AllAdjusted(m, w) && p < m.Npix() && Near(Pixel(x, p), 0.0, limit)
    ensures Near(Powder(Column(With(m, Reals(q)), p), x, b), Powder(Column(With(m, w), p), x, b), Half(limit, m.Count(p)))
  {
    PartError(m, w, q, p, b);
    ColumnNear(With(m, Reals(q)), With(m, w), p, x, b, limit, m.Count(p));
  }

  // ---- the whole matrix ---------------------------------------------------

  lemma {:induction false} Halves(limit: real, a: nat, n: nat)
    ensures Half(limit, a) + Half(limit, n) == Half(limit, a + n)
  {
    if n > 0 { Halves(limit, a, n - 1); }
  }

  lemma NearAdds(a: real, b: real, c: real, d: real, e: real, f: real)
    requires Near(a, c, e) && Near(b, d, f)
    ensures Near(a + b, c + d, e + f)
  {
  }

  lemma TraceNext(m: Matrix, p: nat, x: seq<real>, b: nat)
    requires m.Valid() && p < m.Npix()
    ensures Powder(TraceTo(m, p + 1), x, b) == Powder(TraceTo(m, p), x, b) + Powder(Column(m, p), x, b)
  {
    PowderConcat(TraceTo(m, p), Column(m, p), x, b);
  }

  lemma TraceStep(mi: Matrix, mw: Matrix, r: nat, x: seq<real>, b: nat, limit: real, n: nat, c: nat)
    requires mi.Valid() && mw.Valid() && r < mi.Npix() && r < mw.Npix()
    requires Near(Powder(TraceTo(mi, r), x, b), Powder(TraceTo(mw, r), x, b), Half(limit, n))
    requires Near(Powder(Column(mi, r), x, b), Powder(Column(mw, r), x, b), Half(limit, c))
    ensures Near(Powder(TraceTo(mi, r + 1), x, b), Powder(TraceTo(mw, r + 1), x, b), Half(limit, n + c))
  {
    TraceNext(mi, r, x, b);
    TraceNext(mw, r, x, b);
    NearAdds(Powder(TraceTo(mi, r), x, b), Powder(Column(mi, r), x, b), Powder(TraceTo(mw, r), x, b), Powder(Column(mw, r), x, b),
             Half(limit, n), Half(limit, c));
    Halves(limit, n, c);
  }

  lemma PixelUpTo(x: seq<real>, limit: real, p: nat)
    requires AllUpTo(x, limit) && limit >= 0.0
    ensures Near(Pixel(x, p), 0.0, limit)
  {
  }

  lemma OneNear(mi: Matrix, mw: Matrix, p: nat, x: seq<real>, b: nat, limit: real)
    requires mi.Valid() && mw.Valid() && p < mi.Npix() == mw.Npix() && ColumnsNear(mi, mw, x, b, limit)
    ensures Near(Powder(Column(mi, p), x, b), Powder(Column(mw, p), x, b), Half(limit, mi.Count(p)))
  {
    assert ColumnNearBy(mi, mw, p, x, b, limit);
  }

  lemma {:induction false} TraceNear(mi: Matrix, mw: Matrix, p: nat, x: seq<real>, b: nat, limit: real)
    requires mi.Valid() && mw.Valid() && p <= mi.Npix() == mw.Npix() && ColumnsNear(mi, mw, x, b, limit)
    ensures Near(Powder(TraceTo(mi, p), x, b), Powder(TraceTo(mw, p), x, b), Half(limit, mi.indptr[p]))
  {
    if p > 0 {
      TraceNear(mi, mw, p - 1, x, b, limit);
      OneNear(mi, mw, p - 1, x, b, limit);
      TraceStep(mi, mw, p - 1, x, b, limit, mi.indptr[p - 1], mi.Count(p - 1));
    }
  }

  lemma ColumnsError(m: Matrix, w: seq<real>, q: seq<int>, x: seq<real>, b: nat, limit: real)
    requires m.Valid() && |w| == |m.data| && q == AllAdjusted(m, w) && AllUpTo(x, limit) && limit >= 0.0
    ensures ColumnsNear(With(m, Reals(q)), With(m, w), x, b, limit)
  {
    forall p | 0 <= p < m.Npix()
      ensures ColumnNearBy(With(m, Reals(q)), With(m, w), p, x, b, limit)
    {
      PixelUpTo(x, limit, p);
      ColumnError(m, w, q, p, x, b, limit);
    }
  }

  lemma TraceError(m: Matrix, w: seq<real>, q: seq<int>, x: seq<real>, b: nat, limit: real)
    requires m.Valid() && |w| == |m.data| && q == AllAdjusted(m, w) && AllUpTo(x, limit) && limit >= 0.0
    ensures Near(Powder(Trace(With(m, Reals(q))), x, b), Powder(Trace(With(m, w)), x, b), Half(limit, |m.data|))
  {
    ColumnsError(m, w, q, x, b, limit);
    TraceNear(With(m, Reals(q)), With(m, w), m.Npix(), x, b, limit);
  }

  lemma {:induction false} ScaledPowder(t: seq<Add>, u: seq<Add>, x: seq<real>, b: nat, bits: nat)
    requires |t| == |u| && forall k :: 0 <= k < |t| ==> u[k] == Add(t[k].bin, t[k].pix, Scale(t[k].w, bits))
    ensures Powder(u, x, b) == Scale(Powder(t, x, b), bits)
  {
    if t == [] {
      ScaleAdds(0.0, 0.0, bits);
    } else {
      var n := |t| - 1;
      ScaledPowder(t[..n], u[..n], x, b, bits);
      ScaledTerm(t[n], u[n], x, b, bits);
      ScaleAdds(Powder(t[..n], x, b), Term(t[n], x, b), bits);
    }
  }

  lemma ScaledTerm(a: Add, c: Add, x: seq<real>, b: nat, bits: nat)
    requires c == Add(a.bin, a.pix, Scale(a.w, bits))
    ensures Term(c, x, b) == Scale(Term(a, x, b), bits)
  {
    if a.bin == b {
      var v := Pixel(x, a.pix);
      var t := a.w * v;
      ScaleSwaps(a.w, v, bits, t);
      assert Term(a, x, b) == t;
    } else {
      ScaleAdds(0.0, 0.0, bits);
    }
  }

  lemma {:induction false} ScaleSwaps(w: real, v: real, b: nat, t: real)
    requires t == w * v
    ensures Scale(w, b) * v == Scale(t, b)
  {
    if b > 0 {
      ScaleSwaps(w, v, b - 1, t);
      TwiceTimes(Scale(w, b - 1), v);
    }
  }

  lemma TwiceTimes(r: real, v: real)
    ensures (2.0 * r) * v == 2.0 * (r * v)
  {
  }

  /** Scaling the weights scales the product. */
  lemma ScaledTrace(m: Matrix, d: seq<real>, x: seq<real>, b: nat, bits: nat)
    requires m.Valid() && |d| == |m.data|
    ensures Powder(Trace(With(m, Scaled(d, bits))), x, b) == Scale(Powder(Trace(With(m, d)), x, b), bits)
  {
    var t, u := Trace(With(m, d)), Trace(With(m, Scaled(d, bits)));
    TraceAt(With(m, d));
    TraceAt(With(m, Scaled(d, bits)));
    SamePixels(m, d, Scaled(d, bits));
    forall k | 0 <= k < |t| ensures u[k] == Add(t[k].bin, t[k].pix, Scale(t[k].w, bits)) {
    }
    ScaledPowder(t, u, x, b, bits);
  }

  lemma SamePixels(m: Matrix, d: seq<real>, e: seq<real>)
    requires m.Valid() && |d| == |e| == |m.data|
    ensures Pix(With(m, d)) == Pix(With(m, e))
  {
    assert Counts(With(m, d)) == Counts(With(m, e));
  }

  lemma {:induction false} TimesAdds(a: nat, n: nat, r: real)
    ensures Times(a, r) + Times(n, r) == Times(a + n, r)
  {
    if n > 0 { TimesAdds(a, n - 1, r); }
  }

  lemma {:induction false} ScaleIsShift(r: real, b: nat)
    ensures Scale(r, b) == Times(Shifted(b), r)
  {
    if b == 0 {
      assert Times(0, r) == 0.0 && Times(1, r) == Times(0, r) + r;
    } else {
      ScaleIsShift(r, b - 1);
      TimesAdds(Shifted(b - 1), Shifted(b - 1), r);
    }
  }

  lemma TimesOneMore(k: real, r: real, n: real)
    requires n == k + 1.0
    ensures n * r == k * r + r
  {
  }

  lemma {:induction false} TimesIs(n: nat, r: real)
    ensures Times(n, r) == n as real * r
  {
    if n > 0 {
      TimesIs(n - 1, r);
      TimesOneMore((n - 1) as real, r, n as real);
    }
  }

  // ---- the prepared matrix ------------------------------------------------

  lemma MadeOf(m: Matrix, dtype: Dtype, maxval: Option<nat>, wbits: nat, fixed: Fixed) returns (b: nat)
    requires m.Valid() && Make(m, dtype, maxval, wbits) == Success(fixed)
    ensures fixed.wbits == wbits && (wbits == 16 || wbits == 32) && fixed.scale == Shifted(b)
    ensures IsInteger(dtype) && Bits(m, TopPixel(dtype, maxval), WeightLimit(wbits)) == Success(b)
    ensures Quantise(m, b, WeightLimit(wbits)) == Success(fixed.data)
  {
    b := Bits(m, TopPixel(dtype, maxval), WeightLimit(wbits)).value;
  }

  /** A matrix is prepared exactly for 16 or 32 bit weights and integer pixels, when some
      number of bits fits and its weights with the most bits quantise. */
  lemma MakeExactly(m: Matrix, dtype: Dtype, maxval: Option<nat>, wbits: nat, top: nat, limit: nat)
    requires m.Valid() && limit == Shifted(wbits) - 1
    requires IsInteger(dtype) ==> top == if maxval.Some? then maxval.value else MaxValue(dtype)
    ensures Make(m, dtype, maxval, wbits).Success? <==>
              (wbits == 16 || wbits == 32) && IsInteger(dtype) && MostBitsQuantise(m, top, limit)
  {
    if (wbits == 16 || wbits == 32) && IsInteger(dtype) {
      LimitIs(wbits);
      MostIsBits(m, top, limit);
      MakeOf(m, dtype, maxval, wbits, top, limit);
    } else {
      MakeNot(m, dtype, maxval, wbits);
    }
  }

  lemma MakeNot(m: Matrix, dtype: Dtype, maxval: Option<nat>, wbits: nat)
    requires m.Valid() && !((wbits == 16 || wbits == 32) && IsInteger(dtype))
    ensures Make(m, dtype, maxval, wbits).Refused?
  {
  }

  lemma LimitIs(wbits: nat)
    requires wbits >= 1
    ensures WeightLimit(wbits) == Shifted(wbits) - 1
  {
  }

  lemma MostIsBits(m: Matrix, top: nat, limit: nat)
    requires m.Valid() && limit >= 1
    ensures MostBitsQuantise(m, top, limit) <==> Bits(m, top, limit).Success? && Quantise(m, Bits(m, top, limit).value, limit).Success?
  {
    forall b: nat ensures MostBits(m, top, limit, b) <==> Bits(m, top, limit) == Success(b) {
      FixedPointBitsProof.BitsExactly(m, top, limit, b);
    }
  }

  lemma MakeOf(m: Matrix, dtype: Dtype, maxval: Option<nat>, wbits: nat, top: nat, limit: nat)
    requires m.Valid() && IsInteger(dtype) && (wbits == 16 || wbits == 32) && limit == WeightLimit(wbits) && top == TopPixel(dtype, maxval)
    ensures Make(m, dtype, maxval, wbits).Success? <==> Bits(m, top, limit).Success? && Quantise(m, Bits(m, top, limit).value, limit).Success?
  {
  }

  lemma QuantisedError(m: Matrix, b: nat, wlimit: nat, q: seq<int>, x: seq<int>, bin: nat, limit: nat)
    requires m.Valid() && Quantise(m, b, wlimit) == Success(q) && UpTo(x, limit)
    ensures |q| == |m.data| == |Weights(m)|
    ensures Near(Powder(Trace(With(m, Reals(q))), Reals(x), bin), Scale(Powder(Trace(With(m, Weights(m))), Reals(x), bin), b),
                 Half(limit as real, |m.data|))
  {
    var d := QuantiseIs(m, b, wlimit, q);
    assert d == Weights(m);
    TraceError(m, Scaled(d, b), q, Reals(x), bin, limit as real);
    ScaledTrace(m, d, Reals(x), bin, b);
  }

  /** The exact powder of a prepared matrix is within limit * entries / 2 of its scale
      times the product of the weights. */
  lemma MadeError(m: Matrix, dtype: Dtype, maxval: Option<nat>, wbits: nat, fixed: Fixed, x: seq<int>, bin: nat, limit: nat)
    requires m.Valid() && Make(m, dtype, maxval, wbits) == Success(fixed) && UpTo(x, limit)
    ensures |fixed.data| == |m.data| == |Weights(m)|
    ensures Near(BinSum(m, fixed.data, x, bin) as real, Times(fixed.scale, Powder(Trace(With(m, Weights(m))), Reals(x), bin)),
                 Half(limit as real, |m.data|))
  {
    var b := MadeOf(m, dtype, maxval, wbits, fixed);
    QuantisedError(m, b, WeightLimit(wbits), fixed.data, x, bin, limit);
    ScaleIsShift(Powder(Trace(With(m, Weights(m))), Reals(x), bin), b);
    KernelsProof.ExactIsBinSum(m, fixed.data, x, bin);
  }

  /** The powder of a prepared matrix: for every integer dot, frame, bin and choice of
      routes, the int64 sum the kernel leaves is within limit * entries / 2 of the scale of
      the layout times the product of the weights, as long as the exact sum is an int64. */
  lemma FixedPowder(m: Matrix, dtype: Dtype, maxval: Option<nat>, wbits: nat, fixed: Fixed, dot: Dot, be: nat, pixels: Dtype, l: Layout,
                    fe: nat, routes: seq<Route>, x: seq<int>, bin: nat, limit: nat)
    requires m.Valid() && Make(m, dtype, maxval, wbits) == Success(fixed) && |fixed.data| == |m.indices|
    requires Build(dot, m, be, pixels, Some(fixed)) == Success(l)
    requires fe >= 1 && KernelsProof.WithWeights(m, fixed.data).Valid()
    requires Taken(routes, fe, KernelsProof.WithWeights(m, fixed.data), Reals(x)) && UpTo(x, limit)
    requires -TWO_63 <= BinSum(m, fixed.data, x, bin) < TWO_63
    ensures |Weights(m)| == |m.data| && l.scale == Some(fixed.scale) && l.powder == Int64
    ensures Near(KernelSum(l, fe, m.Npix(), routes, x, bin) as real,
                 Times(l.scale.value, Powder(Trace(With(m, Weights(m))), Reals(x), bin)), Half(limit as real, |m.data|))
  {
    MadeError(m, dtype, maxval, wbits, fixed, x, bin, limit);
    FixedIsInt(dot, m, be, pixels, fixed);
    LayoutsProof.BuildMeasures(dot, m, be, pixels, Some(fixed), l);
    KernelsProof.BuildIntIsSum(dot, m, be, pixels, fixed, l, fe, routes, x, bin);
  }

  lemma FixedIsInt(dot: Dot, m: Matrix, be: nat, pixels: Dtype, fixed: Fixed)
    requires m.Valid() && Build(dot, m, be, pixels, Some(fixed)).Success?
    ensures IsIntDot(dot)
  {
  }

  lemma DividedNear(r: real, product: real, scale: real, sum: real, total: real, bound: real)
    requires sum == scale * r && total == scale * product && Near(sum, total, bound)
    ensures -bound <= scale * (r - product) <= bound
  {
    TimesDifference(scale, r, product);
  }

  /** So the powder divided by the scale, which is what a caller makes of it, is off the
      product by at most limit * entries / 2 over the scale. */
  lemma FixedPowderDivided(scale: nat, sum: int, product: real, limit: nat, entries: nat)
    requires scale >= 1 && Near(sum as real, Times(scale, product), Half(limit as real, entries))
    ensures var most := limit as real * (entries as real / 2.0);
            -most <= scale as real * (sum as real / scale as real - product) <= most
  {
    QuotientBack(sum as real, scale as real);
    TimesIs(scale, product);
    HalfIs(limit as real, entries);
    DividedNear(sum as real / scale as real, product, scale as real, sum as real, Times(scale, product), Half(limit as real, entries));
  }

  lemma QuotientBack(total: real, s: real)
    requires s >= 1.0
    ensures total == s * (total / s)
  {
    var q := total / s;
    assert q * s == total;
  }
}
