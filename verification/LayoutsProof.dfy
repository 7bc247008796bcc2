/** What build depends on, and why the automatic choice always has a layout. */
module LayoutsProof {
  import BlockCsr
  import Columns
  import ColumnsProof
  import opened Csc
  import opened Dtypes
  import opened Layouts
  import Padded

  lemma HistogramNames(dot: Dot, m: Matrix, be: nat, l: Layout)
    requires m.Valid() && BuildHistogram(dot, m) == Success(l) && !IsBlockDot(dot)
    ensures NamedFor(l, dot, m.nbins, be)
  {
  }

  lemma PermuteNames(m: Matrix, be: nat, dtype: Dtype, l: Layout)
    requires m.Valid() && BuildPermute(m, dtype) == Success(l)
    ensures NamedFor(l, CscPermute, m.nbins, be)
  {
  }

  lemma IntNames(dot: Dot, m: Matrix, be: nat, fixed: Option<Fixed>, l: Layout)
    requires m.Valid() && BuildInt(dot, m, fixed) == Success(l) && !IsBlockDot(dot)
    ensures NamedFor(l, dot, m.nbins, be)
  {
  }

  lemma PaddedNames(dot: Dot, m: Matrix, be: nat, l: Layout)
    requires m.Valid() && BuildPadded(dot, m, be) == Success(l) && (dot == PaddedDot || dot == PaddedAvx2)
    ensures NamedFor(l, dot, m.nbins, be) && be >= 1
  {
  }

  lemma BsbNames(dot: Dot, m: Matrix, be: nat, l: Layout)
    requires m.Valid() && BuildBsb(dot, m, be) == Success(l) && (dot == BsbCsr || dot == BsbCsrNosplit)
    ensures NamedFor(l, dot, m.nbins, be) && be >= 1
  {
  }

  /** A built layout names the dot it was asked for, and the block size it depends on. */
  lemma BuildNames(dot: Dot, m: Matrix, be: nat, dtype: Dtype, fixed: Option<Fixed>, l: Layout)
    requires m.Valid() && Build(dot, m, be, dtype, fixed) == Success(l)
    ensures NamedFor(l, dot, m.nbins, be) && (IsBlockDot(dot) ==> be >= 1)
  {
    if dot == PaddedDot || dot == PaddedAvx2 {
      PaddedNames(dot, m, be, l);
    } else if dot == BsbCsr || dot == BsbCsrNosplit {
      BsbNames(dot, m, be, l);
    } else if IsIntDot(dot) {
      IntNames(dot, m, be, fixed, l);
    } else if dot == CscPermute {
      PermuteNames(m, be, dtype, l);
    } else if dot == CscNosplit || dot == CscNosplitInt {
      HistogramNames(dot, m, be, l);
    }
  }

  lemma IntMeasures(dot: Dot, m: Matrix, dtype: Dtype, fixed: Option<Fixed>, l: Layout)
    requires m.Valid() && BuildInt(dot, m, fixed) == Success(l) && IsIntDot(dot)
    ensures MeasuredAs(l, dot, dtype, fixed)
  {
  }

  lemma FloatMeasures(dot: Dot, m: Matrix, be: nat, dtype: Dtype, l: Layout)
    requires m.Valid() && !IsIntDot(dot) && Build(dot, m, be, dtype, None) == Success(l)
    ensures l.scale == None && l.powder == if dot == CscPermute then PixelType(dtype) else Float64
  {
  }

  /** Every layout that build accepts carries the scale of its weights, exactly when it has
      integer ones, and the type of its powder. */
  lemma BuildMeasures(dot: Dot, m: Matrix, be: nat, dtype: Dtype, fixed: Option<Fixed>, l: Layout)
    requires m.Valid() && Build(dot, m, be, dtype, fixed) == Success(l)
    ensures MeasuredAs(l, dot, dtype, fixed)
  {
    if IsIntDot(dot) {
      IntMeasures(dot, m, dtype, fixed, l);
    } else {
      assert fixed == None;
      FloatMeasures(dot, m, be, dtype, l);
    }
  }

  lemma WidthAtMost(m: Matrix, n: nat)
    requires m.Valid()
    ensures AtMostBins(m, n) <==> Padded.MaxOf(Counts(m)) <= n
  {
    CountsBounded(m);
    if AtMostBins(m, n) {
      assert forall p :: 0 <= p < m.Npix() ==> Counts(m)[p] == m.Count(p);
    }
  }

  lemma PaddedRepresents(dot: Dot, m: Matrix, be: nat)
    requires m.Valid() && (dot == PaddedDot || dot == PaddedAvx2)
    ensures BuildPadded(dot, m, be).Success? <==> Columns.IsRuns(m) && AtMostBins(m, 64) && be >= 1
  {
    ColumnsProof.RunStartsAccepts(m);
    WidthAtMost(m, 64);
    PaddedWidth(m);
  }

  lemma PaddedWidth(m: Matrix)
    requires m.Valid()
    ensures Padded.Width(m) <= Padded.MAX_WIDTH <==> Padded.MaxOf(Counts(m)) <= 64
  {
  }

  lemma BsbRepresents(dot: Dot, m: Matrix, be: nat)
    requires m.Valid() && (dot == BsbCsr || dot == BsbCsrNosplit)
    ensures BuildBsb(dot, m, be).Success? <==> 1 <= be <= 65536 && (dot == BsbCsrNosplit ==> Columns.IsHistogram(m))
  {
    ColumnsProof.NosplitAccepts(m);
  }

  lemma IntRepresents(dot: Dot, m: Matrix, fixed: Option<Fixed>)
    requires m.Valid() && IsIntDot(dot)
    ensures BuildInt(dot, m, fixed).Success? <==>
              fixed.Some? && fixed.value.wbits == (if dot == CscRunInt16 then 16 else 32) && (dot == CscInt || Columns.IsRuns(m))
  {
    ColumnsProof.RunStartsAccepts(m);
  }

  lemma HistogramRepresents(dot: Dot, m: Matrix, dtype: Dtype)
    requires m.Valid()
    ensures BuildHistogram(dot, m).Success? <==> Columns.IsHistogram(m)
    ensures BuildPermute(m, dtype).Success? <==> Columns.IsHistogram(m) && Columns.Distinct(m)
  {
    ColumnsProof.NosplitAccepts(m);
    ColumnsProof.PermuteAccepts(m);
  }

  lemma BlockDotBuild(dot: Dot, m: Matrix, be: nat, dtype: Dtype)
    requires m.Valid() && IsBlockDot(dot)
    ensures Build(dot, m, be, dtype, None) ==
            if dot == PaddedDot || dot == PaddedAvx2 then BuildPadded(dot, m, be) else BuildBsb(dot, m, be)
  {
  }

  lemma BlockDotRepresentable(dot: Dot, m: Matrix, be: nat)
    requires m.Valid() && IsBlockDot(dot)
    ensures Representable(dot, m, be, None) <==>
              if dot == PaddedDot || dot == PaddedAvx2 then Columns.IsRuns(m) && AtMostBins(m, 64) && be >= 1
              else 1 <= be <= 65536 && (dot == BsbCsrNosplit ==> Columns.IsHistogram(m))
  {
  }

  lemma BlockExactly(dot: Dot, m: Matrix, be: nat, dtype: Dtype)
    requires m.Valid() && IsBlockDot(dot)
    ensures Build(dot, m, be, dtype, None).Success? <==> Representable(dot, m, be, None)
  {
    BlockDotBuild(dot, m, be, dtype);
    BlockDotRepresentable(dot, m, be);
    if dot == PaddedDot || dot == PaddedAvx2 { PaddedRepresents(dot, m, be); } else { BsbRepresents(dot, m, be); }
  }

  lemma IntExactly(dot: Dot, m: Matrix, be: nat, dtype: Dtype, fixed: Option<Fixed>)
    requires m.Valid() && IsIntDot(dot)
    ensures Build(dot, m, be, dtype, fixed).Success? <==> Representable(dot, m, be, fixed)
  {
    IntRepresents(dot, m, fixed);
  }

  lemma FlatExactly(dot: Dot, m: Matrix, be: nat, dtype: Dtype)
    requires m.Valid() && !IsIntDot(dot) && !IsBlockDot(dot)
    ensures Build(dot, m, be, dtype, None).Success? <==> Representable(dot, m, be, None)
  {
    if MarksEmpty(dot) { HistogramRepresents(dot, m, dtype); } else if dot == CscRun { ColumnsProof.RunStartsAccepts(m); }
  }

  /** build accepts exactly what its dot can represent. */
  lemma BuildExactly(dot: Dot, m: Matrix, be: nat, dtype: Dtype, fixed: Option<Fixed>)
    requires m.Valid()
    ensures Build(dot, m, be, dtype, fixed).Success? <==> Representable(dot, m, be, fixed)
  {
    if IsIntDot(dot) {
      IntExactly(dot, m, be, dtype, fixed);
    } else if fixed == None {
      if IsBlockDot(dot) { BlockExactly(dot, m, be, dtype); } else { FlatExactly(dot, m, be, dtype); }
    }
  }

  /** What build returns depends on its block size only for the block dots and on the
      pixel type only for csc-permute. */
  lemma BuildReadsItsKey(dot: Dot, m: Matrix, be: nat, be': nat, dtype: Dtype, dtype': Dtype, fixed: Option<Fixed>)
    requires m.Valid()
    requires IsBlockDot(dot) ==> be == be'
    requires dot == CscPermute ==> dtype == dtype'
    ensures Build(dot, m, be, dtype, fixed) == Build(dot, m, be', dtype', fixed)
  {
  }

  // ---- the automatic choice -----------------------------------------------

  lemma CountsBounded(m: Matrix)
    requires m.Valid()
    ensures forall p :: 0 <= p < m.Npix() ==> m.Count(p) <= Padded.MaxOf(Counts(m))
  {
    forall p | 0 <= p < m.Npix() ensures m.Count(p) <= Padded.MaxOf(Counts(m)) {
      assert Counts(m)[p] <= Padded.MaxOf(Counts(m));
    }
  }

  lemma NosplitHasBins(m: Matrix)
    requires m.Valid() && Analyse(m).nosplit
    ensures Columns.NosplitBins(m).Success?
  {
    ColumnsProof.NosplitAccepts(m);
    CountsBounded(m);
  }

  lemma RunsHaveRows(m: Matrix, be: nat)
    requires m.Valid() && Analyse(m).runs && Analyse(m).maxBins <= Padded.MAX_WIDTH && be >= 1
    ensures Padded.FromCsc(m, be).Success?
  {
  }

  /** What auto_dot knows of the matrix when it names a dot. */
  lemma AutoKnows(info: Info, avx2: bool, be: nat, intPixels: bool, dot: Dot)
    requires dot == AutoDot(info, avx2, Some(be), intPixels)
    ensures Suits(info, be, dot)
    ensures (dot == PaddedAvx2 ==> avx2) && (dot == CscNosplitInt ==> intPixels)
  {
  }

  lemma PaddedAccepted(m: Matrix, dot: Dot, be: nat)
    requires m.Valid() && (dot == PaddedDot || dot == PaddedAvx2)
    requires Analyse(m).runs && Analyse(m).maxBins <= Padded.MAX_WIDTH
    ensures BuildPadded(dot, m, be).Success? <==> be > 0
  {
    if be > 0 { RunsHaveRows(m, be); }
  }

  lemma HistogramAccepted(m: Matrix, dot: Dot, be: nat)
    requires m.Valid() && Analyse(m).nosplit
    ensures BuildHistogram(dot, m).Success?
    ensures be <= BlockCsr.MAX_BLOCK_ELEMS ==> (BuildBsb(BsbCsrNosplit, m, be).Success? <==> be > 0)
  {
    NosplitHasBins(m);
  }

  lemma FloatBuilds(m: Matrix, be: nat, dtype: Dtype, dot: Dot)
    requires m.Valid()
    requires dot == CscDot || ((dot == CscNosplit || dot == CscNosplitInt) && BuildHistogram(dot, m).Success?)
    ensures Build(dot, m, be, dtype, None).Success?
  {
  }

  lemma BlockBuilds(m: Matrix, be: nat, dtype: Dtype, dot: Dot)
    requires m.Valid() && Suits(Analyse(m), be, dot) && IsBlockDot(dot)
    ensures Build(dot, m, be, dtype, None).Success? <==> be > 0
  {
    if dot == PaddedDot || dot == PaddedAvx2 {
      PaddedAccepted(m, dot, be);
    } else if dot == BsbCsrNosplit {
      HistogramAccepted(m, dot, be);
    }
  }

  function OccupiedTo(m: Matrix, p: nat): set<nat>
    requires m.Valid() && p <= m.Npix()
  {
    set q: nat | q < p && m.Count(q) > 0
  }

  lemma OccupiedNext(m: Matrix, p: nat)
    requires m.Valid() && p < m.Npix()
    ensures |OccupiedTo(m, p + 1)| == |OccupiedTo(m, p)| + if m.Count(p) > 0 then 1 else 0
  {
    assert OccupiedTo(m, p + 1) == OccupiedTo(m, p) + if m.Count(p) > 0 then {p} else {};
  }

  lemma {:induction false} RowPixelsSet(m: Matrix, p: nat)
    requires m.Valid() && p <= m.Npix()
    ensures |OccupiedTo(m, p)| == |Padded.RowPixels(m, true, p)|
  {
    if p > 0 {
      RowPixelsSet(m, p - 1);
      OccupiedNext(m, p - 1);
    } else {
      assert OccupiedTo(m, p) == {};
    }
  }

  lemma HalfOf(a: real, n: real)
    requires n > 0.0
    ensures a / n < 0.5 <==> 2.0 * a < n
  {
    var o := a / n;
    assert o * n == a;
    if o < 0.5 { Positive(0.5 - o, n); } else { Positive(o - 0.5, n); }
  }

  lemma Positive(a: real, b: real)
    requires a >= 0.0 && b > 0.0
    ensures a * b >= 0.0 && (a > 0.0 ==> a * b > 0.0)
  {
  }

  lemma OccupancyMeans(m: Matrix)
    requires m.Valid() && m.Npix() > 0
    ensures Analyse(m).occupancy < 0.5 <==> 2 * |OccupiedSet(m)| < m.Npix()
  {
    RowPixelsSet(m, m.Npix());
    assert OccupiedSet(m) == OccupiedTo(m, m.Npix());
    HalfOf(|OccupiedSet(m)| as real, m.Npix() as real);
  }

  lemma NosplitMeans(m: Matrix)
    requires m.Valid()
    ensures Analyse(m).nosplit <==> Columns.IsHistogram(m)
  {
    WidthAtMost(m, 1);
  }

  /** A padded layout is as wide as the most bins of a pixel, and keeps a list of its rows
      exactly when fewer than half of the pixels reach a bin. */
  lemma PaddedMeasures(m: Matrix, be: nat, l: Padded.Layout)
    requires m.Valid() && be >= 1 && Padded.FromCsc(m, be) == Success(l)
    ensures l.listed <==> 2 * |OccupiedSet(m)| < m.Npix()
    ensures l.width >= 1 && AtMostBins(m, l.width) && (l.width == 1 || !AtMostBins(m, l.width - 1))
    ensures l.blockElems == be
  {
    RowPixelsSet(m, m.Npix());
    assert OccupiedSet(m) == OccupiedTo(m, m.Npix());
    WidthAtMost(m, l.width);
    WidthAtMost(m, l.width - 1);
    PaddedIs(m, be);
  }

  lemma PaddedIs(m: Matrix, be: nat)
    requires m.Valid() && be >= 1 && Padded.FromCsc(m, be).Success?
    ensures var l := Padded.FromCsc(m, be).value;
            && l.listed == Padded.IsListed(m) && l.blockElems == be
            && l.width == (if Padded.MaxOf(Counts(m)) < 1 then 1 else Padded.MaxOf(Counts(m)))
  {
  }

  /** What analyse finds: the most bins of a pixel, whether it is a histogram, whether its
      pixels are runs, and whether fewer than half of them reach a bin. */
  lemma AnalyseMeans(m: Matrix)
    requires m.Valid()
    ensures forall n :: Analyse(m).maxBins <= n <==> AtMostBins(m, n)
    ensures Analyse(m).nosplit <==> Columns.IsHistogram(m)
    ensures Analyse(m).runs <==> Columns.IsRuns(m)
    ensures m.Npix() > 0 ==> (Analyse(m).occupancy < 0.5 <==> 2 * |OccupiedSet(m)| < m.Npix())
  {
    forall n ensures Analyse(m).maxBins <= n <==> AtMostBins(m, n) { WidthAtMost(m, n); }
    NosplitMeans(m);
    ColumnsProof.RunStartsAccepts(m);
    if m.Npix() > 0 { OccupancyMeans(m); }
  }

  /** auto_dot makes the choice the matrix calls for. */
  lemma AutoChooses(m: Matrix, avx2: bool, be: nat, intPixels: bool)
    requires m.Valid()
    ensures IsChoice(m, avx2, be, intPixels, AutoDot(Analyse(m), avx2, Some(be), intPixels))
  {
    AnalyseMeans(m);
    assert Analyse(m).maxBins <= 8 <==> AtMostBins(m, 8);
    assert Analyse(m).maxBins <= 64 <==> AtMostBins(m, 64);
    EmptyIsHistogram(m);
  }

  lemma EmptyIsHistogram(m: Matrix)
    requires m.Valid()
    ensures m.Npix() == 0 ==> Columns.IsHistogram(m)
  {
  }

  /** auto_dot always names a dot the matrix has a layout for: build of the automatic
      dot fails only on the division by a block size of zero. */
  lemma AutoIsAccepted(m: Matrix, avx2: bool, be: nat, intPixels: bool, dtype: Dtype, dot: Dot)
    requires m.Valid() && dot == AutoDot(Analyse(m), avx2, Some(be), intPixels)
    ensures !IsIntDot(dot) && dot != CscPermute
    ensures Build(dot, m, be, dtype, None).Success? <==> be > 0 || !IsBlockDot(dot)
  {
    AutoKnows(Analyse(m), avx2, be, intPixels, dot);
    if IsBlockDot(dot) {
      BlockBuilds(m, be, dtype, dot);
    } else {
      if MarksEmpty(dot) { HistogramAccepted(m, dot, be); }
      FloatBuilds(m, be, dtype, dot);
    }
  }

  /** With a fixed-point matrix the automatic dot is always refused: it has to be named. */
  lemma AutoIsNotForFixed(m: Matrix, avx2: bool, be: nat, intPixels: bool, dtype: Dtype, fixed: Fixed)
    requires m.Valid()
    ensures Build(AutoDot(Analyse(m), avx2, Some(be), intPixels), m, be, dtype, Some(fixed)) == Refused(NotFixed)
  {
  }

  /** As the block size changes, the automatic dot moves one way only: where it depends
      on the block size at all, it is the dot of the small default blocks. */
  lemma AutoIsOneWay(info: Info, avx2: bool, be: nat, small: nat, intPixels: bool)
    requires small <= 8192
    ensures IsBlockDot(AutoDot(info, avx2, Some(be), intPixels)) ==>
              AutoDot(info, avx2, Some(small), intPixels) == AutoDot(info, avx2, Some(be), intPixels)
  {
  }
}
