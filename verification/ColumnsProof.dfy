/** The one-bin-per-pixel layouts are the matrix, addition for addition. */
module ColumnsProof {
  import opened Columns
  import opened Csc
  import opened Numpy
  import opened Product

  lemma {:induction false} RunOfColumn(m: Matrix, p: nat, i: nat)
    requires m.Valid() && p < m.Npix() && i < m.Count(p)
    requires forall k :: 0 <= k < |m.indices| ==> !BrokenAt(m, PixOf(m), k)
    ensures InRun(m, p, i)
  {
    if i > 0 {
      var k := m.indptr[p] + i;
      RunOfColumn(m, p, i - 1);
      PixOfColumn(m, p, k);
      PixOfColumn(m, p, k - 1);
      assert !BrokenAt(m, PixOf(m), k);
    }
  }

  /** Entry k of a pixel, counted from the pixel's first entry. */
  lemma UnbrokenOfRuns(m: Matrix, k: nat)
    requires m.Valid() && IsRuns(m) && k < |m.indices|
    ensures !BrokenAt(m, PixOf(m), k)
  {
    if 0 < k && PixOf(m)[k] == PixOf(m)[k - 1] {
      PixAt(m, k);
      PixAt(m, k - 1);
      var p := PixOf(m)[k];
      var i := k - m.indptr[p];
      var q := PixOf(m)[k - 1];
      assert p == q && 0 <= i - 1 < i < m.Count(p);
      assert InRun(m, p, i) && InRun(m, p, i - 1);
    }
  }

  /** The check of neighbouring entries accepts exactly the matrices whose pixels
      are runs, and the starts then name each pixel's first bin. */
  lemma RunStartsAccepts(m: Matrix)
    requires m.Valid()
    ensures RunStarts(m).Success? <==> IsRuns(m)
    ensures RunStarts(m).Success? ==>
              && |RunStarts(m).value| == m.Npix()
              && forall p :: 0 <= p < m.Npix() && m.Count(p) > 0 ==> RunStarts(m).value[p] == m.indices[m.indptr[p]]
  {
    if RunStarts(m).Success? {
      forall p, i | 0 <= p < m.Npix() && 0 <= i < m.Count(p) ensures InRun(m, p, i) {
        RunOfColumn(m, p, i);
      }
    }
    if IsRuns(m) {
      forall k | 0 <= k < |m.indices| ensures !BrokenAt(m, PixOf(m), k) { UnbrokenOfRuns(m, k); }
    }
  }

  lemma RunColumnIs(m: Matrix, starts: seq<nat>, q: nat)
    requires m.Valid() && IsRuns(m) && |starts| == m.Npix() && q < m.Npix()
    requires m.Count(q) > 0 ==> starts[q] == m.indices[m.indptr[q]]
    ensures RunColumn(m.data, starts, m.indptr, q) == Column(m, q)
  {
    assert m.indptr[q + 1] <= m.indptr[m.Npix()];
    forall i | 0 <= i < m.Count(q) ensures RunColumn(m.data, starts, m.indptr, q)[i] == Column(m, q)[i] {
      assert InRun(m, q, i);
    }
  }

  lemma {:induction false} RunTraceTo(m: Matrix, starts: seq<nat>, p: nat)
    requires m.Valid() && IsRuns(m) && |starts| == m.Npix() && p <= m.Npix()
    requires forall q :: 0 <= q < m.Npix() && m.Count(q) > 0 ==> starts[q] == m.indices[m.indptr[q]]
    ensures RunTrace(m.data, starts, m.indptr, p) == TraceTo(m, p)
  {
    if p > 0 {
      RunTraceTo(m, starts, p - 1);
      RunColumnIs(m, starts, p - 1);
    }
  }

  /** The csc-run kernel performs the additions of the csc dot in the same order,
      so the two powders agree even in rounded arithmetic. */
  lemma RunsAreTrace(m: Matrix)
    requires m.Valid() && RunStarts(m).Success?
    ensures |RunStarts(m).value| == m.Npix()
    ensures RunTrace(m.data, RunStarts(m).value, m.indptr, m.Npix()) == Trace(m)
  {
    RunStartsAccepts(m);
    RunTraceTo(m, RunStarts(m).value, m.Npix());
  }

  lemma RunBinsColumn(m: Matrix, start: nat, q: nat)
    requires m.Valid() && IsRuns(m) && q < m.Npix()
    requires m.Count(q) > 0 ==> start == m.indices[m.indptr[q]]
    ensures m.indptr[q] <= m.indptr[q + 1] <= |m.indices|
    ensures seq(m.indptr[q + 1] - m.indptr[q], i requires 0 <= i => start + i) == m.indices[m.indptr[q]..m.indptr[q + 1]]
  {
    assert m.indptr[q + 1] <= m.indptr[m.Npix()];
    var run := seq(m.indptr[q + 1] - m.indptr[q], i requires 0 <= i => start + i);
    forall i | 0 <= i < |run| ensures run[i] == m.indices[m.indptr[q]..m.indptr[q + 1]][i] {
      assert InRun(m, q, i);
    }
  }

  lemma {:induction false} RunBinsTo(m: Matrix, starts: seq<nat>, p: nat)
    requires m.Valid() && IsRuns(m) && |starts| == m.Npix() && p <= m.Npix()
    requires forall q :: 0 <= q < m.Npix() && m.Count(q) > 0 ==> starts[q] == m.indices[m.indptr[q]]
    ensures m.indptr[p] <= |m.indices| && RunBins(starts, m.indptr, p) == m.indices[..m.indptr[p]]
  {
    if p > 0 {
      RunBinsTo(m, starts, p - 1);
      RunBinsColumn(m, starts[p - 1], p - 1);
    }
  }

  /** The bins counted up from the starts are the bins of the matrix. */
  lemma RunBinsAreIndices(m: Matrix)
    requires m.Valid() && RunStarts(m).Success?
    ensures |RunStarts(m).value| == m.Npix() && RunBins(RunStarts(m).value, m.indptr, m.Npix()) == m.indices
  {
    RunStartsAccepts(m);
    RunBinsTo(m, RunStarts(m).value, m.Npix());
  }

  lemma NosplitAccepts(m: Matrix)
    requires m.Valid()
    ensures NosplitBins(m).Success? <==> IsHistogram(m)
    ensures NosplitBins(m).Success? ==>
              && |NosplitBins(m).value| == m.Npix()
              && forall p :: 0 <= p < m.Npix() ==> NosplitBins(m).value[p] == OneBin(m, p)
  {
    if NosplitBins(m).Success? {
      forall p | 0 <= p < m.Npix() ensures m.Count(p) <= 1 { assert !ManyBinsAt(m, p); }
    }
  }

  lemma HistogramColumnIs(m: Matrix, bins: seq<nat>, q: nat)
    requires m.Valid() && IsHistogram(m) && |bins| == m.Npix() && q < m.Npix() && bins[q] == OneBin(m, q)
    requires forall k :: 0 <= k < |m.indices| ==> m.indices[k] != NO_BIN
    ensures HistogramColumn(bins, q) == Column(m, q)
  {
    assert m.indptr[q + 1] <= m.indptr[m.Npix()] && m.Count(q) <= 1;
    if m.Count(q) == 1 {
      assert Column(m, q) == [Add(m.indices[m.indptr[q]], q, 1.0)];
    }
  }

  lemma {:induction false} HistogramTo(m: Matrix, bins: seq<nat>, p: nat)
    requires m.Valid() && IsHistogram(m) && |bins| == m.Npix() && p <= m.Npix()
    requires forall q :: 0 <= q < m.Npix() ==> bins[q] == OneBin(m, q)
    requires forall k :: 0 <= k < |m.indices| ==> m.indices[k] != NO_BIN
    ensures HistogramTrace(bins, p) == TraceTo(m, p)
  {
    if p > 0 {
      HistogramTo(m, bins, p - 1);
      HistogramColumnIs(m, bins, p - 1);
    }
  }

  lemma {:induction false} HistogramMarks(bins: seq<nat>, p: nat)
    requires p <= |bins|
    ensures forall a :: a in HistogramTrace(bins, p) ==> a.bin != NO_BIN
  {
    if p > 0 { HistogramMarks(bins, p - 1); }
  }

  /** A histogram's one bin per pixel says all the csc arrays say, exactly when no
      pixel reaches the bin whose number is the mark for no bin. */
  lemma HistogramIsTrace(m: Matrix)
    requires m.Valid() && NosplitBins(m).Success?
    ensures |NosplitBins(m).value| == m.Npix()
    ensures HistogramTrace(NosplitBins(m).value, m.Npix()) == Trace(m)
            <==> forall k :: 0 <= k < |m.indices| ==> m.indices[k] != NO_BIN
  {
    NosplitAccepts(m);
    var bins := NosplitBins(m).value;
    if forall k :: 0 <= k < |m.indices| ==> m.indices[k] != NO_BIN {
      HistogramTo(m, bins, m.Npix());
    }
    if HistogramTrace(bins, m.Npix()) == Trace(m) {
      HistogramMarks(bins, m.Npix());
      TraceAt(m);
      forall k | 0 <= k < |m.indices| ensures m.indices[k] != NO_BIN {
        assert Trace(m)[k] in Trace(m);
      }
    }
  }

  lemma {:induction false} OnesPowder(t: seq<Add>, x: seq<real>, b: nat)
    requires forall a :: a in t ==> a.w == 1.0 && Pixel(x, a.pix) == 1.0
    ensures Powder(t, x, b) >= 0.0
    ensures (exists k :: 0 <= k < |t| && t[k].bin == b) ==> Powder(t, x, b) >= 1.0
  {
    if t != [] {
      assert t[|t| - 1] in t;
      OnesPowder(t[..|t| - 1], x, b);
    }
  }

  lemma {:induction false} BinUnreached(t: seq<Add>, x: seq<real>, b: nat)
    requires forall a :: a in t ==> a.bin != b
    ensures Powder(t, x, b) == 0.0
  {
    if t != [] {
      assert t[|t| - 1] in t;
      BinUnreached(t[..|t| - 1], x, b);
    }
  }

  /** The frame of ones shows an entry in the marked bin. */
  lemma MarkShows(m: Matrix, k: nat) returns (x: seq<real>)
    requires m.Valid() && IsHistogram(m) && k < |m.indices| && m.indices[k] == NO_BIN
    ensures Powder(Trace(m), x, NO_BIN) >= 1.0
  {
    x := seq(m.Npix(), _ => 1.0);
    TraceAt(m);
    var t := Trace(m);
    forall a | a in t ensures a.w == 1.0 && Pixel(x, a.pix) == 1.0 {
      var i :| 0 <= i < |t| && t[i] == a;
      PixAt(m, i);
    }
    assert t[k].bin == NO_BIN;
    OnesPowder(t, x, NO_BIN);
  }

  /** The histogram is the map of the matrix, every bin of every frame, exactly when no
      entry is in the bin whose number is the mark. */
  lemma HistogramMapExactly(m: Matrix, bins: seq<nat>)
    requires m.Valid() && NosplitBins(m) == Success(bins)
    ensures |bins| == m.Npix()
    ensures (forall x: seq<real>, b: nat :: Powder(HistogramTrace(bins, |bins|), x, b) == Powder(Trace(m), x, b))
            <==> forall k :: 0 <= k < |m.indices| ==> m.indices[k] != NO_BIN
  {
    NosplitAccepts(m);
    HistogramIsTrace(m);
    if k :| 0 <= k < |m.indices| && m.indices[k] == NO_BIN {
      var x := MarkShows(m, k);
      HistogramMarks(bins, |bins|);
      BinUnreached(HistogramTrace(bins, |bins|), x, NO_BIN);
    }
  }

  lemma PermuteAccepts(m: Matrix)
    requires m.Valid()
    ensures PermuteBins(m).Success? <==> IsHistogram(m) && Distinct(m)
    ensures PermuteBins(m).Success? ==> NosplitBins(m).Success? && PermuteBins(m).value == NosplitBins(m).value
  {
    NosplitAccepts(m);
  }

  /** No two pixels are stored in one slot. */
  lemma OnePixel(m: Matrix, bins: seq<nat>, p: nat, q: nat)
    requires IsPermuted(m, bins) && p < |bins| && q < |bins| && bins[p] == bins[q] < m.nbins && bins[p] != NO_BIN
    ensures p == q
  {
    assert m.Count(p) <= 1 && m.Count(q) <= 1;
    assert !SharedBy(m, p, q) && !SharedBy(m, q, p);
  }

  /** A slot holds the pixel that was stored there, else the zero fill. */
  lemma {:induction false} StoredAt(m: Matrix, bins: seq<nat>, x: seq<real>, pixels: seq<nat>, b: nat)
    requires IsPermuted(m, bins) && b < m.nbins && b != NO_BIN
    ensures forall q :: q in pixels && q < |bins| && bins[q] == b ==> Stored(bins, x, m.nbins, pixels)[b] == Pixel(x, q)
    ensures (forall q :: q in pixels && q < |bins| ==> bins[q] != b) ==> Stored(bins, x, m.nbins, pixels)[b] == 0.0
  {
    if pixels != [] {
      var n := |pixels| - 1;
      var rest, p := pixels[..n], pixels[n];
      StoredAt(m, bins, x, rest, b);
      assert pixels == rest + [p];
      if p < |bins| && bins[p] == b { Alone(m, bins, p); }
    }
  }

  lemma ColumnPowder(bins: seq<nat>, x: seq<real>, p: nat, b: nat)
    requires p < |bins|
    ensures Powder(HistogramColumn(bins, p), x, b) == if bins[p] == b && b != NO_BIN then Pixel(x, p) else 0.0
  {
    var c := HistogramColumn(bins, p);
    if bins[p] != NO_BIN { assert Powder(c, x, b) == Powder([], x, b) + Term(c[0], x, b); }
  }

  lemma PermutedStep(m: Matrix, bins: seq<nat>, x: seq<real>, p: nat, b: nat)
    requires IsPermuted(m, bins) && p < m.Npix()
    ensures Powder(TraceTo(m, p + 1), x, b) ==
            Powder(TraceTo(m, p), x, b) + if bins[p] == b && b != NO_BIN then Pixel(x, p) else 0.0
  {
    HistogramColumnIs(m, bins, p);
    ColumnPowder(bins, x, p, b);
    PowderConcat(TraceTo(m, p), HistogramColumn(bins, p), x, b);
  }

  /** The pixels below p that reach bin b, added up. */
  function SlotSum(bins: seq<nat>, x: seq<real>, p: nat, b: nat): real
    requires p <= |bins|
  {
    if p == 0 then 0.0
    else SlotSum(bins, x, p - 1, b) + if bins[p - 1] == b && b != NO_BIN then Pixel(x, p - 1) else 0.0
  }

  lemma {:induction false} PermutedPowder(m: Matrix, bins: seq<nat>, x: seq<real>, p: nat, b: nat)
    requires IsPermuted(m, bins) && p <= m.Npix()
    ensures Powder(TraceTo(m, p), x, b) == SlotSum(bins, x, p, b)
  {
    if p > 0 {
      PermutedPowder(m, bins, x, p - 1, b);
      PermutedStep(m, bins, x, p - 1, b);
    }
  }

  lemma {:induction false} NoneReach(bins: seq<nat>, x: seq<real>, p: nat, b: nat)
    requires p <= |bins|
    requires b == NO_BIN || forall q :: 0 <= q < p ==> bins[q] != b
    ensures SlotSum(bins, x, p, b) == 0.0
  {
    if p > 0 { NoneReach(bins, x, p - 1, b); }
  }

  lemma {:induction false} OneReaches(bins: seq<nat>, x: seq<real>, p: nat, q: nat)
    requires q < p <= |bins| && bins[q] != NO_BIN
    requires forall r :: 0 <= r < p && bins[r] == bins[q] ==> r == q
    ensures SlotSum(bins, x, p, bins[q]) == Pixel(x, q)
  {
    if q < p - 1 { OneReaches(bins, x, p - 1, q); } else { NoneReach(bins, x, q, bins[q]); }
  }

  lemma Alone(m: Matrix, bins: seq<nat>, q: nat)
    requires IsPermuted(m, bins) && q < |bins| && bins[q] < m.nbins && bins[q] != NO_BIN
    ensures forall r :: 0 <= r < |bins| && bins[r] == bins[q] ==> r == q
  {
    forall r | 0 <= r < |bins| && bins[r] == bins[q] ensures r == q { OnePixel(m, bins, r, q); }
  }

  lemma PermutedBins(m: Matrix)
    requires m.Valid() && PermuteBins(m).Success?
    requires forall k :: 0 <= k < |m.indices| ==> m.indices[k] != NO_BIN
    ensures IsPermuted(m, PermuteBins(m).value)
  {
    PermuteAccepts(m);
    NosplitAccepts(m);
  }

  /** No pixel is stored in the bin whose number is the mark. */
  lemma MarkIsEmpty(bins: seq<nat>, x: seq<real>, nbins: nat, pixels: seq<nat>)
    requires NO_BIN < nbins
    ensures Stored(bins, x, nbins, pixels)[NO_BIN] == 0.0
  {
  }

  /** The permuted output is the matrix product, although the kernel stores where the
      others add, whatever pixels are visited as long as those with a value are. */
  lemma PermuteIsProduct(m: Matrix, x: seq<real>, pixels: seq<nat>, b: nat)
    requires m.Valid() && PermuteBins(m).Success? && b < m.nbins
    requires forall k :: 0 <= k < |m.indices| ==> m.indices[k] != NO_BIN
    requires forall q :: 0 <= q < m.Npix() && m.Count(q) > 0 && Pixel(x, q) != 0.0 ==> q in pixels
    ensures Stored(PermuteBins(m).value, x, m.nbins, pixels)[b] == Powder(Trace(m), x, b)
  {
    var bins := PermuteBins(m).value;
    PermutedBins(m);
    PermutedPowder(m, bins, x, m.Npix(), b);
    if b == NO_BIN {
      MarkIsEmpty(bins, x, m.nbins, pixels);
      NoneReach(bins, x, m.Npix(), b);
    } else {
      StoredAt(m, bins, x, pixels, b);
      if q :| 0 <= q < m.Npix() && bins[q] == b {
        assert m.Count(q) > 0;
        Alone(m, bins, q);
        OneReaches(bins, x, m.Npix(), q);
      } else {
        NoneReach(bins, x, m.Npix(), b);
      }
    }
  }

  /** Every pixel with a bin is read back from its slot of the output. */
  lemma PermuteReadBack(m: Matrix, x: seq<real>, pixels: seq<nat>, q: nat)
    requires m.Valid() && PermuteBins(m).Success? && q < m.Npix() && m.Count(q) == 1
    requires forall k :: 0 <= k < |m.indices| ==> m.indices[k] != NO_BIN
    requires forall p :: 0 <= p < m.Npix() && m.Count(p) > 0 && Pixel(x, p) != 0.0 ==> p in pixels
    ensures |PermuteBins(m).value| == m.Npix() && PermuteBins(m).value[q] < m.nbins
    ensures Stored(PermuteBins(m).value, x, m.nbins, pixels)[PermuteBins(m).value[q]] == Pixel(x, q)
  {
    var bins := PermuteBins(m).value;
    PermutedBins(m);
    assert bins[q] == m.indices[m.indptr[q]];
    PermuteIsProduct(m, x, pixels, bins[q]);
    Alone(m, bins, q);
    OneReaches(bins, x, m.Npix(), q);
    PermutedPowder(m, bins, x, m.Npix(), bins[q]);
  }

  lemma EntryOfColumn(m: Matrix, f: Matrix, p: nat, i: nat)
    requires m.Valid() && f.Valid() && p < m.Npix() && p < f.Npix() && Column(f, p) == Column(m, p) && i < m.Count(p)
    ensures i < f.Count(p)
    ensures f.indices[f.indptr[p] + i] == m.indices[m.indptr[p] + i] && f.data[f.indptr[p] + i] == m.data[m.indptr[p] + i]
  {
    assert |Column(f, p)| == f.Count(p) && |Column(m, p)| == m.Count(p);
    assert Column(f, p)[i] == Column(m, p)[i];
  }

  /** Folding a mask in keeps runs runs, histograms histograms and permutations
      permutations, so no layout is lost by masking. */
  lemma FoldKeepsKind(m: Matrix, mask: seq<nat>)
    requires m.Valid() && FoldMask(m, mask).Success?
    ensures FoldMask(m, mask).value.Valid()
    ensures IsRuns(m) ==> IsRuns(FoldMask(m, mask).value)
    ensures IsHistogram(m) ==> IsHistogram(FoldMask(m, mask).value)
    ensures IsHistogram(m) && Distinct(m) ==> Distinct(FoldMask(m, mask).value)
  {
    FoldMaskColumns(m, mask);
    var f := FoldMask(m, mask).value;
    if IsRuns(m) { RunsOfColumns(m, f, mask); }
    if IsHistogram(m) { HistogramOfColumns(m, f, mask); }
    if IsHistogram(m) && Distinct(m) { DistinctOfColumns(m, f, mask); }
  }

  ghost predicate Folded(m: Matrix, f: Matrix, mask: seq<nat>)
    requires m.Valid() && f.Valid()
  {
    && f.Npix() == m.Npix() == |mask|
    && forall p :: 0 <= p < m.Npix() ==> FoldedAt(m, f, mask, p)
  }

  ghost predicate FoldedAt(m: Matrix, f: Matrix, mask: seq<nat>, p: nat)
    requires m.Valid() && f.Valid() && p < m.Npix() && p < f.Npix() && p < |mask|
  {
    f.Count(p) == (if mask[p] > 0 then m.Count(p) else 0) && (mask[p] > 0 ==> Column(f, p) == Column(m, p))
  }

  lemma RunsOfColumns(m: Matrix, f: Matrix, mask: seq<nat>)
    requires m.Valid() && f.Valid() && Folded(m, f, mask) && IsRuns(m)
    ensures IsRuns(f)
  {
    forall p, i | 0 <= p < f.Npix() && 0 <= i < f.Count(p) ensures InRun(f, p, i) {
      assert FoldedAt(m, f, mask, p) && InRun(m, p, i);
      EntryOfColumn(m, f, p, i);
      EntryOfColumn(m, f, p, 0);
    }
  }

  lemma HistogramOfColumns(m: Matrix, f: Matrix, mask: seq<nat>)
    requires m.Valid() && f.Valid() && Folded(m, f, mask) && IsHistogram(m)
    ensures IsHistogram(f)
  {
    forall p | 0 <= p < f.Npix() ensures f.Count(p) <= 1 {
      assert FoldedAt(m, f, mask, p) && m.Count(p) <= 1;
    }
    forall k | 0 <= k < |f.data| ensures f.data[k] == 1.0 {
      PixAt(f, k);
      var p := Pix(f)[k];
      assert FoldedAt(m, f, mask, p);
      EntryOfColumn(m, f, p, k - f.indptr[p]);
    }
  }

  lemma DistinctOfColumns(m: Matrix, f: Matrix, mask: seq<nat>)
    requires m.Valid() && f.Valid() && Folded(m, f, mask) && IsHistogram(m) && Distinct(m)
    ensures Distinct(f)
  {
    forall p, q | 0 <= p < f.Npix() && 0 <= q < f.Npix() ensures !SharedBy(f, p, q) {
      assert FoldedAt(m, f, mask, p) && FoldedAt(m, f, mask, q) && !SharedBy(m, p, q);
      if f.Count(p) == 1 && f.Count(q) == 1 {
        EntryOfColumn(m, f, p, 0);
        EntryOfColumn(m, f, q, 0);
      }
    }
  }
}
