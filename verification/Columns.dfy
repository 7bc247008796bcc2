/**
  The layouts that keep one bin per pixel beside the csc arrays: the first bin of
  a run (`_run_starts`, `_runs`), the one bin of a histogram (`_nosplit_bins`,
  `_histogram_bins`) and the output slot of a permutation (`_permute_bins`),
  each with the reading of its kernel.
*/
module Columns {
  import opened Csc
  import opened Numpy
  import opened Product

  /** The mark of a pixel that reaches no bin (BSLZ4_NO_BIN). */
  const NO_BIN: nat := 0xFFFF_FFFF

  // ---- runs ---------------------------------------------------------------

  /** (pix[1:] == pix[:-1]) & (np.diff(indices) != 1), at entry k */
  predicate BrokenAt(m: Matrix, pix: seq<nat>, k: nat)
    requires |pix| == |m.indices|
  {
    0 < k < |pix| && pix[k] == pix[k - 1] && m.indices[k] != m.indices[k - 1] + 1
  }

  predicate InRun(m: Matrix, p: nat, i: nat)
    requires m.Valid() && p < m.Npix() && i < m.Count(p)
  {
    m.indices[m.indptr[p] + i] == m.indices[m.indptr[p]] + i
  }

  /** Each pixel's bins are one ascending run of consecutive bins. */
  ghost predicate IsRuns(m: Matrix)
    requires m.Valid()
  {
    forall p, i :: 0 <= p < m.Npix() && 0 <= i < m.Count(p) ==> InRun(m, p, i)
  }

  function PixOf(m: Matrix): (pix: seq<nat>)
    requires m.Valid()
    ensures |pix| == |m.indices|
  {
    TraceAt(m);
    Pix(m)
  }

  function RunStarts(m: Matrix): Result<seq<nat>>
    requires m.Valid()
  {
    var pix := PixOf(m);
    if exists k :: 0 <= k < |pix| && BrokenAt(m, pix, k) then Refused(NotRuns)
    else Success(seq(m.Npix(), p requires 0 <= p < m.Npix() => if m.Count(p) > 0 then m.indices[m.indptr[p]] else 0))
  }

  /** Pixel p of the csc-run kernel: bins start, start + 1, ... (run_dense). */
  function RunColumn(data: seq<real>, starts: seq<nat>, indptr: seq<nat>, p: nat): seq<Add>
    requires p < |starts| && p + 1 < |indptr|
  {
    var lo, hi := indptr[p], indptr[p + 1];
    if lo <= hi <= |data| then seq(hi - lo, i requires 0 <= i < hi - lo => Add(starts[p] + i, p, data[lo + i])) else []
  }

  /** The additions of the csc-run kernel over the first p pixels. */
  function RunTrace(data: seq<real>, starts: seq<nat>, indptr: seq<nat>, p: nat): seq<Add>
    requires p <= |starts| && p < |indptr|
  {
    if p == 0 then [] else RunTrace(data, starts, indptr, p - 1) + RunColumn(data, starts, indptr, p - 1)
  }

  /** The bins of the entries of the first p pixels, counted up from each start. */
  function RunBins(starts: seq<nat>, indptr: seq<nat>, p: nat): seq<nat>
    requires p <= |starts| && p < |indptr|
  {
    if p == 0 then []
    else
      var lo, hi := indptr[p - 1], indptr[p];
      RunBins(starts, indptr, p - 1) + if lo <= hi then seq(hi - lo, i requires 0 <= i => starts[p - 1] + i) else []
  }

  // ---- histograms ---------------------------------------------------------

  predicate ManyBinsAt(m: Matrix, p: nat)
    requires m.Valid() && p < m.Npix()
  {
    m.Count(p) > 1
  }

  function OneBin(m: Matrix, p: nat): nat
    requires m.Valid() && p < m.Npix()
  {
    if m.Count(p) == 1 then m.indices[m.indptr[p]] else NO_BIN
  }

  function NosplitBins(m: Matrix): Result<seq<nat>>
    requires m.Valid()
  {
    if exists p :: 0 <= p < m.Npix() && ManyBinsAt(m, p) then Refused(ManyBins)
    else if exists k :: 0 <= k < |m.data| && m.data[k] != 1.0 then Refused(NotUnit)
    else Success(seq(m.Npix(), p requires 0 <= p < m.Npix() => OneBin(m, p)))
  }

  /** Pixel p of the csc-nosplit kernel. */
  function HistogramColumn(bins: seq<nat>, p: nat): seq<Add>
    requires p < |bins|
  {
    if bins[p] != NO_BIN then [Add(bins[p], p, 1.0)] else []
  }

  /** The csc-nosplit kernel adds each pixel once, with no weight (nosplit_dense). */
  function HistogramTrace(bins: seq<nat>, p: nat): seq<Add>
    requires p <= |bins|
  {
    if p == 0 then []
    else HistogramTrace(bins, p - 1) + HistogramColumn(bins, p - 1)
  }

  // ---- permutations -------------------------------------------------------

  predicate SharedBy(m: Matrix, p: nat, q: nat)
    requires m.Valid() && p < m.Npix() && q < m.Npix()
  {
    p < q && m.Count(p) == 1 && m.Count(q) == 1 && m.indices[m.indptr[p]] == m.indices[m.indptr[q]]
  }

  function PermuteBins(m: Matrix): Result<seq<nat>>
    requires m.Valid()
  {
    match NosplitBins(m)
    case Refused(e) => Refused(e)
    case Success(bins) =>
      if exists p, q :: 0 <= p < m.Npix() && 0 <= q < m.Npix() && SharedBy(m, p, q) then Refused(BinsShared)
      else Success(bins)
  }

  /** What a histogram is: at most one bin per pixel, every weight 1. */
  ghost predicate IsHistogram(m: Matrix)
    requires m.Valid()
  {
    && (forall p :: 0 <= p < m.Npix() ==> m.Count(p) <= 1)
    && (forall k :: 0 <= k < |m.data| ==> m.data[k] == 1.0)
  }

  /** No two pixels reach the same bin. */
  ghost predicate Distinct(m: Matrix)
    requires m.Valid()
  {
    forall p, q :: 0 <= p < m.Npix() && 0 <= q < m.Npix() ==> !SharedBy(m, p, q)
  }

  /** A matrix whose bins are stored by csc-permute. */
  ghost predicate IsPermuted(m: Matrix, bins: seq<nat>) {
    && m.Valid() && IsHistogram(m) && Distinct(m) && |bins| == m.Npix()
    && (forall q :: 0 <= q < m.Npix() ==> bins[q] == OneBin(m, q))
    && (forall k :: 0 <= k < |m.indices| ==> m.indices[k] != NO_BIN)
  }

  /** The csc-permute kernel stores, it does not add: the pixels of a list written, in
      order, to a zero-filled output (src/steps/dot_fixed.hpp). */
  function Stored(bins: seq<nat>, x: seq<real>, nbins: nat, pixels: seq<nat>): (out: seq<real>)
    ensures |out| == nbins
  {
    if pixels == [] then seq(nbins, _ => 0.0)
    else
      var out := Stored(bins, x, nbins, pixels[..|pixels| - 1]);
      var p := pixels[|pixels| - 1];
      if p < |bins| && bins[p] < nbins && bins[p] != NO_BIN then out[bins[p] := Pixel(x, p)] else out
  }
}
