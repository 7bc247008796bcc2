/**
  The padded layout: one first bin and a fixed number of weights per row
  (`_padded_from_csc`), with the readings of its dense and sparse kernels.
*/
module Padded {
  import opened Columns
  import opened Csc
  import opened Numpy
  import opened Product

  const MAX_WIDTH: nat := 64

  /** A row is a pixel, or an entry of `pixels` when the layout is listed; pixels
      and rowmap are then inverse to each other.  rowPtr splits the rows by block. */
  datatype Layout = Layout(
    base: seq<nat>, weights: seq<seq<real>>, pixels: seq<nat>, rowmap: seq<int>, rowPtr: seq<nat>,
    width: nat, listed: bool, blockElems: nat)

  // ---- the compiler -------------------------------------------------------

  function MaxOf(s: seq<nat>): (r: nat)
    ensures forall i :: 0 <= i < |s| ==> s[i] <= r
    ensures s != [] ==> exists i :: 0 <= i < |s| && s[i] == r
    ensures s == [] ==> r == 0
  {
    if s == [] then 0
    else
      var r := MaxOf(s[..|s| - 1]);
      if s[|s| - 1] > r || |s| == 1 then s[|s| - 1] else r
  }

  function Min(a: int, b: int): int {
    if a < b then a else b
  }

  /** max(n.max(), 1) */
  function Width(m: Matrix): (w: nat)
    requires m.Valid()
    ensures w >= 1 && forall p :: 0 <= p < m.Npix() ==> m.Count(p) <= w
  {
    var used := MaxOf(Counts(m));
    assert forall p :: 0 <= p < m.Npix() ==> Counts(m)[p] <= used;
    if used < 1 then 1 else used
  }

  function FirstBin(m: Matrix, p: nat): nat
    requires m.Valid() && p < m.Npix()
  {
    if m.Count(p) > 0 then m.indices[m.indptr[p]] else 0
  }

  /** The first bin moved down so that a row of w weights fits below nbins. */
  function Base(m: Matrix, w: nat, p: nat): (b: nat)
    requires m.Valid() && p < m.Npix()
    ensures b <= FirstBin(m, p)
  {
    Min(FirstBin(m, p), if m.nbins > w then m.nbins - w else 0)
  }

  function Shift(m: Matrix, w: nat, p: nat): nat
    requires m.Valid() && p < m.Npix()
  {
    FirstBin(m, p) - Base(m, w, p)
  }

  /** Weight j of the row of pixel p: the pixel's weights from its shift on. */
  function Weight(m: Matrix, w: nat, p: nat, j: nat): real
    requires m.Valid() && p < m.Npix()
  {
    if Shift(m, w, p) <= j < Shift(m, w, p) + m.Count(p) then m.data[m.indptr[p] + (j - Shift(m, w, p))] else 0.0
  }

  function Row(m: Matrix, w: nat, p: nat): (r: seq<real>)
    requires m.Valid() && p < m.Npix()
    ensures |r| == w
  {
    seq(w, j requires 0 <= j => Weight(m, w, p, j))
  }

  /** Every pixel has a row, or every pixel with entries when the layout is listed. */
  predicate HasRow(m: Matrix, listed: bool, p: nat)
    requires m.Valid() && p < m.Npix()
  {
    listed ==> m.Count(p) > 0
  }

  /** The pixels below p that have a row: flatnonzero(has), or all of them. */
  function RowPixels(m: Matrix, listed: bool, p: nat): (r: seq<nat>)
    requires m.Valid() && p <= m.Npix()
    ensures |r| <= p
    ensures forall i :: 0 <= i < |r| ==> r[i] < p
  {
    if p == 0 then [] else RowPixels(m, listed, p - 1) + if HasRow(m, listed, p - 1) then [p - 1] else []
  }

  /** The row of pixel p: how many rows precede it, or -1. */
  function RowOf(m: Matrix, p: nat): int
    requires m.Valid() && p < m.Npix()
  {
    if m.Count(p) > 0 then |RowPixels(m, true, p)| else -1
  }

  /** The first pixel of each block and the end: min(arange(nblocks + 1) * be, npix). */
  function BlockStarts(npix: nat, be: nat): (r: seq<nat>)
    requires be >= 1
    ensures |r| == Blocks(npix, be) + 1
    ensures forall j :: 0 <= j < |r| ==> r[j] == if j * be < npix then j * be else npix
  {
    seq(Blocks(npix, be) + 1, j requires 0 <= j => if j * be < npix then j * be else npix)
  }

  /** Fewer than half of the pixels have entries: has.mean() < 0.5. */
  predicate IsListed(m: Matrix)
    requires m.Valid()
  {
    2 * |RowPixels(m, true, m.Npix())| < m.Npix()
  }

  function LayoutOf(m: Matrix, w: nat, listed: bool, be: nat): Layout
    requires m.Valid() && be >= 1
  {
    var npix := m.Npix();
    var rows := RowPixels(m, listed, npix);
    var starts := BlockStarts(npix, be);
    Layout(
      seq(|rows|, r requires 0 <= r < |rows| => Base(m, w, rows[r])),
      seq(|rows|, r requires 0 <= r < |rows| => Row(m, w, rows[r])),
      if listed then rows else [],
      if listed then seq(npix, p requires 0 <= p < npix => RowOf(m, p)) else [],
      if listed then seq(|starts|, j requires 0 <= j < |starts| => SearchSorted(rows, starts[j])) else starts,
      w, listed, be)
  }

  /** The checks of _padded_from_csc, in their order, and its result. */
  function FromCsc(m: Matrix, be: nat): Result<Layout>
    requires m.Valid() && be >= 1
  {
    if Width(m) > MAX_WIDTH then Refused(TooWide)
    else if RunStarts(m).Refused? then Refused(NotRuns)
    else Success(LayoutOf(m, Width(m), IsListed(m), be))
  }

  // ---- the kernels' reading -----------------------------------------------

  predicate Readable(l: Layout) {
    && |l.weights| == |l.base| && (l.listed ==> |l.pixels| == |l.base|)
    && (forall r :: 0 <= r < |l.weights| ==> |l.weights[r]| == l.width)
    && |l.rowPtr| >= 1 && (forall j :: 0 <= j < |l.rowPtr| ==> l.rowPtr[j] <= |l.base|)
    && (forall p :: 0 <= p < |l.rowmap| ==> l.rowmap[p] < |l.base|)
  }

  /** Every pixel of the frame has its place in the row arrays. */
  predicate Spans(l: Layout, npix: nat) {
    Readable(l) && if l.listed then npix <= |l.rowmap| else npix <= |l.base|
  }

  /** bslz4_padded_pixel (src/steps/dot_padded.hpp) */
  function RowPixel(l: Layout, r: nat): nat
    requires Readable(l) && r < |l.base|
  {
    if l.listed then l.pixels[r] else r
  }

  /** out[base + k] += weights[k] * px for the whole width of row r. */
  function RowTrace(l: Layout, r: nat, p: nat): seq<Add>
    requires Readable(l) && r < |l.base|
  {
    seq(l.width, k requires 0 <= k < l.width => Add(l.base[r] + k, p, l.weights[r][k]))
  }

  function RowsTrace(l: Layout, lo: nat, hi: nat): seq<Add>
    requires Readable(l) && hi <= |l.base|
  {
    if hi <= lo then [] else RowsTrace(l, lo, hi - 1) + RowTrace(l, hi - 1, RowPixel(l, hi - 1))
  }

  /** The dense kernel walks the rows of each block in turn. */
  function DenseTrace(l: Layout, n: nat): seq<Add>
    requires Readable(l) && n < |l.rowPtr|
  {
    if n == 0 then [] else DenseTrace(l, n - 1) + RowsTrace(l, l.rowPtr[n - 1], l.rowPtr[n])
  }

  /** The row the sparse kernel finds for a pixel; it skips one whose row is negative. */
  function SparseRow(l: Layout, p: nat): seq<Add>
    requires Spans(l, p + 1)
  {
    var row := if l.listed then l.rowmap[p] else p;
    if row < 0 then [] else RowTrace(l, row, p)
  }

  /** The sparse kernel over every pixel below p. */
  function SparseTrace(l: Layout, p: nat): seq<Add>
    requires Spans(l, p)
  {
    if p == 0 then [] else SparseTrace(l, p - 1) + SparseRow(l, p - 1)
  }

  // ---- what the kernels rely on -------------------------------------------

  /** Every row stays inside the powder and reads a pixel of the frame. */
  ghost predicate RowsInside(l: Layout, nbins: nat, npix: nat) {
    && Readable(l)
    && (forall r :: 0 <= r < |l.base| ==> l.base[r] + l.width <= nbins)
    && (forall r :: 0 <= r < |l.base| ==> RowPixel(l, r) < npix)
  }

  /** Row r belongs to block j exactly when its pixel does. */
  ghost predicate BlocksSplit(l: Layout, npix: nat) {
    && Readable(l) && l.blockElems >= 1
    && |l.rowPtr| == Blocks(npix, l.blockElems) + 1
    && l.rowPtr[0] == 0 && l.rowPtr[|l.rowPtr| - 1] == |l.base|
    && (forall i, j :: 0 <= i <= j < |l.rowPtr| ==> l.rowPtr[i] <= l.rowPtr[j])
    && (forall j, r :: 0 <= j < |l.rowPtr| && 0 <= r < |l.base| ==> (r < l.rowPtr[j] <==> RowPixel(l, r) < j * l.blockElems))
  }

  /** pixels and rowmap are inverse to each other. */
  ghost predicate MapsInverse(l: Layout, npix: nat) {
    && Readable(l)
    && (!l.listed ==> |l.base| == npix)
    && (l.listed ==>
          && |l.rowmap| == npix
          && (forall r :: 0 <= r < |l.base| ==> l.pixels[r] < npix && l.rowmap[l.pixels[r]] == r)
          && (forall p :: 0 <= p < npix && l.rowmap[p] >= 0 ==> l.pixels[l.rowmap[p]] == p))
  }

  ghost predicate WellFormed(l: Layout, nbins: nat, npix: nat) {
    1 <= l.width <= MAX_WIDTH && RowsInside(l, nbins, npix) && BlocksSplit(l, npix) && MapsInverse(l, npix)
  }

  /** What the row arrays hold, in terms of the pixels that have rows. */
  ghost predicate Rows(l: Layout, m: Matrix, rows: seq<nat>) {
    && m.Valid() && Readable(l) && |l.base| == |rows|
    && (forall r :: 0 <= r < |rows| ==> rows[r] < m.Npix())
    && (forall r :: 0 <= r < |rows| ==> RowPixel(l, r) == rows[r])
    && (forall r :: 0 <= r < |rows| ==> l.base[r] == Base(m, l.width, rows[r]) && l.weights[r] == Row(m, l.width, rows[r]))
  }

  /** The additions of a whole padded row of pixel p. */
  function PixelRow(m: Matrix, w: nat, p: nat): seq<Add>
    requires m.Valid() && p < m.Npix()
  {
    seq(w, k requires 0 <= k => Add(Base(m, w, p) + k, p, Weight(m, w, p, k)))
  }

  /** The rows of the pixels below p perform the additions of their columns. */
  ghost predicate RowsAgree(l: Layout, m: Matrix, p: nat)
    requires m.Valid() && Readable(l) && p <= m.Npix()
  {
    && |RowPixels(m, l.listed, p)| <= |l.base|
    && Weighted(RowsTrace(l, 0, |RowPixels(m, l.listed, p)|)) == Weighted(TraceTo(m, p))
  }

  ghost predicate StepKeeps(l: Layout, m: Matrix, q: nat)
    requires m.Valid() && Readable(l) && q < m.Npix()
  {
    RowsAgree(l, m, q) ==> RowsAgree(l, m, q + 1)
  }

  /** The rows found for the pixels below p are the first rows, in order. */
  ghost predicate SparseAgrees(l: Layout, m: Matrix, p: nat)
    requires m.Valid() && Readable(l) && p <= m.Npix()
  {
    && |RowPixels(m, l.listed, p)| <= |l.base| && Spans(l, p)
    && SparseTrace(l, p) == RowsTrace(l, 0, |RowPixels(m, l.listed, p)|)
  }

  /** Both kernels perform the additions of the matrix in order, zero weights aside. */
  ghost predicate Agrees(l: Layout, m: Matrix)
    requires m.Valid()
  {
    && Spans(l, m.Npix())
    && Weighted(DenseTrace(l, |l.rowPtr| - 1)) == Weighted(Trace(m))
    && Weighted(SparseTrace(l, m.Npix())) == Weighted(Trace(m))
  }

  /** Pointers that count the rows of the pixels below each block start. */
  ghost predicate Counted(ptr: seq<nat>, rows: seq<nat>, be: nat) {
    && (forall j :: 0 <= j < |ptr| ==> ptr[j] <= |rows|)
    && (forall j, r :: 0 <= j < |ptr| && 0 <= r < |rows| ==> (r < ptr[j] <==> rows[r] < j * be))
  }
}
