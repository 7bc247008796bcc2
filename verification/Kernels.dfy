/**
  What the kernel of a layout computes for a frame: block by block, each on the route
  the decoder took.
*/
module Kernels {
  import BlockCsr
  import Columns
  import opened Csc
  import opened FixedPoint
  import opened Layouts
  import opened Numpy
  import Padded
  import opened Product
  import opened Routes

  /** Integer weights or pixels as exact numbers. */
  function Reals(s: seq<int>): (r: seq<real>)
    ensures |r| == |s| && forall k :: 0 <= k < |s| ==> r[k] == s[k] as real
  {
    seq(|s|, k requires 0 <= k < |s| => s[k] as real)
  }

  /** The csc, run and histogram readings of one pixel. */
  ghost function PixelPart(dot: Dot, data: seq<real>, indices: seq<nat>, indptr: seq<nat>, nbins: nat, p: nat): seq<Add> {
    if dot == CscDot || dot == CscInt || dot == BsbCsr then
      var m := Matrix(data, indices, indptr, nbins);
      if m.Valid() && p < m.Npix() then Column(m, p) else []
    else if dot == CscRun || dot == CscRunInt || dot == CscRunInt16 then
      if p < |indices| && p + 1 < |indptr| then Columns.RunColumn(data, indices, indptr, p) else []
    else
      if p < |indices| then Columns.HistogramColumn(indices, p) else []
  }

  /** The additions of a pixel on the sparse route: the bsb-csr dots walk their nested
      csc, padded finds the row of the pixel. */
  ghost function SparsePart(l: Layout, p: nat): seq<Add> {
    match l.args
    case CscArgs(data, indices, indptr) => PixelPart(l.dot, data, indices, indptr, l.nout, p)
    case IntArgs(weights, indices, indptr) => PixelPart(l.dot, Reals(weights), indices, indptr, l.nout, p)
    case PaddedArgs(rows) => if Padded.Spans(rows, p + 1) then Padded.SparseRow(rows, p) else []
    case BsbArgs(_, data, indices, indptr) => PixelPart(l.dot, data, indices, indptr, l.nout, p)
  }

  ghost function SparseParts(l: Layout, npix: nat): (r: seq<seq<Add>>)
    ensures |r| == npix && forall p :: 0 <= p < npix ==> r[p] == SparsePart(l, p)
  {
    seq(npix, p requires 0 <= p < npix => SparsePart(l, p))
  }

  /** bsb-csr-nosplit does not read the weights. */
  function BlocksOf(l: Layout): BlockCsr.Layout
    requires l.args.BsbArgs?
  {
    var q := l.args.blocks;
    if l.dot == BsbCsrNosplit then q.(data := seq(|q.data|, _ => 1.0)) else q
  }

  /** The additions of block j on the dense route: the rows or the bins of the block, or
      its pixels one after the other. */
  ghost function DensePart(l: Layout, j: nat, be: nat, npix: nat): seq<Add> {
    if l.args.PaddedArgs? then
      var rows := l.args.rows;
      if Padded.Readable(rows) && j + 1 < |rows.rowPtr| then Padded.RowsTrace(rows, rows.rowPtr[j], rows.rowPtr[j + 1]) else []
    else if l.args.BsbArgs? then
      var q := BlocksOf(l);
      if BlockCsr.Readable(q) && j + 1 < |q.blkPtr| then BlockCsr.GroupsTrace(q, j, q.blkPtr[j], q.blkPtr[j + 1]) else []
    else Picked(SparseParts(l, npix), BlockPixels(j, be, npix))
  }

  ghost function DenseParts(l: Layout, be: nat, npix: nat): (r: seq<seq<Add>>)
    requires be >= 1
    ensures |r| == Blocks(npix, be) && forall j :: 0 <= j < |r| ==> r[j] == DensePart(l, j, be, npix)
  {
    seq(Blocks(npix, be), j requires 0 <= j => DensePart(l, j, be, npix))
  }

  /** The additions of a frame decoded in blocks of be pixels. */
  ghost function FrameTrace(l: Layout, be: nat, npix: nat, routes: seq<Route>): seq<Add>
    requires be >= 1
  {
    if |routes| <= Blocks(npix, be) then Mixed(DenseParts(l, be, npix), SparseParts(l, npix), routes) else []
  }

  /** Bin b of the powder of a float dot; csc-permute stores the pixels it visits. */
  ghost function KernelPowder(l: Layout, be: nat, npix: nat, routes: seq<Route>, x: seq<real>, b: nat): real
    requires be >= 1
  {
    if l.dot == CscPermute && l.args.CscArgs? && b < l.nout then
      Columns.Stored(l.args.indices, x, l.nout, Visited(routes, be, npix))[b]
    else Powder(FrameTrace(l, be, npix, routes), x, b)
  }

  /** out[bin] += (uint64_t) d[k] * (uint64_t) (int64_t) v, all modulo 2^64
      (src/steps/dot_fixed.hpp). */
  function WrappedPowder(t: seq<Add>, x: seq<int>, b: nat): (r: int)
    ensures 0 <= r < TWO_64
  {
    if t == [] then 0
    else
      var before := WrappedPowder(t[..|t| - 1], x, b);
      var a := t[|t| - 1];
      if a.bin == b then (before + a.w.Floor * (PixelInt(x, a.pix) % TWO_64)) % TWO_64 else before
  }

  /** Bin b of the int64 powder of an integer dot. */
  ghost function KernelSum(l: Layout, be: nat, npix: nat, routes: seq<Route>, x: seq<int>, b: nat): int
    requires be >= 1
  {
    AsInt64(WrappedPowder(FrameTrace(l, be, npix, routes), x, b))
  }

  /** The routes a frame of matrix m may take. */
  ghost predicate Taken(routes: seq<Route>, be: nat, m: Matrix, x: seq<real>)
    requires m.Valid()
  {
    Routed(routes, be, m.Npix(), Trace(m), x)
  }

  /** The rows of a padded layout are the map of m to bin b, walked either way. */
  ghost predicate RowMap(rows: Padded.Layout, m: Matrix, b: nat)
    requires m.Valid()
  {
    && Padded.Spans(rows, m.Npix())
    && (forall y: seq<real> :: Powder(Padded.DenseTrace(rows, |rows.rowPtr| - 1), y, b) == Powder(Trace(m), y, b))
    && (forall y: seq<real> :: Powder(Padded.SparseTrace(rows, m.Npix()), y, b) == Powder(Trace(m), y, b))
  }

  /** The bins of a bsb-csr layout are the map of m to bin b, and index their block. */
  ghost predicate BinMap(q: BlockCsr.Layout, m: Matrix, be: nat, b: nat)
    requires m.Valid()
  {
    && be >= 1 && q.blockElems == be && BlockCsr.Readable(q) && |q.blkPtr| == Blocks(m.Npix(), be) + 1
    && (forall k :: 0 <= k < |q.idx| ==> q.idx[k] < be)
    && (forall y: seq<real> :: Powder(BlockCsr.LayoutTrace(q), y, b) == Powder(Trace(m), y, b))
  }

  /** The block size of a layout that depends on it is that of the decoder. */
  predicate FitsBlocks(l: Layout, be: nat) {
    be >= 1 && (l.blockElems.Some? ==> l.blockElems.value == be)
  }
}
