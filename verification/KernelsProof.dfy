/** Every layout is the same linear map, whatever routes its blocks take. */
module KernelsProof {
  import BlockCsr
  import BlockCsrProof
  import Columns
  import ColumnsProof
  import opened Csc
  import opened Dtypes
  import opened FixedPoint
  import FixedPointSums
  import opened Kernels
  import opened Layouts
  import LayoutsProof
  import opened Numpy
  import Padded
  import PaddedProof
  import opened Product
  import opened Routes
  import RoutesProof

  // ---- the layouts that keep the columns ----------------------------------

  /** The parts are the columns of m. */
  ghost predicate AreColumns(parts: seq<seq<Add>>, m: Matrix)
    requires m.Valid()
  {
    |parts| == m.Npix() && forall p :: 0 <= p < |parts| ==> parts[p] == Column(m, p)
  }

  lemma {:induction false} FlatColumns(parts: seq<seq<Add>>, m: Matrix, n: nat)
    requires m.Valid() && AreColumns(parts, m) && n <= m.Npix()
    ensures Flat(parts[..n]) == TraceTo(m, n)
  {
    if n > 0 {
      FlatColumns(parts, m, n - 1);
      assert parts[..n][..n - 1] == parts[..n - 1];
    }
  }

  lemma PixelsOfTrace(m: Matrix)
    requires m.Valid()
    ensures forall a :: a in Trace(m) ==> a.pix < m.Npix() && m.Count(a.pix) > 0
  {
    TraceAt(m);
    forall a | a in Trace(m) ensures a.pix < m.Npix() && m.Count(a.pix) > 0 {
      var k :| 0 <= k < |Trace(m)| && Trace(m)[k] == a;
      PixAt(m, k);
    }
  }

  /** A kernel that reads the columns of m, pixel by pixel, is the map of m. */
  lemma ColumnParts(dense: seq<seq<Add>>, sparse: seq<seq<Add>>, m: Matrix, be: nat, b: nat)
    requires m.Valid() && AreColumns(sparse, m) && be >= 1 && |dense| == Blocks(m.Npix(), be)
    requires forall j :: 0 <= j < |dense| ==> dense[j] == Picked(sparse, BlockPixels(j, be, m.Npix()))
    ensures Parts(dense, sparse, be, m.Npix(), Trace(m), b)
  {
    var npix := m.Npix();
    FlatColumns(sparse, m, npix);
    assert sparse[..npix] == sparse;
    RoutesProof.FlatBlocks(dense, sparse, be, |dense|, |dense| * be);
    BlocksCover(npix, be);
    assert dense[..|dense|] == dense;
    PixelsOfTrace(m);
    forall j | 0 <= j < |dense| ensures InBlock(dense[j], j, be) {
      RoutesProof.BlockPixelsIn(j, be, npix);
      RoutesProof.PickedInBlock(sparse, BlockPixels(j, be, npix), j, be);
    }
  }

  lemma RunParts(m: Matrix, l: Layout, starts: seq<nat>)
    requires m.Valid() && Columns.RunStarts(m) == Success(starts) && l.nout == m.nbins
    requires l.dot == CscRun && l.args == CscArgs(m.data, starts, m.indptr)
    ensures AreColumns(SparseParts(l, m.Npix()), m)
  {
    ColumnsProof.RunStartsAccepts(m);
    forall p | 0 <= p < m.Npix() ensures SparsePart(l, p) == Column(m, p) {
      ColumnsProof.RunColumnIs(m, starts, p);
    }
  }

  /** The histogram reading of a dot, flat or nested in bsb-csr. */
  lemma HistogramParts(m: Matrix, l: Layout, bins: seq<nat>)
    requires m.Valid() && Columns.NosplitBins(m) == Success(bins) && Unmarked(m)
    requires l.dot == CscNosplit || l.dot == CscNosplitInt || l.dot == BsbCsrNosplit
    requires (l.args.CscArgs? || l.args.BsbArgs?) && l.args.indices == bins
    ensures AreColumns(SparseParts(l, m.Npix()), m)
  {
    ColumnsProof.NosplitAccepts(m);
    forall p | 0 <= p < m.Npix() ensures SparsePart(l, p) == Column(m, p) {
      ColumnsProof.HistogramColumnIs(m, bins, p);
    }
  }

  lemma CscParts(m: Matrix, l: Layout)
    requires m.Valid() && l.nout == m.nbins && (l.dot == CscDot || l.dot == BsbCsr)
    requires (l.args.CscArgs? || l.args.BsbArgs?) && l.args.data == m.data && l.args.indices == m.indices && l.args.indptr == m.indptr
    ensures AreColumns(SparseParts(l, m.Npix()), m)
  {
    assert Matrix(m.data, m.indices, m.indptr, m.nbins) == m;
  }

  // ---- the block layouts --------------------------------------------------

  lemma {:induction false} FlatSparseRows(rows: Padded.Layout, parts: seq<seq<Add>>, n: nat)
    requires Padded.Spans(rows, |parts|) && n <= |parts|
    requires forall p :: 0 <= p < |parts| ==> parts[p] == Padded.SparseRow(rows, p)
    ensures Flat(parts[..n]) == Padded.SparseTrace(rows, n)
  {
    if n > 0 {
      FlatSparseRows(rows, parts, n - 1);
      RoutesProof.FlatNext(parts, n - 1);
    }
  }

  lemma {:induction false} FlatDenseRows(rows: Padded.Layout, parts: seq<seq<Add>>, n: nat)
    requires Padded.Readable(rows) && n <= |parts| < |rows.rowPtr|
    requires forall j :: 0 <= j < |parts| ==> parts[j] == Padded.RowsTrace(rows, rows.rowPtr[j], rows.rowPtr[j + 1])
    ensures Flat(parts[..n]) == Padded.DenseTrace(rows, n)
  {
    if n > 0 {
      FlatDenseRows(rows, parts, n - 1);
      RoutesProof.FlatNext(parts, n - 1);
    }
  }

  lemma {:induction false} FlatBins(q: BlockCsr.Layout, parts: seq<seq<Add>>, n: nat)
    requires BlockCsr.Readable(q) && n <= |parts| < |q.blkPtr|
    requires forall j :: 0 <= j < |parts| ==> parts[j] == BlockCsr.GroupsTrace(q, j, q.blkPtr[j], q.blkPtr[j + 1])
    ensures Flat(parts[..n]) == BlockCsr.BlocksTrace(q, n)
  {
    if n > 0 {
      FlatBins(q, parts, n - 1);
      RoutesProof.FlatNext(parts, n - 1);
    }
  }

  /** The rows of a block read its pixels. */
  lemma {:induction false} RowsInBlock(rows: Padded.Layout, j: nat, be: nat, lo: nat, hi: nat)
    requires Padded.Readable(rows) && hi <= |rows.base| && be >= 1
    requires forall r :: lo <= r < hi ==> Padded.RowPixel(rows, r) / be == j
    ensures InBlock(Padded.RowsTrace(rows, lo, hi), j, be)
  {
    if lo < hi { RowsInBlock(rows, j, be, lo, hi - 1); }
  }

  lemma BlockOfRow(rows: Padded.Layout, npix: nat, j: nat, r: nat)
    requires Padded.BlocksSplit(rows, npix) && j + 1 < |rows.rowPtr| && rows.rowPtr[j] <= r < rows.rowPtr[j + 1]
    ensures Padded.RowPixel(rows, r) / rows.blockElems == j
  {
    var p := Padded.RowPixel(rows, r);
    BlockBounds(p, j, rows.blockElems);
    BlockBounds(p, j + 1, rows.blockElems);
  }

  lemma {:induction false} GroupInBlock(q: BlockCsr.Layout, j: nat, g: nat, lo: nat, hi: nat)
    requires BlockCsr.Readable(q) && g < |q.bins| && hi <= |q.data| && q.blockElems >= 1
    requires forall k :: 0 <= k < |q.idx| ==> q.idx[k] < q.blockElems
    ensures InBlock(BlockCsr.GroupTrace(q, j, g, lo, hi), j, q.blockElems)
  {
    if lo < hi {
      GroupInBlock(q, j, g, lo, hi - 1);
      RoutesProof.OfBlock(j * q.blockElems + q.idx[hi - 1], j, q.blockElems);
    }
  }

  lemma {:induction false} GroupsInBlock(q: BlockCsr.Layout, j: nat, lo: nat, hi: nat)
    requires BlockCsr.Readable(q) && hi <= |q.bins| && q.blockElems >= 1
    requires forall k :: 0 <= k < |q.idx| ==> q.idx[k] < q.blockElems
    ensures InBlock(BlockCsr.GroupsTrace(q, j, lo, hi), j, q.blockElems)
  {
    if lo < hi {
      GroupsInBlock(q, j, lo, hi - 1);
      GroupInBlock(q, j, hi - 1, q.binPtr[hi - 1], q.binPtr[hi]);
    }
  }

  lemma DenseRowsIn(rows: Padded.Layout, npix: nat, parts: seq<seq<Add>>, be: nat)
    requires Padded.BlocksSplit(rows, npix) && rows.blockElems == be && |parts| == Blocks(npix, be)
    requires forall j :: 0 <= j < |parts| ==> parts[j] == Padded.RowsTrace(rows, rows.rowPtr[j], rows.rowPtr[j + 1])
    ensures forall j :: 0 <= j < |parts| ==> InBlock(parts[j], j, be)
  {
    forall j | 0 <= j < |parts| ensures InBlock(parts[j], j, be) {
      forall r | rows.rowPtr[j] <= r < rows.rowPtr[j + 1] ensures Padded.RowPixel(rows, r) / be == j {
        BlockOfRow(rows, npix, j, r);
      }
      RowsInBlock(rows, j, be, rows.rowPtr[j], rows.rowPtr[j + 1]);
    }
  }

  /** The padded parts, given what they are. */
  lemma RowParts(m: Matrix, be: nat, rows: Padded.Layout, dense: seq<seq<Add>>, sparse: seq<seq<Add>>, b: nat)
    requires m.Valid() && RowMap(rows, m, b) && Padded.BlocksSplit(rows, m.Npix()) && rows.blockElems == be
    requires |dense| == Blocks(m.Npix(), be) && |sparse| == m.Npix()
    requires forall j :: 0 <= j < |dense| ==> dense[j] == Padded.RowsTrace(rows, rows.rowPtr[j], rows.rowPtr[j + 1])
    requires forall p :: 0 <= p < |sparse| ==> sparse[p] == Padded.SparseRow(rows, p)
    ensures Parts(dense, sparse, be, m.Npix(), Trace(m), b)
  {
    PixelsOfTrace(m);
    DenseRowsIn(rows, m.Npix(), dense, be);
    RowsAreMap(m, rows, dense, sparse, b);
  }

  lemma RowsAreMap(m: Matrix, rows: Padded.Layout, dense: seq<seq<Add>>, sparse: seq<seq<Add>>, b: nat)
    requires m.Valid() && RowMap(rows, m, b) && |dense| + 1 == |rows.rowPtr| && |sparse| == m.Npix()
    requires forall j :: 0 <= j < |dense| ==> dense[j] == Padded.RowsTrace(rows, rows.rowPtr[j], rows.rowPtr[j + 1])
    requires forall p :: 0 <= p < |sparse| ==> sparse[p] == Padded.SparseRow(rows, p)
    ensures SameMap(dense, Trace(m), b) && SameMap(sparse, Trace(m), b)
  {
    FlatDenseRows(rows, dense, |dense|);
    FlatSparseRows(rows, sparse, |sparse|);
    assert dense[..|dense|] == dense && sparse[..|sparse|] == sparse;
  }

  lemma PaddedMap(m: Matrix, be: nat, rows: Padded.Layout, b: nat)
    requires m.Valid() && be >= 1 && Padded.FromCsc(m, be) == Success(rows)
    ensures RowMap(rows, m, b)
  {
    PaddedProof.FromCscTrace(m, be, rows);
    forall y: seq<real>
      ensures Powder(Padded.DenseTrace(rows, |rows.rowPtr| - 1), y, b) == Powder(Trace(m), y, b)
      ensures Powder(Padded.SparseTrace(rows, m.Npix()), y, b) == Powder(Trace(m), y, b)
    {
      PaddedProof.AgreePowder(rows, m, y, b);
    }
  }

  lemma PaddedSplit(m: Matrix, be: nat, rows: Padded.Layout)
    requires m.Valid() && be >= 1 && Padded.FromCsc(m, be) == Success(rows)
    ensures Padded.BlocksSplit(rows, m.Npix()) && rows.blockElems == be
  {
    PaddedProof.FromCscWellFormed(m, be);
  }

  lemma LayoutRowParts(m: Matrix, be: nat, rows: Padded.Layout, l: Layout, b: nat)
    requires m.Valid() && RowMap(rows, m, b) && Padded.BlocksSplit(rows, m.Npix()) && rows.blockElems == be
    requires l.args == PaddedArgs(rows)
    ensures Parts(DenseParts(l, be, m.Npix()), SparseParts(l, m.Npix()), be, m.Npix(), Trace(m), b)
  {
    RowParts(m, be, rows, DenseParts(l, be, m.Npix()), SparseParts(l, m.Npix()), b);
  }

  lemma PaddedParts(m: Matrix, be: nat, rows: Padded.Layout, l: Layout, b: nat)
    requires m.Valid() && be >= 1 && Padded.FromCsc(m, be) == Success(rows) && l.args == PaddedArgs(rows)
    ensures Parts(DenseParts(l, be, m.Npix()), SparseParts(l, m.Npix()), be, m.Npix(), Trace(m), b)
  {
    PaddedSplit(m, be, rows);
    PaddedMap(m, be, rows, b);
    LayoutRowParts(m, be, rows, l, b);
  }

  lemma FlatMap(parts: seq<seq<Add>>, m: Matrix, b: nat)
    requires m.Valid() && AreColumns(parts, m)
    ensures SameMap(parts, Trace(m), b)
  {
    FlatColumns(parts, m, |parts|);
    assert parts[..|parts|] == parts;
  }

  /** The bsb-csr parts, given what they are. */
  lemma BinParts(m: Matrix, be: nat, q: BlockCsr.Layout, dense: seq<seq<Add>>, sparse: seq<seq<Add>>, b: nat)
    requires m.Valid() && BinMap(q, m, be, b) && |dense| == Blocks(m.Npix(), be) && AreColumns(sparse, m)
    requires forall j :: 0 <= j < |dense| ==> dense[j] == BlockCsr.GroupsTrace(q, j, q.blkPtr[j], q.blkPtr[j + 1])
    ensures Parts(dense, sparse, be, m.Npix(), Trace(m), b)
  {
    PixelsOfTrace(m);
    FlatMap(sparse, m, b);
    FlatBins(q, dense, |dense|);
    assert dense[..|dense|] == dense;
    forall j | 0 <= j < |dense| ensures InBlock(dense[j], j, be) {
      GroupsInBlock(q, j, q.blkPtr[j], q.blkPtr[j + 1]);
    }
  }

  lemma BsbMap(m: Matrix, be: nat, q: BlockCsr.Layout, b: nat)
    requires m.Valid() && 1 <= be <= BlockCsr.MAX_BLOCK_ELEMS && q == BlockCsr.FromCsc(m, be)
    ensures BinMap(q, m, be, b)
  {
    BlockCsrProof.FromCscTrace(m, be);
    assert BlockCsr.WellFormed(q, m.nbins, m.Npix());
    forall y: seq<real> ensures Powder(BlockCsr.LayoutTrace(q), y, b) == Powder(Trace(m), y, b) {
      PowderPermutation(BlockCsr.LayoutTrace(q), Trace(m), y, b);
    }
  }

  lemma BsbParts(m: Matrix, be: nat, q: BlockCsr.Layout, l: Layout, b: nat)
    requires m.Valid() && BinMap(q, m, be, b) && l.args.BsbArgs?
    requires BlocksOf(l) == q && AreColumns(SparseParts(l, m.Npix()), m)
    ensures Parts(DenseParts(l, be, m.Npix()), SparseParts(l, m.Npix()), be, m.Npix(), Trace(m), b)
  {
    BinParts(m, be, q, DenseParts(l, be, m.Npix()), SparseParts(l, m.Npix()), b);
  }

  /** A histogram's weights are the ones the nosplit kernel takes them to be. */
  lemma UnitBlocks(m: Matrix, be: nat)
    requires m.Valid() && 1 <= be <= BlockCsr.MAX_BLOCK_ELEMS
    requires forall k :: 0 <= k < |m.data| ==> m.data[k] == 1.0
    ensures BlockCsr.FromCsc(m, be).data == seq(|BlockCsr.FromCsc(m, be).data|, _ => 1.0)
  {
    var l := BlockCsr.FromCsc(m, be);
    if |m.indices| > 0 {
      var s := BlockCsr.Sort(BlockCsr.Entries(m), be);
      forall k | 0 <= k < |l.data| ensures l.data[k] == 1.0 {
        assert s[k] in multiset(BlockCsr.Entries(m));
      }
    }
  }

  lemma NosplitBlocks(m: Matrix, be: nat, l: Layout)
    requires m.Valid() && 1 <= be <= BlockCsr.MAX_BLOCK_ELEMS && Columns.NosplitBins(m).Success?
    requires l.dot == BsbCsrNosplit && l.args.BsbArgs? && l.args.blocks == BlockCsr.FromCsc(m, be)
    ensures BlocksOf(l) == BlockCsr.FromCsc(m, be)
  {
    ColumnsProof.NosplitAccepts(m);
    UnitBlocks(m, be);
  }

  // ---- every float dot ----------------------------------------------------

  lemma ListedParts(m: Matrix, l: Layout, be: nat, b: nat)
    requires m.Valid() && be >= 1 && AreColumns(SparseParts(l, m.Npix()), m) && (l.args.CscArgs? || l.args.IntArgs?)
    ensures Parts(DenseParts(l, be, m.Npix()), SparseParts(l, m.Npix()), be, m.Npix(), Trace(m), b)
  {
    ColumnParts(DenseParts(l, be, m.Npix()), SparseParts(l, m.Npix()), m, be, b);
  }

  lemma FlatDotColumns(dot: Dot, m: Matrix, l: Layout)
    requires m.Valid() && Build(dot, m, 0, U16, None) == Success(l) && (MarksEmpty(dot) ==> Unmarked(m))
    requires !IsBlockDot(dot) && !IsIntDot(dot) && dot != CscPermute
    ensures l.args.CscArgs? && AreColumns(SparseParts(l, m.Npix()), m)
  {
    if dot == CscDot {
      CscParts(m, l);
    } else if dot == CscRun {
      RunParts(m, l, Columns.RunStarts(m).value);
    } else {
      HistogramParts(m, l, Columns.NosplitBins(m).value);
    }
  }

  lemma BsbColumns(dot: Dot, m: Matrix, be: nat, l: Layout)
    requires m.Valid() && BuildBsb(dot, m, be) == Success(l) && (MarksEmpty(dot) ==> Unmarked(m))
    requires dot == BsbCsr || dot == BsbCsrNosplit
    ensures 1 <= be <= BlockCsr.MAX_BLOCK_ELEMS && l.args.BsbArgs? && BlocksOf(l) == BlockCsr.FromCsc(m, be)
    ensures AreColumns(SparseParts(l, m.Npix()), m)
  {
    if dot == BsbCsr {
      CscParts(m, l);
    } else {
      NosplitBlocks(m, be, l);
      HistogramParts(m, l, Columns.NosplitBins(m).value);
    }
  }

  /** The kernel of every float dot but csc-permute falls into parts that are the map
      of the matrix. */
  lemma BuiltParts(dot: Dot, m: Matrix, be: nat, dtype: Dtype, l: Layout, fe: nat, b: nat)
    requires m.Valid() && Build(dot, m, be, dtype, None) == Success(l) && FitsBlocks(l, fe)
    requires dot != CscPermute && (MarksEmpty(dot) ==> Unmarked(m))
    ensures Parts(DenseParts(l, fe, m.Npix()), SparseParts(l, m.Npix()), fe, m.Npix(), Trace(m), b)
  {
    LayoutsProof.BuildNames(dot, m, be, dtype, None, l);
    if dot == PaddedDot || dot == PaddedAvx2 {
      PaddedParts(m, fe, l.args.rows, l, b);
    } else if dot == BsbCsr || dot == BsbCsrNosplit {
      BsbColumns(dot, m, fe, l);
      BsbMap(m, fe, BlocksOf(l), b);
      BsbParts(m, fe, BlocksOf(l), l, b);
    } else {
      LayoutsProof.BuildReadsItsKey(dot, m, be, 0, dtype, U16, None);
      FlatDotColumns(dot, m, l);
      ListedParts(m, l, fe, b);
    }
  }

  /** Every pixel with a value and a bin is visited. */
  lemma VisitsAll(m: Matrix, x: seq<real>, be: nat, routes: seq<Route>, q: nat)
    requires m.Valid() && be >= 1 && Taken(routes, be, m, x) && q < m.Npix() && m.Count(q) > 0 && Pixel(x, q) != 0.0
    ensures q in Visited(routes, be, m.Npix())
  {
    var j := q / be;
    BlockOfPixel(q, m.Npix(), be);
    var a := PixelInTrace(m, q);
    if routes[j].Dense? {
      var i := q - j * be;
      assert BlockPixels(j, be, m.Npix())[i] == q;
    }
    VisitsBlock(routes, be, m.Npix(), j, q);
  }

  lemma PixelInTrace(m: Matrix, q: nat) returns (a: Add)
    requires m.Valid() && q < m.Npix() && m.Count(q) > 0
    ensures a in Trace(m) && a.pix == q
  {
    var k := m.indptr[q];
    PixOfColumn(m, q, k);
    TraceAt(m);
    a := Trace(m)[k];
  }

  lemma {:induction false} VisitsBlock(routes: seq<Route>, be: nat, npix: nat, j: nat, q: nat)
    requires j < |routes| && q in if routes[j].Dense? then BlockPixels(j, be, npix) else routes[j].list
    ensures q in Visited(routes, be, npix)
  {
    if j < |routes| - 1 { VisitsBlock(routes[..|routes| - 1], be, npix, j, q); }
  }

  /** Every layout that build accepts computes the product of the matrix: every float
      dot, every frame, every bin, every choice of route per block with lists that hold
      at least the non-zero pixels that reach a bin. */
  lemma BuildIsProduct(dot: Dot, m: Matrix, be: nat, dtype: Dtype, l: Layout, fe: nat, routes: seq<Route>, x: seq<real>, b: nat)
    requires m.Valid() && Build(dot, m, be, dtype, None) == Success(l) && b < m.nbins
    requires MarksEmpty(dot) ==> Unmarked(m)
    requires FitsBlocks(l, fe) && Taken(routes, fe, m, x)
    ensures KernelPowder(l, fe, m.Npix(), routes, x, b) == Powder(Trace(m), x, b)
  {
    LayoutsProof.BuildNames(dot, m, be, dtype, None, l);
    if dot == CscPermute {
      PermutePowder(m, dtype, l, fe, routes, x, b);
    } else {
      BuiltParts(dot, m, be, dtype, l, fe, b);
      RoutesProof.MixedIsPowder(DenseParts(l, fe, m.Npix()), SparseParts(l, m.Npix()), fe, m.Npix(), Trace(m), x, b, routes);
    }
  }

  lemma PermutePowder(m: Matrix, dtype: Dtype, l: Layout, be: nat, routes: seq<Route>, x: seq<real>, b: nat)
    requires m.Valid() && BuildPermute(m, dtype) == Success(l) && Unmarked(m) && b < m.nbins
    requires be >= 1 && Taken(routes, be, m, x)
    ensures KernelPowder(l, be, m.Npix(), routes, x, b) == Powder(Trace(m), x, b)
  {
    forall q | 0 <= q < m.Npix() && m.Count(q) > 0 && Pixel(x, q) != 0.0 ensures q in Visited(routes, be, m.Npix()) {
      VisitsAll(m, x, be, routes, q);
    }
    ColumnsProof.PermuteIsProduct(m, x, Visited(routes, be, m.Npix()), b);
  }

  /** From the matrix and the mask the user gives to the powder: the layout of the
      folded matrix computes the product of the raw matrix on the masked frame. */
  lemma MaskedBuildIsProduct(dot: Dot, m: Matrix, mask: seq<nat>, f: Matrix, be: nat, dtype: Dtype, l: Layout,
                             fe: nat, routes: seq<Route>, x: seq<real>, b: nat)
    requires m.Valid() && FoldMask(m, mask) == Success(f) && f.Valid() && b < m.nbins
    requires Build(dot, f, be, dtype, None) == Success(l) && (MarksEmpty(dot) ==> Unmarked(f))
    requires FitsBlocks(l, fe) && Taken(routes, fe, f, x)
    ensures KernelPowder(l, fe, m.Npix(), routes, x, b) == Powder(Trace(m), MaskedFrame(x, mask), b)
  {
    FoldMaskColumns(m, mask);
    BuildIsProduct(dot, f, be, dtype, l, fe, routes, x, b);
    FoldMaskPowder(m, mask, x, b);
  }

  // ---- the integer dots ---------------------------------------------------

  /** The matrix with integer weights. */
  function WithWeights(m: Matrix, q: seq<int>): Matrix {
    m.(data := Reals(q))
  }

  lemma WeightsValid(m: Matrix, q: seq<int>)
    requires m.Valid() && |q| == |m.indices|
    ensures WithWeights(m, q).Valid() && WithWeights(m, q).Npix() == m.Npix()
    ensures Columns.IsRuns(m) ==> Columns.IsRuns(WithWeights(m, q))
    ensures Pix(WithWeights(m, q)) == Pix(m)
  {
    var w := WithWeights(m, q);
    assert w.Valid() && Counts(w) == Counts(m);
    if Columns.IsRuns(m) {
      forall p, i | 0 <= p < w.Npix() && 0 <= i < w.Count(p) ensures Columns.InRun(w, p, i) {
        assert Columns.InRun(m, p, i);
      }
    }
  }

  lemma IntRunColumn(m: Matrix, q: seq<int>, starts: seq<nat>, p: nat)
    requires m.Valid() && |q| == |m.indices| && Columns.RunStarts(m) == Success(starts) && WithWeights(m, q).Valid() && p < m.Npix()
    ensures |starts| == m.Npix() && Columns.RunColumn(Reals(q), starts, m.indptr, p) == Column(WithWeights(m, q), p)
  {
    var w := WithWeights(m, q);
    WeightsValid(m, q);
    ColumnsProof.RunStartsAccepts(m);
    assert w.Count(p) == m.Count(p);
    ColumnsProof.RunColumnIs(w, starts, p);
  }

  lemma IntRunColumns(m: Matrix, q: seq<int>, starts: seq<nat>, l: Layout)
    requires m.Valid() && |q| == |m.indices| && Columns.RunStarts(m) == Success(starts) && l.nout == m.nbins
    requires (l.dot == CscRunInt || l.dot == CscRunInt16) && l.args == IntArgs(q, starts, m.indptr)
    ensures WithWeights(m, q).Valid() && AreColumns(SparseParts(l, m.Npix()), WithWeights(m, q))
  {
    var w := WithWeights(m, q);
    WeightsValid(m, q);
    forall p | 0 <= p < m.Npix() ensures SparsePart(l, p) == Column(w, p) {
      IntRunColumn(m, q, starts, p);
    }
  }

  /** Every integer layout reads the columns of the integer matrix. */
  lemma IntColumns(dot: Dot, m: Matrix, be: nat, dtype: Dtype, fixed: Fixed, l: Layout)
    requires m.Valid() && IsIntDot(dot) && |fixed.data| == |m.indices|
    requires Build(dot, m, be, dtype, Some(fixed)) == Success(l)
    ensures l.args.IntArgs? && WithWeights(m, fixed.data).Valid()
    ensures AreColumns(SparseParts(l, m.Npix()), WithWeights(m, fixed.data))
  {
    WeightsValid(m, fixed.data);
    if dot == CscInt {
      assert Matrix(Reals(fixed.data), m.indices, m.indptr, m.nbins) == WithWeights(m, fixed.data);
    } else {
      IntRunColumns(m, fixed.data, Columns.RunStarts(m).value, l);
    }
  }

  ghost predicate Integral(t: seq<Add>) {
    forall a :: a in t ==> a.w == a.w.Floor as real
  }

  /** The exact sum that the kernel keeps modulo 2^64. */
  function IntPowder(t: seq<Add>, x: seq<int>, b: nat): int {
    if t == [] then 0
    else
      var a := t[|t| - 1];
      IntPowder(t[..|t| - 1], x, b) + if a.bin == b then a.w.Floor * PixelInt(x, a.pix) else 0
  }

  lemma RealProduct(a: int, b: int)
    ensures (a * b) as real == a as real * b as real
  {
  }

  lemma {:induction false} IntPowderIs(t: seq<Add>, x: seq<int>, b: nat)
    requires Integral(t)
    ensures IntPowder(t, x, b) as real == Powder(t, Reals(x), b)
  {
    if t != [] {
      var a := t[|t| - 1];
      assert a in t;
      IntPowderIs(t[..|t| - 1], x, b);
      RealProduct(a.w.Floor, PixelInt(x, a.pix));
    }
  }

  lemma {:induction false} WrappedIs(t: seq<Add>, x: seq<int>, b: nat)
    ensures WrappedPowder(t, x, b) == IntPowder(t, x, b) % TWO_64
  {
    if t != [] {
      var a := t[|t| - 1];
      WrappedIs(t[..|t| - 1], x, b);
      FixedPointSums.ModStep(IntPowder(t[..|t| - 1], x, b), a.w.Floor, PixelInt(x, a.pix));
    }
  }

  lemma {:induction false} EntriesSum(t: seq<Add>, q: seq<int>, pix: seq<nat>, bins: seq<nat>, x: seq<int>, b: nat, n: nat)
    requires n <= |t| == |q| == |pix| == |bins|
    requires forall k :: 0 <= k < |t| ==> t[k] == Add(bins[k], pix[k], q[k] as real)
    ensures IntPowder(t[..n], x, b) == PartInt(Products(q, pix, x), bins, b, 0, n)
  {
    if n > 0 {
      EntriesSum(t, q, pix, bins, x, b, n - 1);
      assert t[..n][..n - 1] == t[..n - 1];
      assert t[..n][n - 1].w.Floor == q[n - 1];
    }
  }

  lemma EntryOf(m: Matrix, q: seq<int>, k: nat)
    requires m.Valid() && |q| == |m.indices| && WithWeights(m, q).Valid() && k < |q|
    ensures |Trace(WithWeights(m, q))| == |q| == |Pix(m)|
    ensures Trace(WithWeights(m, q))[k] == Add(m.indices[k], Pix(m)[k], q[k] as real)
  {
    WeightsValid(m, q);
    TraceAt(WithWeights(m, q));
  }

  lemma TraceIntegral(m: Matrix, q: seq<int>)
    requires m.Valid() && |q| == |m.indices| && WithWeights(m, q).Valid()
    ensures Integral(Trace(WithWeights(m, q)))
  {
    var t := Trace(WithWeights(m, q));
    TraceAt(WithWeights(m, q));
    forall a | a in t ensures a.w == a.w.Floor as real {
      var k :| 0 <= k < |t| && t[k] == a;
      EntryOf(m, q, k);
    }
  }

  lemma SumOfTrace(t: seq<Add>, m: Matrix, q: seq<int>, x: seq<int>, b: nat)
    requires m.Valid() && Integral(t) && |t| == |q| == |m.indices| == |Pix(m)|
    requires forall k :: 0 <= k < |t| ==> t[k] == Add(m.indices[k], Pix(m)[k], q[k] as real)
    ensures Powder(t, Reals(x), b) == BinSum(m, q, x, b) as real
  {
    EntriesSum(t, q, Pix(m), m.indices, x, b, |q|);
    assert t[..|q|] == t;
    IntPowderIs(t, x, b);
  }

  /** The exact powder of the integer matrix is the sum of weight times pixel. */
  lemma ExactIsBinSum(m: Matrix, q: seq<int>, x: seq<int>, b: nat)
    requires m.Valid() && |q| == |m.indices| && WithWeights(m, q).Valid()
    ensures Powder(Trace(WithWeights(m, q)), Reals(x), b) == BinSum(m, q, x, b) as real
  {
    var t := Trace(WithWeights(m, q));
    TraceAt(m);
    TraceAt(WithWeights(m, q));
    forall k | 0 <= k < |t| ensures t[k] == Add(m.indices[k], Pix(m)[k], q[k] as real) { EntryOf(m, q, k); }
    TraceIntegral(m, q);
    SumOfTrace(t, m, q, x, b);
  }

  lemma {:induction false} PickedIntegral(sparse: seq<seq<Add>>, list: seq<nat>)
    requires forall p :: 0 <= p < |sparse| ==> Integral(sparse[p])
    ensures Integral(Picked(sparse, list))
  {
    if list != [] { PickedIntegral(sparse, list[..|list| - 1]); }
  }

  lemma {:induction false} MixedIntegral(dense: seq<seq<Add>>, sparse: seq<seq<Add>>, routes: seq<Route>)
    requires |routes| <= |dense|
    requires forall p :: 0 <= p < |sparse| ==> Integral(sparse[p])
    requires forall j :: 0 <= j < |dense| ==> Integral(dense[j])
    ensures Integral(Mixed(dense, sparse, routes))
  {
    if routes != [] {
      var j := |routes| - 1;
      MixedIntegral(dense, sparse, routes[..j]);
      if routes[j].Sparse? { PickedIntegral(sparse, routes[j].list); }
    }
  }

  lemma ColumnsIntegral(m: Matrix, q: seq<int>, parts: seq<seq<Add>>)
    requires m.Valid() && |q| == |m.indices| && WithWeights(m, q).Valid() && AreColumns(parts, WithWeights(m, q))
    ensures forall p :: 0 <= p < |parts| ==> Integral(parts[p])
  {
    var w := WithWeights(m, q);
    forall p | 0 <= p < |parts| ensures Integral(parts[p]) {
      assert w.indptr[p + 1] <= w.indptr[w.Npix()];
      forall a | a in Column(w, p) ensures a.w == a.w.Floor as real {
        var i :| 0 <= i < w.Count(p) && Column(w, p)[i] == a;
        assert a.w == q[w.indptr[p] + i] as real;
      }
    }
  }

  lemma FrameIntegral(l: Layout, be: nat, npix: nat, routes: seq<Route>)
    requires be >= 1 && (l.args.IntArgs? || l.args.CscArgs?)
    requires forall p :: 0 <= p < npix ==> Integral(SparseParts(l, npix)[p])
    ensures Integral(FrameTrace(l, be, npix, routes))
  {
    var dense, sparse := DenseParts(l, be, npix), SparseParts(l, npix);
    forall j | 0 <= j < |dense| ensures Integral(dense[j]) {
      PickedIntegral(sparse, BlockPixels(j, be, npix));
    }
    if |routes| <= |dense| { MixedIntegral(dense, sparse, routes); }
  }

  /** The exact sum of a frame's additions is the bin sum. */
  lemma FrameSum(m: Matrix, q: seq<int>, l: Layout, be: nat, routes: seq<Route>, x: seq<int>, b: nat)
    requires m.Valid() && |q| == |m.indices| && WithWeights(m, q).Valid() && be >= 1 && l.args.IntArgs?
    requires AreColumns(SparseParts(l, m.Npix()), WithWeights(m, q)) && Taken(routes, be, WithWeights(m, q), Reals(x))
    ensures IntPowder(FrameTrace(l, be, m.Npix(), routes), x, b) == BinSum(m, q, x, b)
  {
    var w := WithWeights(m, q);
    ListedParts(w, l, be, b);
    RoutesProof.MixedIsPowder(DenseParts(l, be, m.Npix()), SparseParts(l, m.Npix()), be, m.Npix(), Trace(w), Reals(x), b, routes);
    ColumnsIntegral(m, q, SparseParts(l, m.Npix()));
    FrameIntegral(l, be, m.Npix(), routes);
    IntPowderIs(FrameTrace(l, be, m.Npix(), routes), x, b);
    ExactIsBinSum(m, q, x, b);
  }

  /** The integer dots, bins stored per entry or counted up from the start of a run,
      every frame and every choice of routes: what the wrapping accumulation leaves in a
      bin is the exact sum of weight times pixel if and only if that is an int64; the
      layout says the scale of those sums and their type. */
  lemma BuildIntIsSum(dot: Dot, m: Matrix, be: nat, dtype: Dtype, fixed: Fixed, l: Layout, fe: nat, routes: seq<Route>, x: seq<int>, b: nat)
    requires m.Valid() && IsIntDot(dot) && |fixed.data| == |m.indices|
    requires Build(dot, m, be, dtype, Some(fixed)) == Success(l)
    requires fe >= 1 && WithWeights(m, fixed.data).Valid() && Taken(routes, fe, WithWeights(m, fixed.data), Reals(x))
    ensures KernelSum(l, fe, m.Npix(), routes, x, b) == BinSum(m, fixed.data, x, b)
            <==> -TWO_63 <= BinSum(m, fixed.data, x, b) < TWO_63
    ensures l.scale == Some(fixed.scale) && l.powder == Int64
  {
    IntColumns(dot, m, be, dtype, fixed, l);
    LayoutsProof.BuildMeasures(dot, m, be, dtype, Some(fixed), l);
    FrameSum(m, fixed.data, l, fe, routes, x, b);
    WrappedIs(FrameTrace(l, fe, m.Npix(), routes), x, b);
    FixedPointSums.Int64Back(BinSum(m, fixed.data, x, b));
  }

  // ---- csc-nosplit-int ----------------------------------------------------

  const PIXEL_MAX: int := 0x1_0000_0000
  const FRAME_MAX: int := 0x8000_0000

  predicate Narrow(x: seq<int>) {
    forall p :: 0 <= p < |x| ==> -PIXEL_MAX <= x[p] <= PIXEL_MAX
  }

  lemma {:induction false} UnitSum(t: seq<Add>, x: seq<int>, b: nat)
    requires Narrow(x) && forall a :: a in t ==> a.w == 1.0
    ensures -PIXEL_MAX * |t| <= IntPowder(t, x, b) <= PIXEL_MAX * |t|
  {
    if t != [] {
      assert t[|t| - 1] in t && (1.0).Floor == 1;
      UnitSum(t[..|t| - 1], x, b);
    }
  }

  lemma UnitTrace(m: Matrix)
    requires m.Valid() && Columns.IsHistogram(m)
    ensures (forall a :: a in Trace(m) ==> a.w == 1.0) && Integral(Trace(m)) && |Trace(m)| <= m.Npix()
  {
    TraceAt(m);
    assert (1.0).Floor == 1;
    HistogramLength(m, m.Npix());
  }

  lemma {:induction false} HistogramLength(m: Matrix, p: nat)
    requires m.Valid() && Columns.IsHistogram(m) && p <= m.Npix()
    ensures m.indptr[p] <= p
  {
    if p > 0 {
      HistogramLength(m, p - 1);
      assert m.Count(p - 1) <= 1;
    }
  }

  lemma UnitParts(m: Matrix, parts: seq<seq<Add>>)
    requires m.Valid() && Columns.IsHistogram(m) && AreColumns(parts, m)
    ensures forall p :: 0 <= p < |parts| ==> Integral(parts[p])
  {
    assert (1.0).Floor == 1;
    forall p | 0 <= p < |parts| ensures Integral(parts[p]) {
      assert m.indptr[p + 1] <= m.indptr[m.Npix()];
    }
  }

  lemma NarrowSum(m: Matrix, x: seq<int>, b: nat)
    requires m.Valid() && Columns.IsHistogram(m) && Narrow(x) && m.Npix() < FRAME_MAX
    ensures IntPowder(Trace(m), x, b) as real == Powder(Trace(m), Reals(x), b)
    ensures -TWO_63 <= IntPowder(Trace(m), x, b) < TWO_63
  {
    UnitTrace(m);
    IntPowderIs(Trace(m), x, b);
    UnitSum(Trace(m), x, b);
  }

  lemma NarrowFrame(m: Matrix, l: Layout, be: nat, routes: seq<Route>, x: seq<int>, b: nat)
    requires m.Valid() && Columns.IsHistogram(m) && be >= 1 && l.args.CscArgs?
    requires AreColumns(SparseParts(l, m.Npix()), m) && Taken(routes, be, m, Reals(x))
    ensures IntPowder(FrameTrace(l, be, m.Npix(), routes), x, b) as real == Powder(Trace(m), Reals(x), b)
  {
    ListedParts(m, l, be, b);
    RoutesProof.MixedIsPowder(DenseParts(l, be, m.Npix()), SparseParts(l, m.Npix()), be, m.Npix(), Trace(m), Reals(x), b, routes);
    UnitParts(m, SparseParts(l, m.Npix()));
    FrameIntegral(l, be, m.Npix(), routes);
    IntPowderIs(FrameTrace(l, be, m.Npix(), routes), x, b);
  }

  lemma NosplitIntColumns(m: Matrix, be: nat, dtype: Dtype, l: Layout)
    requires m.Valid() && Build(CscNosplitInt, m, be, dtype, None) == Success(l) && Unmarked(m)
    ensures Columns.IsHistogram(m) && l.args.CscArgs? && AreColumns(SparseParts(l, m.Npix()), m)
  {
    ColumnsProof.NosplitAccepts(m);
    HistogramParts(m, l, Columns.NosplitBins(m).value);
  }

  /** The int64 sums of csc-nosplit-int, for pixels of at most 32 bits and fewer than
      2^31 of them, are the product of the matrix: they cannot wrap. */
  lemma NosplitIntIsExact(m: Matrix, be: nat, dtype: Dtype, l: Layout, fe: nat, routes: seq<Route>, x: seq<int>, b: nat)
    requires m.Valid() && Build(CscNosplitInt, m, be, dtype, None) == Success(l) && Unmarked(m)
    requires fe >= 1 && Taken(routes, fe, m, Reals(x)) && Narrow(x) && m.Npix() < FRAME_MAX
    ensures KernelSum(l, fe, m.Npix(), routes, x, b) as real == Powder(Trace(m), Reals(x), b)
  {
    NosplitIntColumns(m, be, dtype, l);
    NarrowFrame(m, l, fe, routes, x, b);
    NarrowSum(m, x, b);
    SumBack(l, fe, m.Npix(), routes, x, b, IntPowder(Trace(m), x, b));
  }

  /** A sum that is an int64 is what the kernel leaves. */
  lemma SumBack(l: Layout, be: nat, npix: nat, routes: seq<Route>, x: seq<int>, b: nat, v: int)
    requires be >= 1 && IntPowder(FrameTrace(l, be, npix, routes), x, b) == v && -TWO_63 <= v < TWO_63
    ensures KernelSum(l, be, npix, routes, x, b) == v
  {
    WrappedIs(FrameTrace(l, be, npix, routes), x, b);
    FixedPointSums.Int64Back(v);
  }
}
