/**
  The padded layout is the matrix: every weight lands inside its row, every row
  inside the powder and its block, and both kernels perform the additions of the
  csc dot in order, with zero weights between them.
*/
module PaddedProof {
  import opened Columns
  import opened ColumnsProof
  import opened Csc
  import opened Numpy
  import opened Padded
  import opened Product

  // ---- rows fit -----------------------------------------------------------

  lemma RunEnds(m: Matrix, p: nat)
    requires m.Valid() && IsRuns(m) && p < m.Npix() && m.Count(p) > 0
    ensures FirstBin(m, p) + m.Count(p) <= m.nbins
  {
    var last := m.Count(p) - 1;
    assert m.indptr[p] + last < m.indptr[p + 1] <= m.indptr[m.Npix()];
    assert InRun(m, p, last);
    assert m.indices[m.indptr[p] + last] < m.nbins;
  }

  lemma WidthFits(m: Matrix, p: nat)
    requires m.Valid() && IsRuns(m) && p < m.Npix() && m.Count(p) > 0
    ensures Width(m) <= m.nbins
  {
    var n := Counts(m);
    var used := MaxOf(n);
    assert n[p] == m.Count(p) && n[p] <= used;
    var q :| 0 <= q < |n| && n[q] == used;
    assert m.Count(q) == used;
    RunEnds(m, q);
  }

  /** The shifted weights of a pixel lie inside its row, the row inside the powder. */
  lemma RowFits(m: Matrix, w: nat, p: nat)
    requires m.Valid() && IsRuns(m) && p < m.Npix() && m.Count(p) <= w <= m.nbins
    ensures Shift(m, w, p) + m.Count(p) <= w
    ensures Base(m, w, p) + w <= m.nbins
  {
    if m.Count(p) > 0 { RunEnds(m, p); }
  }

  // ---- a row is its column ------------------------------------------------

  lemma WeightedConcat(s: seq<Add>, t: seq<Add>)
    ensures Weighted(s + t) == Weighted(s) + Weighted(t)
  {
    FilterConcat(s, t, (a: Add) => a.w != 0.0);
  }

  lemma WeightedZeros(s: seq<Add>)
    requires forall a :: a in s ==> a.w == 0.0
    ensures Weighted(s) == []
  {
    FilterAll(s, (a: Add) => a.w != 0.0);
  }

  lemma WeightedMiddle(row: seq<Add>, lo: nat, hi: nat)
    requires lo <= hi <= |row|
    requires forall k :: 0 <= k < lo || hi <= k < |row| ==> row[k].w == 0.0
    ensures Weighted(row) == Weighted(row[lo..hi])
  {
    WeightedZeros(row[..lo]);
    WeightedZeros(row[hi..]);
    WeightedConcat(row[..lo], row[lo..hi]);
    WeightedConcat(row[..hi], row[hi..]);
    assert row[..hi] == row[..lo] + row[lo..hi];
    assert row == row[..hi] + row[hi..];
  }

  lemma RowSlice(m: Matrix, w: nat, p: nat)
    requires m.Valid() && IsRuns(m) && p < m.Npix() && 0 < m.Count(p) <= w <= m.nbins
    ensures Shift(m, w, p) + m.Count(p) <= w
    ensures PixelRow(m, w, p)[Shift(m, w, p)..Shift(m, w, p) + m.Count(p)] == Column(m, p)
  {
    RowFits(m, w, p);
    var s := Shift(m, w, p);
    forall i | 0 <= i < m.Count(p) ensures PixelRow(m, w, p)[s + i] == Column(m, p)[i] {
      assert InRun(m, p, i);
    }
  }

  lemma RowWeighted(m: Matrix, w: nat, p: nat)
    requires m.Valid() && IsRuns(m) && p < m.Npix() && m.Count(p) <= w <= m.nbins
    ensures Weighted(PixelRow(m, w, p)) == Weighted(Column(m, p))
  {
    if m.Count(p) == 0 {
      assert Column(m, p) == [];
      WeightedZeros(PixelRow(m, w, p));
    } else {
      RowSlice(m, w, p);
      WeightedMiddle(PixelRow(m, w, p), Shift(m, w, p), Shift(m, w, p) + m.Count(p));
    }
  }

  // ---- the pixels that have rows ------------------------------------------

  lemma {:induction false} RowPixelsAt(m: Matrix, listed: bool, q: nat, p: nat)
    requires m.Valid() && q < p <= m.Npix() && HasRow(m, listed, q)
    ensures |RowPixels(m, listed, q)| < |RowPixels(m, listed, p)|
    ensures RowPixels(m, listed, p)[|RowPixels(m, listed, q)|] == q
  {
    if q < p - 1 { RowPixelsAt(m, listed, q, p - 1); }
  }

  lemma {:induction false} RowPixelsRow(m: Matrix, listed: bool, p: nat, i: nat)
    requires m.Valid() && p <= m.Npix() && i < |RowPixels(m, listed, p)|
    ensures HasRow(m, listed, RowPixels(m, listed, p)[i])
    ensures |RowPixels(m, listed, RowPixels(m, listed, p)[i])| == i
  {
    if i < |RowPixels(m, listed, p - 1)| { RowPixelsRow(m, listed, p - 1, i); }
  }

  lemma {:induction false} RowPixelsGrow(m: Matrix, listed: bool, q: nat, p: nat)
    requires m.Valid() && q <= p <= m.Npix()
    ensures |RowPixels(m, listed, q)| <= |RowPixels(m, listed, p)|
  {
    if q < p { RowPixelsGrow(m, listed, q, p - 1); }
  }

  lemma RowPixelsAscend(m: Matrix, listed: bool, p: nat)
    requires m.Valid() && p <= m.Npix()
    ensures forall i, j :: 0 <= i <= j < |RowPixels(m, listed, p)| ==> RowPixels(m, listed, p)[i] <= RowPixels(m, listed, p)[j]
  {
    var r := RowPixels(m, listed, p);
    forall i, j | 0 <= i <= j < |r| ensures r[i] <= r[j] {
      RowPixelsRow(m, listed, p, i);
      RowPixelsRow(m, listed, p, j);
      if r[j] < r[i] {
        RowPixelsAt(m, listed, r[j], r[i]);
      }
    }
  }

  lemma {:induction false} AllPixels(m: Matrix, p: nat)
    requires m.Valid() && p <= m.Npix()
    ensures RowPixels(m, false, p) == Arange(p)
  {
    if p > 0 { AllPixels(m, p - 1); }
  }

  // ---- the layout ---------------------------------------------------------

  lemma LayoutReadable(m: Matrix, w: nat, listed: bool, be: nat)
    requires m.Valid() && be >= 1
    ensures Readable(LayoutOf(m, w, listed, be))
  {
    var l := LayoutOf(m, w, listed, be);
    AllPixels(m, m.Npix());
    forall p | 0 <= p < |l.rowmap| ensures l.rowmap[p] < |l.base| {
      if m.Count(p) > 0 { RowPixelsAt(m, true, p, m.Npix()); }
    }
  }

  lemma LayoutPixels(m: Matrix, w: nat, listed: bool, be: nat)
    requires m.Valid() && be >= 1 && Readable(LayoutOf(m, w, listed, be))
    ensures var l := LayoutOf(m, w, listed, be);
            forall r :: 0 <= r < |l.base| ==> RowPixel(l, r) == RowPixels(m, listed, m.Npix())[r]
  {
    if !listed { AllPixels(m, m.Npix()); }
  }

  lemma LayoutRows(m: Matrix, w: nat, listed: bool, be: nat)
    requires m.Valid() && be >= 1 && Readable(LayoutOf(m, w, listed, be))
    ensures Rows(LayoutOf(m, w, listed, be), m, RowPixels(m, listed, m.Npix()))
  {
    LayoutPixels(m, w, listed, be);
  }

  /** Row r of the layout is the padded row of its pixel. */
  lemma RowOfLayout(l: Layout, m: Matrix, rows: seq<nat>, r: nat)
    requires Rows(l, m, rows) && r < |rows|
    ensures RowTrace(l, r, rows[r]) == PixelRow(m, l.width, rows[r])
  {
    var p := rows[r];
    assert l.weights[r] == Row(m, l.width, p) && l.base[r] == Base(m, l.width, p);
  }

  lemma {:induction false} RowsConcat(l: Layout, lo: nat, mid: nat, hi: nat)
    requires Readable(l) && lo <= mid <= hi <= |l.base|
    ensures RowsTrace(l, lo, hi) == RowsTrace(l, lo, mid) + RowsTrace(l, mid, hi)
    decreases hi
  {
    if mid < hi { RowsConcat(l, lo, mid, hi - 1); }
  }

  lemma {:induction false} DenseIsRows(l: Layout, n: nat)
    requires Readable(l) && n < |l.rowPtr| && l.rowPtr[0] == 0
    requires forall i, j :: 0 <= i <= j < |l.rowPtr| ==> l.rowPtr[i] <= l.rowPtr[j]
    ensures DenseTrace(l, n) == RowsTrace(l, 0, l.rowPtr[n])
  {
    if n > 0 {
      DenseIsRows(l, n - 1);
      RowsConcat(l, 0, l.rowPtr[n - 1], l.rowPtr[n]);
    }
  }

  /** The next row after those of the pixels below p is the row of p, if it has one. */
  lemma NextRow(m: Matrix, listed: bool, p: nat)
    requires m.Valid() && p < m.Npix()
    ensures var n := |RowPixels(m, listed, p)|; var rows := RowPixels(m, listed, m.Npix());
            if HasRow(m, listed, p) then |RowPixels(m, listed, p + 1)| == n + 1 && n < |rows| && rows[n] == p
            else |RowPixels(m, listed, p + 1)| == n && n <= |rows|
  {
    RowPixelsGrow(m, listed, p, m.Npix());
    if HasRow(m, listed, p) { RowPixelsAt(m, listed, p, m.Npix()); }
  }

  lemma RowStep(l: Layout, m: Matrix, rows: seq<nat>, r: nat)
    requires m.Valid() && Rows(l, m, rows) && IsRuns(m) && r < |rows|
    requires m.Count(rows[r]) <= l.width <= m.nbins
    ensures Weighted(RowsTrace(l, 0, r + 1)) == Weighted(RowsTrace(l, 0, r)) + Weighted(Column(m, rows[r]))
  {
    RowOfLayout(l, m, rows, r);
    RowWeighted(m, l.width, rows[r]);
    WeightedConcat(RowsTrace(l, 0, r), RowTrace(l, r, rows[r]));
  }

  lemma ColumnStep(m: Matrix, q: nat)
    requires m.Valid() && q < m.Npix()
    ensures Weighted(TraceTo(m, q + 1)) == Weighted(TraceTo(m, q)) + Weighted(Column(m, q))
    ensures m.Count(q) == 0 ==> Weighted(Column(m, q)) == []
  {
    WeightedConcat(TraceTo(m, q), Column(m, q));
    if m.Count(q) == 0 { assert Column(m, q) == []; }
  }

  /** Pixel q adds to the rows what it adds to the columns. */
  lemma PixelStep(l: Layout, m: Matrix, rows: seq<nat>, q: nat)
    requires m.Valid() && Rows(l, m, rows) && IsRuns(m) && q < m.Npix()
    requires rows == RowPixels(m, l.listed, m.Npix())
    requires m.Count(q) <= l.width && (l.width <= m.nbins || |rows| == 0)
    ensures StepKeeps(l, m, q)
  {
    NextRow(m, l.listed, q);
    ColumnStep(m, q);
    if HasRow(m, l.listed, q) { RowStep(l, m, rows, |RowPixels(m, l.listed, q)|); }
  }

  /** Up to pixel p the rows perform the additions of the columns. */
  lemma {:induction false} RowsWeighted(l: Layout, m: Matrix, p: nat)
    requires m.Valid() && Readable(l) && p <= m.Npix()
    requires forall q :: 0 <= q < m.Npix() ==> StepKeeps(l, m, q)
    ensures RowsAgree(l, m, p)
  {
    if p > 0 {
      RowsWeighted(l, m, p - 1);
      assert StepKeeps(l, m, p - 1);
    }
  }

  /** The row the sparse kernel finds for pixel p is the row of the dense walk. */
  lemma SparseStep(l: Layout, m: Matrix, p: nat)
    requires m.Valid() && Readable(l) && p < m.Npix() && |l.base| == |RowPixels(m, l.listed, m.Npix())|
    requires forall r :: 0 <= r < |l.base| ==> RowPixel(l, r) == RowPixels(m, l.listed, m.Npix())[r]
    requires if l.listed then |l.rowmap| == m.Npix() && l.rowmap[p] == RowOf(m, p) else |l.base| == m.Npix()
    ensures SparseAgrees(l, m, p) ==> SparseAgrees(l, m, p + 1)
  {
    NextRow(m, l.listed, p);
    if !l.listed { AllPixels(m, p); }
  }

  /** The sparse kernel over every pixel walks the rows in the same order. */
  lemma {:induction false} SparseIsRows(l: Layout, m: Matrix, p: nat)
    requires m.Valid() && Readable(l) && p <= m.Npix()
    requires forall q :: 0 <= q < m.Npix() && SparseAgrees(l, m, q) ==> SparseAgrees(l, m, q + 1)
    ensures SparseAgrees(l, m, p)
  {
    if p > 0 {
      SparseIsRows(l, m, p - 1);
    }
  }

  lemma RowPointers(m: Matrix, w: nat, listed: bool, be: nat)
    requires m.Valid() && be >= 1
    ensures var l := LayoutOf(m, w, listed, be); var rows := RowPixels(m, listed, m.Npix());
            && |l.rowPtr| == Blocks(m.Npix(), be) + 1 && l.rowPtr[0] == 0
            && (forall j, r :: 0 <= j < |l.rowPtr| && 0 <= r < |rows| ==> (r < l.rowPtr[j] <==> rows[r] < j * be))
  {
    var l := LayoutOf(m, w, listed, be);
    var rows := RowPixels(m, listed, m.Npix());
    var starts := BlockStarts(m.Npix(), be);
    if listed {
      RowPixelsAscend(m, listed, m.Npix());
      forall j, r | 0 <= j < |l.rowPtr| && 0 <= r < |rows| ensures r < l.rowPtr[j] <==> rows[r] < j * be {
        SearchSortedSplits(rows, starts[j]);
        assert rows[r] < m.Npix();
      }
    } else {
      AllPixels(m, m.Npix());
      forall j, r | 0 <= j < |l.rowPtr| && 0 <= r < |rows| ensures r < l.rowPtr[j] <==> rows[r] < j * be {
        assert l.rowPtr[j] == starts[j];
      }
    }
  }

  /** Pointers that count the rows below each block start ascend from none to all. */
  lemma PointersTile(ptr: seq<nat>, rows: seq<nat>, npix: nat, be: nat)
    requires be >= 1 && |ptr| == Blocks(npix, be) + 1 && Counted(ptr, rows, be)
    requires forall r :: 0 <= r < |rows| ==> rows[r] < npix
    ensures ptr[|ptr| - 1] == |rows|
    ensures forall i, j :: 0 <= i <= j < |ptr| ==> ptr[i] <= ptr[j]
  {
    BlocksCover(npix, be);
    if |rows| > 0 { assert rows[|rows| - 1] < npix; }
    forall i, j | 0 <= i <= j < |ptr| ensures ptr[i] <= ptr[j] {
      MulMonotone(i, j, be);
      assert ptr[j] < |rows| ==> rows[ptr[j]] >= j * be;
    }
  }

  lemma RowmapInverse(m: Matrix, w: nat, be: nat)
    requires m.Valid() && be >= 1
    ensures var l := LayoutOf(m, w, true, be);
            && |l.rowmap| == m.Npix()
            && (forall r :: 0 <= r < |l.pixels| ==> l.pixels[r] < m.Npix() && l.rowmap[l.pixels[r]] == r)
            && (forall p :: 0 <= p < m.Npix() && l.rowmap[p] >= 0 ==> l.rowmap[p] < |l.pixels| && l.pixels[l.rowmap[p]] == p)
  {
    var l := LayoutOf(m, w, true, be);
    forall r | 0 <= r < |l.pixels| ensures l.pixels[r] < m.Npix() && l.rowmap[l.pixels[r]] == r {
      RowPixelsRow(m, true, m.Npix(), r);
    }
    forall p | 0 <= p < m.Npix() && l.rowmap[p] >= 0 ensures l.rowmap[p] < |l.pixels| && l.pixels[l.rowmap[p]] == p {
      RowPixelsAt(m, true, p, m.Npix());
    }
  }

  /** A layout has rows only when the bins are at least a row wide; a matrix without
      entries, also with no bins at all, is listed and has none. */
  lemma WidthOrEmpty(m: Matrix)
    requires m.Valid() && IsRuns(m)
    ensures Width(m) <= m.nbins || |RowPixels(m, IsListed(m), m.Npix())| == 0
  {
    var occupied := RowPixels(m, true, m.Npix());
    if |occupied| > 0 {
      RowPixelsRow(m, true, m.Npix(), 0);
      WidthFits(m, occupied[0]);
    }
  }

  lemma BasesFit(l: Layout, m: Matrix, rows: seq<nat>)
    requires m.Valid() && Rows(l, m, rows) && IsRuns(m)
    requires forall q :: 0 <= q < m.Npix() ==> m.Count(q) <= l.width
    requires l.width <= m.nbins || |rows| == 0
    ensures RowsInside(l, m.nbins, m.Npix())
  {
    forall r | 0 <= r < |l.base| ensures l.base[r] + l.width <= m.nbins {
      RowFits(m, l.width, rows[r]);
    }
  }

  lemma PointersCount(m: Matrix, w: nat, listed: bool, be: nat)
    requires m.Valid() && be >= 1 && Readable(LayoutOf(m, w, listed, be))
    ensures var l := LayoutOf(m, w, listed, be);
            Counted(l.rowPtr, RowPixels(m, listed, m.Npix()), be) && |l.rowPtr| == Blocks(m.Npix(), be) + 1 && l.rowPtr[0] == 0
  {
    RowPointers(m, w, listed, be);
    RowCount(m, w, listed, be);
  }

  lemma RowCount(m: Matrix, w: nat, listed: bool, be: nat)
    requires m.Valid() && be >= 1
    ensures |LayoutOf(m, w, listed, be).base| == |RowPixels(m, listed, m.Npix())|
  {
  }

  lemma RowsBelow(m: Matrix, listed: bool)
    requires m.Valid()
    ensures var rows := RowPixels(m, listed, m.Npix()); forall r :: 0 <= r < |rows| ==> rows[r] < m.Npix()
  {
  }

  lemma LayoutSplit(m: Matrix, w: nat, listed: bool, be: nat)
    requires m.Valid() && be >= 1 && Readable(LayoutOf(m, w, listed, be))
    ensures BlocksSplit(LayoutOf(m, w, listed, be), m.Npix())
  {
    var l := LayoutOf(m, w, listed, be);
    var rows := RowPixels(m, listed, m.Npix());
    PointersCount(m, w, listed, be);
    RowsBelow(m, listed);
    PointersTile(l.rowPtr, rows, m.Npix(), be);
    if !listed { AllPixels(m, m.Npix()); }
  }

  lemma LayoutMaps(m: Matrix, w: nat, listed: bool, be: nat)
    requires m.Valid() && be >= 1 && Readable(LayoutOf(m, w, listed, be))
    ensures MapsInverse(LayoutOf(m, w, listed, be), m.Npix())
  {
    if listed { RowmapInverse(m, w, be); } else { AllPixels(m, m.Npix()); }
  }

  lemma LayoutWellFormed(m: Matrix, w: nat, be: nat)
    requires m.Valid() && IsRuns(m) && be >= 1 && w == Width(m) <= MAX_WIDTH
    ensures WellFormed(LayoutOf(m, w, IsListed(m), be), m.nbins, m.Npix())
  {
    var listed := IsListed(m);
    WidthOrEmpty(m);
    LayoutReadable(m, w, listed, be);
    LayoutRows(m, w, listed, be);
    BasesFit(LayoutOf(m, w, listed, be), m, RowPixels(m, listed, m.Npix()));
    LayoutSplit(m, w, listed, be);
    LayoutMaps(m, w, listed, be);
  }

  /** The padded layout exists exactly for matrices whose pixels are runs of at most
      64 bins (a matrix without entries included, whatever its number of bins), and
      is then what the kernels rely on. */
  lemma FromCscWellFormed(m: Matrix, be: nat)
    requires m.Valid() && be >= 1
    ensures FromCsc(m, be).Success? <==> IsRuns(m) && Width(m) <= MAX_WIDTH
    ensures FromCsc(m, be).Success? ==> WellFormed(FromCsc(m, be).value, m.nbins, m.Npix())
  {
    RunStartsAccepts(m);
    if FromCsc(m, be).Success? { LayoutWellFormed(m, Width(m), be); }
  }

  lemma RowTraces(l: Layout, m: Matrix, rows: seq<nat>)
    requires m.Valid() && Rows(l, m, rows) && IsRuns(m) && rows == RowPixels(m, l.listed, m.Npix())
    requires forall q :: 0 <= q < m.Npix() ==> m.Count(q) <= l.width
    requires l.width <= m.nbins || |rows| == 0
    ensures forall q :: 0 <= q < m.Npix() ==> StepKeeps(l, m, q)
  {
    forall q | 0 <= q < m.Npix() ensures StepKeeps(l, m, q) {
      PixelStep(l, m, rows, q);
    }
  }

  lemma SparseTraces(l: Layout, m: Matrix, rows: seq<nat>)
    requires m.Valid() && Rows(l, m, rows) && rows == RowPixels(m, l.listed, m.Npix())
    requires if l.listed then |l.rowmap| == m.Npix() && forall q :: 0 <= q < m.Npix() ==> l.rowmap[q] == RowOf(m, q)
             else |l.base| == m.Npix()
    ensures SparseAgrees(l, m, m.Npix())
  {
    forall q | 0 <= q < m.Npix() && SparseAgrees(l, m, q) ensures SparseAgrees(l, m, q + 1) {
      SparseStep(l, m, q);
    }
    SparseIsRows(l, m, m.Npix());
  }

  /** Once every row of every block is walked, both traces are the matrix's. */
  lemma TracesAgree(l: Layout, m: Matrix)
    requires m.Valid() && Readable(l) && BlocksSplit(l, m.Npix())
    requires |l.base| == |RowPixels(m, l.listed, m.Npix())|
    requires RowsAgree(l, m, m.Npix()) && SparseAgrees(l, m, m.Npix())
    ensures Weighted(DenseTrace(l, |l.rowPtr| - 1)) == Weighted(Trace(m))
    ensures Weighted(SparseTrace(l, m.Npix())) == Weighted(Trace(m))
  {
    DenseIsRows(l, |l.rowPtr| - 1);
  }

  lemma LayoutTraces(m: Matrix, w: nat, listed: bool, be: nat)
    requires m.Valid() && IsRuns(m) && be >= 1 && w == Width(m) && listed == IsListed(m)
    requires Readable(LayoutOf(m, w, listed, be)) && BlocksSplit(LayoutOf(m, w, listed, be), m.Npix())
    ensures RowsAgree(LayoutOf(m, w, listed, be), m, m.Npix()) && SparseAgrees(LayoutOf(m, w, listed, be), m, m.Npix())
  {
    var l := LayoutOf(m, w, listed, be);
    LayoutRows(m, w, listed, be);
    WidthOrEmpty(m);
    RowTraces(l, m, RowPixels(m, listed, m.Npix()));
    RowsWeighted(l, m, m.Npix());
    if !listed { AllPixels(m, m.Npix()); }
    SparseTraces(l, m, RowPixels(m, listed, m.Npix()));
  }

  /** Both kernels perform the additions of the csc dot in the same order, apart
      from additions of zero weights. */
  lemma FromCscTrace(m: Matrix, be: nat, l: Layout)
    requires m.Valid() && be >= 1 && FromCsc(m, be) == Success(l)
    ensures Agrees(l, m)
  {
    RunStartsAccepts(m);
    LayoutWellFormed(m, Width(m), be);
    LayoutTraces(m, Width(m), IsListed(m), be);
    TracesAgree(l, m);
  }

  lemma AgreePowder(l: Layout, m: Matrix, x: seq<real>, b: nat)
    requires m.Valid() && Agrees(l, m)
    ensures Powder(DenseTrace(l, |l.rowPtr| - 1), x, b) == Powder(Trace(m), x, b)
    ensures Powder(SparseTrace(l, m.Npix()), x, b) == Powder(Trace(m), x, b)
  {
    SameWeighted(DenseTrace(l, |l.rowPtr| - 1), Trace(m), x, b);
    SameWeighted(SparseTrace(l, m.Npix()), Trace(m), x, b);
  }

  /** The padded layout is the same linear map as the matrix, on either route. */
  lemma FromCscPowder(m: Matrix, be: nat, l: Layout, x: seq<real>, b: nat)
    requires m.Valid() && be >= 1 && FromCsc(m, be) == Success(l)
    ensures Agrees(l, m)
    ensures Powder(DenseTrace(l, |l.rowPtr| - 1), x, b) == Powder(Trace(m), x, b)
    ensures Powder(SparseTrace(l, m.Npix()), x, b) == Powder(Trace(m), x, b)
  {
    FromCscTrace(m, be, l);
    AgreePowder(l, m, x, b);
  }
}
