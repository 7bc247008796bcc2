/**
  The padded layout built as the source builds it: a zero matrix of weights filled
  one weight per pixel at a time, for k below the largest number of bins.
*/
module PaddedFill {
  import opened Columns
  import opened ColumnsProof
  import opened Csc
  import opened Numpy
  import opened Padded
  import opened PaddedProof
  import opened Product

  /** Weight j of pixel p once the first k weights of every pixel are in. */
  function Filled(m: Matrix, w: nat, p: nat, j: nat, k: nat): real
    requires m.Valid() && p < m.Npix()
  {
    if Shift(m, w, p) <= j < Shift(m, w, p) + k then Weight(m, w, p, j) else 0.0
  }

  /** Step k sets weight k of the pixels that have one and leaves the others. */
  ghost predicate StepFills(m: Matrix, w: nat, p: nat, j: nat, k: nat)
    requires m.Valid() && p < m.Npix()
  {
    Filled(m, w, p, j, k + 1) ==
      if m.Count(p) > k && j == Shift(m, w, p) + k then m.data[m.indptr[p] + k] else Filled(m, w, p, j, k)
  }

  /** w[sel, shift[sel] + k] = data[first[sel] + k], with sel = n > k */
  method FillWeight(m: Matrix, w: nat, k: nat, a: array2<real>)
    requires m.Valid() && a.Length0 == m.Npix() && a.Length1 == w
    requires forall p :: 0 <= p < m.Npix() && m.Count(p) > k ==> Shift(m, w, p) + k < w
    modifies a
    ensures forall p, j :: 0 <= p < m.Npix() && 0 <= j < w ==>
              a[p, j] == if m.Count(p) > k && j == Shift(m, w, p) + k then m.data[m.indptr[p] + k] else old(a[p, j])
  {
    forall p | 0 <= p < m.Npix() && m.Count(p) > k {
      a[p, Shift(m, w, p) + k] := m.data[m.indptr[p] + k];
    }
  }

  lemma FilledSteps(m: Matrix, w: nat, k: nat)
    requires m.Valid()
    ensures forall p, j :: 0 <= p < m.Npix() && 0 <= j < w ==> StepFills(m, w, p, j, k)
  {
  }

  lemma FilledAll(m: Matrix, w: nat)
    requires m.Valid()
    ensures forall p, j :: 0 <= p < m.Npix() && 0 <= j < w ==> Filled(m, w, p, j, MaxOf(Counts(m))) == Weight(m, w, p, j)
  {
    forall p, j | 0 <= p < m.Npix() && 0 <= j < w ensures Filled(m, w, p, j, MaxOf(Counts(m))) == Weight(m, w, p, j) {
      assert Counts(m)[p] <= MaxOf(Counts(m));
    }
  }

  lemma WeightsInside(m: Matrix, w: nat, k: nat)
    requires m.Valid() && IsRuns(m) && w == Width(m)
    requires w <= m.nbins || forall p :: 0 <= p < m.Npix() ==> m.Count(p) == 0
    ensures forall p :: 0 <= p < m.Npix() && m.Count(p) > k ==> Shift(m, w, p) + k < w
  {
    forall p | 0 <= p < m.Npix() && m.Count(p) > k ensures Shift(m, w, p) + k < w {
      RowFits(m, w, p);
    }
  }

  /** No weight is written outside its row, and none is written twice. */
  method FillWeights(m: Matrix, w: nat) returns (a: array2<real>)
    requires m.Valid() && IsRuns(m) && w == Width(m)
    requires w <= m.nbins || forall p :: 0 <= p < m.Npix() ==> m.Count(p) == 0
    ensures fresh(a) && a.Length0 == m.Npix() && a.Length1 == w
    ensures forall p, j :: 0 <= p < m.Npix() && 0 <= j < w ==> a[p, j] == Weight(m, w, p, j)
  {
    a := new real[m.Npix(), w]((p, j) => 0.0);
    var used := MaxOf(Counts(m));
    for k := 0 to used
      invariant forall p, j :: 0 <= p < m.Npix() && 0 <= j < w ==> a[p, j] == Filled(m, w, p, j, k)
    {
      WeightsInside(m, w, k);
      FilledSteps(m, w, k);
      FillWeight(m, w, k, a);
      assert forall p, j :: 0 <= p < m.Npix() && 0 <= j < w ==> StepFills(m, w, p, j, k);
    }
    FilledAll(m, w);
  }

  /** The rows of the filled matrix are the rows of the layout. */
  method RowsOf(m: Matrix, w: nat, rows: seq<nat>, a: array2<real>) returns (weights: seq<seq<real>>)
    requires m.Valid() && a.Length0 == m.Npix() && a.Length1 == w
    requires forall r :: 0 <= r < |rows| ==> rows[r] < m.Npix()
    requires forall p, j :: 0 <= p < m.Npix() && 0 <= j < w ==> a[p, j] == Weight(m, w, p, j)
    ensures |weights| == |rows| && forall r :: 0 <= r < |rows| ==> weights[r] == Row(m, w, rows[r])
  {
    weights := [];
    for r := 0 to |rows|
      invariant |weights| == r && forall i :: 0 <= i < r ==> weights[i] == Row(m, w, rows[i])
    {
      var row := seq(w, j requires 0 <= j < w reads a => a[rows[r], j]);
      assert row == Row(m, w, rows[r]);
      weights := weights + [row];
    }
  }

  /** np.flatnonzero(has) */
  method OccupiedPixels(m: Matrix) returns (rows: seq<nat>)
    requires m.Valid()
    ensures rows == RowPixels(m, true, m.Npix())
  {
    rows := [];
    for p := 0 to m.Npix()
      invariant rows == RowPixels(m, true, p)
    {
      if m.Count(p) > 0 { rows := rows + [p]; }
    }
  }

  /** base[has] = indices[...], then moved down so that a row fits below nbins. */
  method Bases(m: Matrix, w: nat) returns (base: array<nat>)
    requires m.Valid()
    ensures fresh(base) && base.Length == m.Npix() && forall p :: 0 <= p < m.Npix() ==> base[p] == Base(m, w, p)
  {
    base := new nat[m.Npix()](_ => 0);
    var limit := if m.nbins > w then m.nbins - w else 0;
    for p := 0 to m.Npix()
      invariant forall q :: 0 <= q < p ==> base[q] == Base(m, w, q)
    {
      var first := if m.Count(p) > 0 then m.indices[m.indptr[p]] else 0;
      base[p] := if first < limit then first else limit;
    }
  }

  /** rowmap = full(npix, -1), then rowmap[rows] = arange(len(rows)) in place. */
  method RowMap(m: Matrix, rows: seq<nat>) returns (rowmap: array<int>)
    requires m.Valid() && rows == RowPixels(m, true, m.Npix())
    ensures fresh(rowmap) && rowmap.Length == m.Npix() && forall p :: 0 <= p < m.Npix() ==> rowmap[p] == RowOf(m, p)
  {
    rowmap := new int[m.Npix()](_ => -1);
    for r := 0 to |rows|
      invariant forall i :: 0 <= i < |rows| ==> rows[i] < m.Npix()
      invariant forall i :: 0 <= i < r ==> rowmap[rows[i]] == i
      invariant forall p :: 0 <= p < m.Npix() && (forall i :: 0 <= i < r ==> rows[i] != p) ==> rowmap[p] == -1
    {
      RowsDiffer(m, r);
      rowmap[rows[r]] := r;
    }
    forall p | 0 <= p < m.Npix() ensures rowmap[p] == RowOf(m, p) {
      RowPlace(m, p);
    }
  }

  lemma RowsDiffer(m: Matrix, r: nat)
    requires m.Valid() && r < |RowPixels(m, true, m.Npix())|
    ensures forall i :: 0 <= i < r ==> RowPixels(m, true, m.Npix())[i] != RowPixels(m, true, m.Npix())[r]
  {
    var rows := RowPixels(m, true, m.Npix());
    forall i | 0 <= i < r ensures rows[i] != rows[r] {
      RowPixelsRow(m, true, m.Npix(), i);
      RowPixelsRow(m, true, m.Npix(), r);
    }
  }

  /** A pixel with entries is in the list at its place; one without is not in it. */
  lemma RowPlace(m: Matrix, p: nat)
    requires m.Valid() && p < m.Npix()
    ensures var rows := RowPixels(m, true, m.Npix());
            if m.Count(p) > 0 then 0 <= RowOf(m, p) < |rows| && rows[RowOf(m, p)] == p
            else RowOf(m, p) == -1 && forall i :: 0 <= i < |rows| ==> rows[i] != p
  {
    var rows := RowPixels(m, true, m.Npix());
    if m.Count(p) > 0 {
      RowPixelsAt(m, true, p, m.Npix());
    } else {
      forall i | 0 <= i < |rows| ensures rows[i] != p { RowPixelsRow(m, true, m.Npix(), i); }
    }
  }

  /** np.searchsorted(rows, cb) */
  method RowPointers(rows: seq<nat>, starts: seq<nat>) returns (ptr: seq<nat>)
    ensures |ptr| == |starts| && forall j :: 0 <= j < |ptr| ==> ptr[j] == SearchSorted(rows, starts[j])
  {
    ptr := [];
    for j := 0 to |starts|
      invariant |ptr| == j && forall i :: 0 <= i < j ==> ptr[i] == SearchSorted(rows, starts[i])
    {
      ptr := ptr + [SearchSorted(rows, starts[j])];
    }
  }

  /** The arrays of the layout, listed or a row per pixel. */
  method Assemble(m: Matrix, w: nat, be: nat, a: array2<real>) returns (l: Layout)
    requires m.Valid() && be >= 1 && a.Length0 == m.Npix() && a.Length1 == w
    requires forall p, j :: 0 <= p < m.Npix() && 0 <= j < w ==> a[p, j] == Weight(m, w, p, j)
    ensures l == LayoutOf(m, w, IsListed(m), be)
  {
    var npix := m.Npix();
    var occupied := OccupiedPixels(m);
    var base := Bases(m, w);
    var starts := BlockStarts(npix, be);
    var listed := 2 * |occupied| < npix;
    AllPixels(m, npix);
    var rows := if listed then occupied else Arange(npix);
    assert rows == RowPixels(m, listed, npix);
    assert forall r :: 0 <= r < |rows| ==> rows[r] < npix;
    var bases := seq(|rows|, r requires 0 <= r < |rows| reads base => base[rows[r]]);
    var weights := RowsOf(m, w, rows, a);
    if listed {
      var rowmap := RowMap(m, occupied);
      var ptr := RowPointers(rows, starts);
      l := Layout(bases, weights, rows, rowmap[..], ptr, w, true, be);
    } else {
      l := Layout(bases, weights, [], [], starts, w, false, be);
    }
    ghost var spec := LayoutOf(m, w, listed, be);
    assert l.base == spec.base && l.weights == spec.weights && l.pixels == spec.pixels;
    assert l.rowmap == spec.rowmap && l.rowPtr == spec.rowPtr;
  }

  /** _padded_from_csc computes the layout that PaddedProof shows to be the matrix. */
  method Build(m: Matrix, be: nat) returns (r: Result<Layout>)
    requires m.Valid() && be >= 1
    ensures r == FromCsc(m, be)
  {
    var w := Width(m);
    if w > MAX_WIDTH { return Refused(TooWide); }
    var checked := RunStarts(m);
    if checked.Refused? { return Refused(NotRuns); }
    RunStartsAccepts(m);
    forall p | 0 <= p < m.Npix() && m.Count(p) > 0 ensures w <= m.nbins { WidthFits(m, p); }
    var a := FillWeights(m, w);
    var l := Assemble(m, w, be, a);
    r := Success(l);
  }
}
