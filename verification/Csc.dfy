/**
  The pixel to bin matrix of an integrator in compressed sparse column form: how
  it is validated on the way in (`normalise_matrix`) and how the detector mask is
  folded into it (`_fold_mask`).
*/
module Csc {
  import opened Numpy
  import opened Product

  datatype Result<+T> = Success(value: T) | Refused(reason: Reason)

  /** Why a matrix, a block size or a dot is refused; each is a ValueError of the
      source except ZeroBlock (ZeroDivisionError). */
  datatype Reason =
    | IndptrLength | IndptrStart | IndptrDecreases | IndptrEnd | IndexRange
    | MaskSize | TooWide | NotRuns | ManyBins | NotUnit | BinsShared
    | ZeroBlock | BlockTooLarge | NotFixed | WeightWidth | FloatPixels | NegativeWeight | NoRoom | WeightOverflow

  /** Column p is the entries indptr[p] .. indptr[p + 1]. */
  datatype Matrix = Matrix(data: seq<real>, indices: seq<nat>, indptr: seq<nat>, nbins: nat)
  {
    ghost predicate Valid() {
      && |indptr| >= 1
      && indptr[0] == 0
      && (forall i, j :: 0 <= i <= j < |indptr| ==> indptr[i] <= indptr[j])
      && indptr[|indptr| - 1] == |indices| == |data|
      && (forall k :: 0 <= k < |indices| ==> indices[k] < nbins)
    }

    function Npix(): nat
      requires |indptr| >= 1
    {
      |indptr| - 1
    }

    /** The number of entries of pixel p. */
    function Count(p: nat): nat
      requires p + 1 < |indptr| && indptr[p] <= indptr[p + 1]
    {
      indptr[p + 1] - indptr[p]
    }
  }

  // ---- what the dots mean -------------------------------------------------

  /** The additions of pixel p in the csc dot (src/steps/dot_csc.hpp). */
  function Column(m: Matrix, p: nat): seq<Add>
    requires m.Valid() && p < m.Npix()
  {
    seq(m.Count(p), i requires 0 <= i < m.Count(p) =>
      Add(m.indices[m.indptr[p] + i], p, m.data[m.indptr[p] + i]))
  }

  function TraceTo(m: Matrix, p: nat): seq<Add>
    requires m.Valid() && p <= m.Npix()
  {
    if p == 0 then [] else TraceTo(m, p - 1) + Column(m, p - 1)
  }

  /** The reference: the additions of the csc dot over a whole frame. */
  function Trace(m: Matrix): seq<Add>
    requires m.Valid()
  {
    TraceTo(m, m.Npix())
  }

  function Counts(m: Matrix): (r: seq<nat>)
    requires m.Valid()
    ensures |r| == m.Npix()
    ensures forall p :: 0 <= p < m.Npix() ==> r[p] == m.Count(p)
  {
    seq(m.Npix(), p requires 0 <= p < m.Npix() => m.Count(p))
  }

  lemma {:induction false} PointersOfCounts(m: Matrix, p: nat)
    requires m.Valid() && p <= m.Npix()
    ensures Pointers(Counts(m))[p] == m.indptr[p]
  {
    if p > 0 {
      PointersOfCounts(m, p - 1);
      assert Counts(m)[p - 1] == m.Count(p - 1);
    }
  }

  /** The pixel of every entry: np.repeat(np.arange(npix), n). */
  function Pix(m: Matrix): seq<nat>
    requires m.Valid()
  {
    Repeat(Arange(m.Npix()), Counts(m))
  }

  /** The column that holds entry k, by search from pixel p down. */
  lemma {:induction false} FindColumn(m: Matrix, p: nat, k: nat) returns (q: nat)
    requires m.Valid() && p <= m.Npix() && k < m.indptr[p]
    ensures q < p && m.indptr[q] <= k < m.indptr[q + 1]
  {
    if m.indptr[p - 1] <= k { q := p - 1; } else { q := FindColumn(m, p - 1, k); }
  }

  lemma PixAt(m: Matrix, k: nat)
    requires m.Valid() && k < |m.indices|
    ensures |Pix(m)| == |m.indices| && Pix(m)[k] < m.Npix()
    ensures m.indptr[Pix(m)[k]] <= k < m.indptr[Pix(m)[k] + 1]
  {
    var n := Counts(m);
    RepeatLength(Arange(m.Npix()), n);
    PointersOfCounts(m, m.Npix());
    var p := FindColumn(m, m.Npix(), k);
    PointersOfCounts(m, p);
    PointersOfCounts(m, p + 1);
    RepeatAt(Arange(m.Npix()), n, p, k);
  }

  lemma PixOfColumn(m: Matrix, p: nat, k: nat)
    requires m.Valid() && p < m.Npix() && m.indptr[p] <= k < m.indptr[p + 1]
    ensures k < |m.indices| && |Pix(m)| == |m.indices| && Pix(m)[k] == p
  {
    PixAt(m, k);
    PointersOfCounts(m, p);
    PointersOfCounts(m, p + 1);
    RepeatAt(Arange(m.Npix()), Counts(m), p, k);
  }

  lemma {:induction false} TraceLength(m: Matrix, p: nat)
    requires m.Valid() && p <= m.Npix()
    ensures |TraceTo(m, p)| == m.indptr[p]
  {
    if p > 0 { TraceLength(m, p - 1); }
  }

  /** Entry k of the matrix is addition k of its trace. */
  lemma {:induction false} TraceToAt(m: Matrix, p: nat, k: nat)
    requires m.Valid() && p <= m.Npix() && k < m.indptr[p]
    ensures |TraceTo(m, p)| == m.indptr[p] && |Pix(m)| == |m.indices|
    ensures TraceTo(m, p)[k] == Add(m.indices[k], Pix(m)[k], m.data[k])
  {
    TraceLength(m, p);
    TraceLength(m, p - 1);
    if k < m.indptr[p - 1] {
      TraceToAt(m, p - 1, k);
    } else {
      PixOfColumn(m, p - 1, k);
      assert TraceTo(m, p)[k] == Column(m, p - 1)[k - m.indptr[p - 1]];
    }
  }

  lemma TraceAt(m: Matrix)
    requires m.Valid()
    ensures |Trace(m)| == |Pix(m)| == |m.indices|
    ensures forall k :: 0 <= k < |m.indices| ==> Trace(m)[k] == Add(m.indices[k], Pix(m)[k], m.data[k])
  {
    TraceLength(m, m.Npix());
    RepeatLength(Arange(m.Npix()), Counts(m));
    PointersOfCounts(m, m.Npix());
    forall k | 0 <= k < |m.indices| ensures Trace(m)[k] == Add(m.indices[k], Pix(m)[k], m.data[k]) {
      TraceToAt(m, m.Npix(), k);
    }
  }

  // ---- normalise_matrix ---------------------------------------------------

  const U32: nat := 0x1_0000_0000

  /** astype(uint32) */
  function Narrow(s: seq<nat>): (r: seq<nat>)
    ensures |r| == |s|
  {
    seq(|s|, i requires 0 <= i < |s| => s[i] % U32)
  }

  /** The checks of normalise_matrix in their order, then the cast to 32 bits. */
  function Normalise(data: seq<real>, indices: seq<nat>, indptr: seq<nat>, nbins: nat, npix: nat): Result<Matrix> {
    if |indptr| != npix + 1 then Refused(IndptrLength)
    else if indptr[0] != 0 then Refused(IndptrStart)
    else if exists i :: 0 < i < |indptr| && indptr[i] < indptr[i - 1] then Refused(IndptrDecreases)
    else if indptr[npix] != |indices| then Refused(IndptrEnd)
    else if exists k :: 0 <= k < |indices| && indices[k] >= nbins then Refused(IndexRange)
    else Success(Matrix(data, Narrow(indices), Narrow(indptr), nbins))
  }

  /** Normalisation accepts exactly the well formed matrices (it never looks at
      the length of data). */
  lemma NormaliseAccepts(data: seq<real>, indices: seq<nat>, indptr: seq<nat>, nbins: nat, npix: nat)
    requires |data| == |indices|
    ensures Normalise(data, indices, indptr, nbins, npix).Success? <==>
              |indptr| == npix + 1 && Matrix(data, indices, indptr, nbins).Valid()
  {
    if Normalise(data, indices, indptr, nbins, npix).Success? {
      forall i, j | 0 <= i <= j < |indptr| ensures indptr[i] <= indptr[j] {
        StepsAscend(indptr, i, j);
      }
    }
  }

  /** The reason of a refusal is true of the arrays. */
  lemma RefusalIsTrue(data: seq<real>, indices: seq<nat>, indptr: seq<nat>, nbins: nat, npix: nat)
    requires Normalise(data, indices, indptr, nbins, npix).Refused?
    ensures match Normalise(data, indices, indptr, nbins, npix).reason
            case IndptrLength => |indptr| != npix + 1
            case IndptrStart => |indptr| > 0 && indptr[0] != 0
            case IndptrDecreases => exists i, j :: 0 <= i < j < |indptr| && indptr[j] < indptr[i]
            case IndptrEnd => |indptr| == npix + 1 && indptr[npix] != |indices|
            case IndexRange => exists k :: 0 <= k < |indices| && indices[k] >= nbins
            case _ => false
  {
    if Normalise(data, indices, indptr, nbins, npix).reason == IndptrDecreases {
      var i :| 0 < i < |indptr| && indptr[i] < indptr[i - 1];
      var j := i - 1;
      assert indptr[i] < indptr[j];
    }
  }

  /** An accepted matrix is kept as it is exactly when it has fewer than 2^32
      entries and every bin number it uses fits 32 bits; otherwise the cast
      changes it and nothing is raised. */
  lemma NormaliseKeepsMatrix(data: seq<real>, indices: seq<nat>, indptr: seq<nat>, nbins: nat, npix: nat)
    requires |data| == |indices|
    requires Normalise(data, indices, indptr, nbins, npix).Success?
    ensures Normalise(data, indices, indptr, nbins, npix).value == Matrix(data, indices, indptr, nbins)
            <==> |indices| < U32 && forall k :: 0 <= k < |indices| ==> indices[k] < U32
  {
    NormaliseAccepts(data, indices, indptr, nbins, npix);
    var n := Narrow(indices);
    var q := Narrow(indptr);
    if n == indices && q == indptr {
      assert q[npix] == |indices| % U32;
      forall k | 0 <= k < |indices| ensures indices[k] < U32 { assert n[k] == indices[k] % U32; }
    }
    if |indices| < U32 && forall k :: 0 <= k < |indices| ==> indices[k] < U32 {
      forall i | 0 <= i < |indptr| ensures q[i] == indptr[i] { assert indptr[i] <= indptr[npix]; }
      assert n == indices && q == indptr;
    }
  }

  // ---- _fold_mask ---------------------------------------------------------

  function Active(mask: seq<nat>): (r: seq<bool>)
    ensures |r| == |mask| && forall p :: 0 <= p < |mask| ==> r[p] == (mask[p] > 0)
  {
    seq(|mask|, p requires 0 <= p < |mask| => mask[p] > 0)
  }

  /** np.where(m, n, 0) */
  function KeptCounts(m: Matrix, mask: seq<nat>): (r: seq<nat>)
    requires m.Valid() && |mask| == m.Npix()
    ensures |r| == m.Npix()
    ensures forall p :: 0 <= p < |r| ==> r[p] == if mask[p] > 0 then m.Count(p) else 0
  {
    seq(m.Npix(), p requires 0 <= p < m.Npix() => if mask[p] > 0 then m.Count(p) else 0)
  }

  /** np.repeat(m, n): whether each entry is kept. */
  function Keep(m: Matrix, mask: seq<nat>): (r: seq<bool>)
    requires m.Valid() && |mask| == m.Npix()
    ensures |r| == |m.indices|
  {
    RepeatLength(Active(mask), Counts(m));
    PointersOfCounts(m, m.Npix());
    Repeat(Active(mask), Counts(m))
  }

  /** The entries of masked pixels are dropped, so their columns become empty. */
  function FoldMask(m: Matrix, mask: seq<nat>): Result<Matrix>
    requires m.Valid()
  {
    if |mask| != m.Npix() then Refused(MaskSize)
    else
      var keep := Keep(m, mask);
      Success(Matrix(Compress(m.data, keep), Compress(m.indices, keep), Pointers(KeptCounts(m, mask)), m.nbins))
  }

  lemma KeepOfColumn(m: Matrix, mask: seq<nat>, p: nat)
    requires m.Valid() && |mask| == m.Npix() && p < m.Npix()
    ensures forall k :: m.indptr[p] <= k < m.indptr[p + 1] ==> Keep(m, mask)[k] == (mask[p] > 0)
  {
    PointersOfCounts(m, p);
    PointersOfCounts(m, p + 1);
    forall k | m.indptr[p] <= k < m.indptr[p + 1] ensures Keep(m, mask)[k] == (mask[p] > 0) {
      RepeatAt(Active(mask), Counts(m), p, k);
    }
  }

  /** What is kept of an entry array before pixel p. */
  function KeptTo<T>(m: Matrix, mask: seq<nat>, s: seq<T>, p: nat): seq<T>
    requires m.Valid() && |mask| == m.Npix() && |s| == |m.indices| && p <= m.Npix()
  {
    Compress(s[..m.indptr[p]], Keep(m, mask)[..m.indptr[p]])
  }

  lemma KeptStep<T>(m: Matrix, mask: seq<nat>, s: seq<T>, p: nat)
    requires m.Valid() && |mask| == m.Npix() && |s| == |m.indices| && p < m.Npix()
    ensures KeptTo(m, mask, s, p + 1)
            == KeptTo(m, mask, s, p) + if mask[p] > 0 then s[m.indptr[p]..m.indptr[p + 1]] else []
  {
    KeepOfColumn(m, mask, p);
    CompressSegment(s, Keep(m, mask), m.indptr[p], m.indptr[p + 1], mask[p] > 0);
  }

  lemma {:induction false} KeptLength<T>(m: Matrix, mask: seq<nat>, s: seq<T>, p: nat)
    requires m.Valid() && |mask| == m.Npix() && |s| == |m.indices| && p <= m.Npix()
    ensures |KeptTo(m, mask, s, p)| == Pointers(KeptCounts(m, mask))[p]
  {
    if p > 0 {
      KeptLength(m, mask, s, p - 1);
      KeptStep(m, mask, s, p - 1);
    }
  }

  lemma KeptAll<T>(m: Matrix, mask: seq<nat>, s: seq<T>)
    requires m.Valid() && |mask| == m.Npix() && |s| == |m.indices|
    ensures KeptTo(m, mask, s, m.Npix()) == Compress(s, Keep(m, mask))
    ensures |Compress(s, Keep(m, mask))| == Pointers(KeptCounts(m, mask))[m.Npix()]
  {
    KeptLength(m, mask, s, m.Npix());
    assert s[..|s|] == s && Keep(m, mask)[..|s|] == Keep(m, mask);
  }

  /** Every kept column is found unchanged where the new indptr says it is. */
  lemma KeptSlice<T>(m: Matrix, mask: seq<nat>, s: seq<T>, p: nat)
    requires m.Valid() && |mask| == m.Npix() && |s| == |m.indices| && p < m.Npix()
    ensures var all := Compress(s, Keep(m, mask));
            var newptr := Pointers(KeptCounts(m, mask));
            && newptr[p + 1] <= |all|
            && all[newptr[p]..newptr[p + 1]] == if mask[p] > 0 then s[m.indptr[p]..m.indptr[p + 1]] else []
  {
    var all := Compress(s, Keep(m, mask));
    var newptr := Pointers(KeptCounts(m, mask));
    KeptLength(m, mask, s, p);
    KeptLength(m, mask, s, p + 1);
    KeptStep(m, mask, s, p);
    CompressPrefix(s, Keep(m, mask), m.indptr[p + 1]);
    var upto := KeptTo(m, mask, s, p + 1);
    assert upto <= all;
    assert all[newptr[p]..newptr[p + 1]] == upto[newptr[p]..];
  }

  lemma FoldMaskValid(m: Matrix, mask: seq<nat>)
    requires m.Valid() && |mask| == m.Npix()
    ensures FoldMask(m, mask).value.Valid() && FoldMask(m, mask).value.Npix() == m.Npix()
    ensures FoldMask(m, mask).value.nbins == m.nbins
    ensures var f := FoldMask(m, mask).value;
            forall p :: 0 <= p < m.Npix() ==> f.indptr[p + 1] == f.indptr[p] + if mask[p] > 0 then m.Count(p) else 0
  {
    var f := FoldMask(m, mask).value;
    KeptAll(m, mask, m.data);
    KeptAll(m, mask, m.indices);
    CompressKeeps(m.indices, Keep(m, mask));
    forall k | 0 <= k < |f.indices| ensures f.indices[k] < f.nbins { assert f.indices[k] in m.indices; }
  }

  lemma FoldMaskColumn(m: Matrix, mask: seq<nat>, p: nat)
    requires m.Valid() && |mask| == m.Npix() && p < m.Npix()
    requires FoldMask(m, mask).value.Valid() && FoldMask(m, mask).value.Npix() == m.Npix()
    ensures FoldMask(m, mask).value.Count(p) == if mask[p] > 0 then m.Count(p) else 0
    ensures Column(FoldMask(m, mask).value, p) == if mask[p] > 0 then Column(m, p) else []
  {
    var f := FoldMask(m, mask).value;
    assert KeptCounts(m, mask)[p] == if mask[p] > 0 then m.Count(p) else 0;
    if mask[p] > 0 {
      KeptSlice(m, mask, m.data, p);
      KeptSlice(m, mask, m.indices, p);
      ColumnOfSlices(m, f, p);
    }
  }

  /** A column is determined by its slices of data and indices. */
  lemma ColumnOfSlices(m: Matrix, f: Matrix, p: nat)
    requires m.Valid() && f.Valid() && p < m.Npix() && p < f.Npix()
    requires f.data[f.indptr[p]..f.indptr[p + 1]] == m.data[m.indptr[p]..m.indptr[p + 1]]
    requires f.indices[f.indptr[p]..f.indptr[p + 1]] == m.indices[m.indptr[p]..m.indptr[p + 1]]
    ensures Column(f, p) == Column(m, p)
  {
    var fd, md := f.data[f.indptr[p]..f.indptr[p + 1]], m.data[m.indptr[p]..m.indptr[p + 1]];
    var fi, mi := f.indices[f.indptr[p]..f.indptr[p + 1]], m.indices[m.indptr[p]..m.indptr[p + 1]];
    assert |fd| == |md|;
    forall i | 0 <= i < m.Count(p) ensures Column(f, p)[i] == Column(m, p)[i] {
      assert fd[i] == md[i] && fi[i] == mi[i];
    }
  }

  /** Folding keeps the matrix valid, its size and bins, and each column either
      whole (active pixel) or empty (masked pixel), so whatever holds of every
      column of the matrix (runs, unit weights, one bin) still does. */
  lemma FoldMaskColumns(m: Matrix, mask: seq<nat>)
    requires m.Valid()
    ensures FoldMask(m, mask).Success? <==> |mask| == m.Npix()
    ensures FoldMask(m, mask).Success? ==>
              var f := FoldMask(m, mask).value;
              && f.Valid() && f.Npix() == m.Npix() && f.nbins == m.nbins
              && (forall p :: 0 <= p < m.Npix() ==>
                    && f.Count(p) == (if mask[p] > 0 then m.Count(p) else 0)
                    && Column(f, p) == if mask[p] > 0 then Column(m, p) else [])
  {
    if |mask| == m.Npix() {
      FoldMaskValid(m, mask);
      forall p | 0 <= p < m.Npix()
        ensures FoldMask(m, mask).value.Count(p) == if mask[p] > 0 then m.Count(p) else 0
        ensures Column(FoldMask(m, mask).value, p) == if mask[p] > 0 then Column(m, p) else []
      {
        FoldMaskColumn(m, mask, p);
      }
    }
  }

  predicate IsActive(mask: seq<nat>, p: nat) {
    p < |mask| && mask[p] > 0
  }

  lemma ColumnActive(m: Matrix, mask: seq<nat>, p: nat)
    requires m.Valid() && p < m.Npix()
    ensures Filter(Column(m, p), (a: Add) => IsActive(mask, a.pix)) == if IsActive(mask, p) then Column(m, p) else []
  {
    FilterAll(Column(m, p), (a: Add) => IsActive(mask, a.pix));
  }

  lemma {:induction false} TraceOfColumns(m: Matrix, f: Matrix, mask: seq<nat>, p: nat)
    requires m.Valid() && f.Valid() && p <= m.Npix() == f.Npix()
    requires forall q :: 0 <= q < p ==> Column(f, q) == if IsActive(mask, q) then Column(m, q) else []
    ensures TraceTo(f, p) == Filter(TraceTo(m, p), (a: Add) => IsActive(mask, a.pix))
  {
    if p > 0 {
      TraceOfColumns(m, f, mask, p - 1);
      ColumnActive(m, mask, p - 1);
      FilterConcat(TraceTo(m, p - 1), Column(m, p - 1), (a: Add) => IsActive(mask, a.pix));
    }
  }

  /** The trace of the folded matrix is the original one without the additions of
      masked pixels, in the same order. */
  lemma FoldMaskTrace(m: Matrix, mask: seq<nat>)
    requires m.Valid() && FoldMask(m, mask).Success?
    ensures FoldMask(m, mask).value.Valid()
    ensures Trace(FoldMask(m, mask).value) == Filter(Trace(m), (a: Add) => IsActive(mask, a.pix))
  {
    FoldMaskColumns(m, mask);
    TraceOfColumns(m, FoldMask(m, mask).value, mask, m.Npix());
  }

  /** A frame with its masked pixels set to zero. */
  function MaskedFrame(x: seq<real>, mask: seq<nat>): (r: seq<real>)
    ensures |r| == |x|
  {
    seq(|x|, p requires 0 <= p < |x| => if IsActive(mask, p) then x[p] else 0.0)
  }

  /** The product of the folded matrix is the product of the original one on the
      frame with its masked pixels zeroed. */
  lemma FoldMaskPowder(m: Matrix, mask: seq<nat>, x: seq<real>, b: nat)
    requires m.Valid() && FoldMask(m, mask).Success?
    ensures FoldMask(m, mask).value.Valid()
    ensures Powder(Trace(FoldMask(m, mask).value), x, b) == Powder(Trace(m), MaskedFrame(x, mask), b)
  {
    FoldMaskTrace(m, mask);
    FilteredPowder(Trace(m), mask, x, b);
  }

  lemma MaskedTerm(a: Add, mask: seq<nat>, x: seq<real>, b: nat)
    ensures Term(a, MaskedFrame(x, mask), b) == if IsActive(mask, a.pix) then Term(a, x, b) else 0.0
  {
    assert Pixel(MaskedFrame(x, mask), a.pix) == if IsActive(mask, a.pix) then Pixel(x, a.pix) else 0.0;
  }

  lemma FilteredPowder(t: seq<Add>, mask: seq<nat>, x: seq<real>, b: nat)
    ensures Powder(Filter(t, (a: Add) => IsActive(mask, a.pix)), x, b) == Powder(t, MaskedFrame(x, mask), b)
  {
    forall a | a in t ensures Term(a, MaskedFrame(x, mask), b) == if IsActive(mask, a.pix) then Term(a, x, b) else 0.0 {
      MaskedTerm(a, mask, x, b);
    }
    PowderFilter(t, (a: Add) => IsActive(mask, a.pix), MaskedFrame(x, mask), x, b);
  }
}
