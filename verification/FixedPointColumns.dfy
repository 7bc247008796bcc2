/** The columns that have entries, and what the selection of their largest weights keeps. */
module FixedPointColumns {
  import opened Csc
  import opened FixedPoint
  import Padded

  /** The pixels with entries, np.nonzero(has). */
  function Occupied(m: Matrix): seq<nat>
    requires m.Valid()
  {
    Padded.RowPixels(m, true, m.Npix())
  }

  predicate IsColumn(m: Matrix, p: nat)
    requires |m.indptr| >= 1
  {
    p < m.Npix() && m.indptr[p] < m.indptr[p + 1] <= |m.indices|
  }

  function SumOf(m: Matrix, w: seq<real>, p: nat): real
    requires |m.indptr| >= 1 && IsColumn(m, p) && |w| == |m.indices|
  {
    SumReal(w, m.indptr[p], m.indptr[p + 1])
  }

  function SumIntOf(m: Matrix, q: seq<int>, p: nat): int
    requires |m.indptr| >= 1 && IsColumn(m, p) && |q| == |m.indices|
  {
    SumInt(q, m.indptr[p], m.indptr[p + 1])
  }

  /** The first entry of column p that has its column's largest weight. */
  ghost predicate IsBiggest(m: Matrix, w: seq<real>, p: nat, k: nat)
    requires m.Valid() && |w| == |m.indices|
  {
    p < m.Npix() && m.Count(p) > 0 && k == Biggest(m, w, p)
  }

  /** What the candidates below entry k leave: the first of each column. */
  ghost predicate Found(m: Matrix, w: seq<real>, biggest: seq<nat>, k: nat)
    requires m.Valid() && |w| == |m.indices|
  {
    && |biggest| <= |Occupied(m)|
    && (forall i :: 0 <= i < |biggest| ==> IsBiggest(m, w, Occupied(m)[i], biggest[i]) && biggest[i] < k)
    && (forall i :: |biggest| <= i < |Occupied(m)| ==> Later(m, w, Occupied(m)[i], k))
  }

  ghost predicate Later(m: Matrix, w: seq<real>, p: nat, k: nat)
    requires m.Valid() && |w| == |m.indices|
  {
    p < m.Npix() && m.Count(p) > 0 && k <= Biggest(m, w, p)
  }

  /** The column of the last candidate, -1 before the first. */
  ghost predicate LastOf(m: Matrix, biggest: seq<nat>, last: int)
    requires m.Valid() && |biggest| <= |Occupied(m)|
  {
    if |biggest| == 0 then last == -1 else last == Occupied(m)[|biggest| - 1]
  }

  ghost predicate IsResidual(m: Matrix, w: seq<real>, p: nat, r: int)
    requires m.Valid() && |w| == |m.indices|
  {
    IsColumn(m, p) && r == Residual(w, m.indptr[p], m.indptr[p + 1])
  }
}
