/**
  The integer weights made as the source makes them: every weight rounded, then the
  array updated in place, q[biggest] += target - got.
*/
module FixedPointFill {
  import opened Csc
  import opened FixedPoint
  import opened FixedPointColumns
  import opened Numpy
  import Padded
  import PaddedProof
  import opened Product

  /** No entry is the biggest of two pixels, so the fancy-indexed update of the array
      loses none of the residuals. */
  lemma BiggestDistinct(m: Matrix, w: seq<real>, p: nat, p': nat)
    requires m.Valid() && |w| == |m.indices| && p < p' < m.Npix() && m.Count(p) > 0 && m.Count(p') > 0
    ensures Biggest(m, w, p) < Biggest(m, w, p')
  {
    assert m.indptr[p + 1] <= m.indptr[p'];
  }

  // ---- the columns that have entries --------------------------------------

  lemma OccupiedAt(m: Matrix, i: nat)
    requires m.Valid() && i < |Occupied(m)|
    ensures Occupied(m)[i] < m.Npix() && m.Count(Occupied(m)[i]) > 0
    ensures |Padded.RowPixels(m, true, Occupied(m)[i])| == i
  {
    PaddedProof.RowPixelsRow(m, true, m.Npix(), i);
  }

  lemma OccupiedBack(m: Matrix, p: nat) returns (i: nat)
    requires m.Valid() && p < m.Npix() && m.Count(p) > 0
    ensures i < |Occupied(m)| && Occupied(m)[i] == p && i == |Padded.RowPixels(m, true, p)|
  {
    PaddedProof.RowPixelsAt(m, true, p, m.Npix());
    i := |Padded.RowPixels(m, true, p)|;
  }

  lemma OccupiedAscends(m: Matrix, i: nat, j: nat)
    requires m.Valid() && i < j < |Occupied(m)|
    ensures Occupied(m)[i] < Occupied(m)[j]
  {
    OccupiedAt(m, i);
    OccupiedAt(m, j);
    PaddedProof.RowPixelsAscend(m, true, m.Npix());
  }

  /** No pixel between two neighbours of the list has entries. */
  lemma NoneBetween(m: Matrix, i: nat, q: nat)
    requires m.Valid() && i < |Occupied(m)| && Occupied(m)[i] < q < m.Npix()
    requires i + 1 < |Occupied(m)| ==> q < Occupied(m)[i + 1]
    ensures m.Count(q) == 0
  {
    if m.Count(q) > 0 {
      var j := OccupiedBack(m, q);
      OccupiedAt(m, i);
      if j < i { OccupiedAscends(m, j, i); }
      if j > i + 1 { OccupiedAscends(m, i + 1, j); }
    }
  }

  lemma {:induction false} EmptyColumns(m: Matrix, a: nat, b: nat)
    requires m.Valid() && a <= b <= m.Npix() && forall q :: a <= q < b ==> m.Count(q) == 0
    ensures m.indptr[a] == m.indptr[b]
  {
    if a < b {
      EmptyColumns(m, a, b - 1);
      assert m.Count(b - 1) == 0;
    }
  }

  /** Where the segment of np.add.reduceat that starts at first[i] ends. */
  function SegmentEnd(m: Matrix, i: nat): nat
    requires m.Valid() && i < |Occupied(m)|
  {
    if i + 1 < |Occupied(m)| then OccupiedAt(m, i + 1); m.indptr[Occupied(m)[i + 1]] else |m.indices|
  }

  /** The segments between the first entries of the columns that have some are those
      columns: the empty ones in between take no entries. */
  lemma SegmentIsColumn(m: Matrix, i: nat)
    requires m.Valid() && i < |Occupied(m)|
    ensures Occupied(m)[i] < m.Npix() && SegmentEnd(m, i) == m.indptr[Occupied(m)[i] + 1]
  {
    OccupiedAt(m, i);
    var p := Occupied(m)[i];
    var next := if i + 1 < |Occupied(m)| then Occupied(m)[i + 1] else m.Npix();
    if i + 1 < |Occupied(m)| {
      OccupiedAt(m, i + 1);
      OccupiedAscends(m, i, i + 1);
    }
    forall q | p + 1 <= q < next ensures m.Count(q) == 0 { NoneBetween(m, i, q); }
    EmptyColumns(m, p + 1, next);
  }

  // ---- target and got -----------------------------------------------------

  /** np.add.reduceat(w, first), one sum per column with entries. */
  method SumColumns(m: Matrix, w: seq<real>) returns (sums: seq<real>)
    requires m.Valid() && |w| == |m.indices|
    ensures |sums| == |Occupied(m)|
    ensures forall i :: 0 <= i < |sums| ==> IsColumn(m, Occupied(m)[i]) && sums[i] == SumOf(m, w, Occupied(m)[i])
  {
    sums := [];
    for i := 0 to |Occupied(m)|
      invariant |sums| == i
      invariant forall k :: 0 <= k < i ==> IsColumn(m, Occupied(m)[k]) && sums[k] == SumOf(m, w, Occupied(m)[k])
    {
      OccupiedAt(m, i);
      SegmentIsColumn(m, i);
      var lo, hi := m.indptr[Occupied(m)[i]], SegmentEnd(m, i);
      assert hi <= m.indptr[m.Npix()];
      var sum, k := 0.0, lo;
      while k < hi
        invariant lo <= k <= hi && sum == SumReal(w, lo, k)
      {
        sum := sum + w[k];
        k := k + 1;
      }
      sums := sums + [sum];
    }
  }

  method SumIntColumns(m: Matrix, q: seq<int>) returns (sums: seq<int>)
    requires m.Valid() && |q| == |m.indices|
    ensures |sums| == |Occupied(m)|
    ensures forall i :: 0 <= i < |sums| ==> IsColumn(m, Occupied(m)[i]) && sums[i] == SumIntOf(m, q, Occupied(m)[i])
  {
    sums := [];
    for i := 0 to |Occupied(m)|
      invariant |sums| == i
      invariant forall k :: 0 <= k < i ==> IsColumn(m, Occupied(m)[k]) && sums[k] == SumIntOf(m, q, Occupied(m)[k])
    {
      OccupiedAt(m, i);
      SegmentIsColumn(m, i);
      var lo, hi := m.indptr[Occupied(m)[i]], SegmentEnd(m, i);
      assert hi <= m.indptr[m.Npix()];
      var sum, k := 0, lo;
      while k < hi
        invariant lo <= k <= hi && sum == SumInt(q, lo, k)
      {
        sum := sum + q[k];
        k := k + 1;
      }
      sums := sums + [sum];
    }
  }

  // ---- the largest weight of every column ---------------------------------

  /** np.maximum.reduceat(w, first), put where the columns are. */
  method ColumnMaxima(m: Matrix, w: seq<real>) returns (colmax: array<real>)
    requires m.Valid() && |w| == |m.indices|
    ensures fresh(colmax) && colmax.Length == m.Npix()
    ensures forall p :: 0 <= p < m.Npix() && m.Count(p) > 0 ==> colmax[p] == w[Biggest(m, w, p)]
  {
    colmax := new real[m.Npix()](_ => 0.0);
    for p := 0 to m.Npix()
      invariant forall r :: 0 <= r < p && m.Count(r) > 0 ==> colmax[r] == w[Biggest(m, w, r)]
    {
      if m.Count(p) > 0 {
        var lo, hi := m.indptr[p], m.indptr[p + 1];
        assert hi <= m.indptr[m.Npix()];
        var best, k := w[lo], lo + 1;
        while k < hi
          invariant lo < k <= hi && best == w[FirstMax(w, lo, k)]
        {
          if w[k] > best { best := w[k]; }
          k := k + 1;
        }
        colmax[p] := best;
      }
    }
  }

  /** The first largest entries of the columns ascend with the columns. */
  lemma BiggestAscends(m: Matrix, w: seq<real>, i: nat, j: nat)
    requires m.Valid() && |w| == |m.indices| && i < j < |Occupied(m)|
    requires Later(m, w, Occupied(m)[i], 0) && Later(m, w, Occupied(m)[j], 0)
    ensures Biggest(m, w, Occupied(m)[i]) < Biggest(m, w, Occupied(m)[j])
  {
    OccupiedAscends(m, i, j);
    BiggestDistinct(m, w, Occupied(m)[i], Occupied(m)[j]);
  }

  lemma AllLater(m: Matrix, w: seq<real>)
    requires m.Valid() && |w| == |m.indices|
    ensures forall i :: 0 <= i < |Occupied(m)| ==> Later(m, w, Occupied(m)[i], 0)
  {
    forall i | 0 <= i < |Occupied(m)| ensures Later(m, w, Occupied(m)[i], 0) { OccupiedAt(m, i); }
  }

  /** Entry k is the first largest of its own column or of none. */
  lemma OfOwnColumn(m: Matrix, w: seq<real>, r: nat, p: nat, k: nat)
    requires m.Valid() && |w| == |m.indices| && p < m.Npix() && m.indptr[p] <= k < m.indptr[p + 1]
    ensures IsBiggest(m, w, r, k) ==> r == p
  {
    if IsBiggest(m, w, r, k) {
      PixOfColumn(m, r, k);
      PixOfColumn(m, p, k);
    }
  }

  lemma FoundBelow(m: Matrix, w: seq<real>, biggest: seq<nat>, k: nat, i: nat)
    requires m.Valid() && |w| == |m.indices| && Found(m, w, biggest, k) && i < |biggest|
    ensures IsBiggest(m, w, Occupied(m)[i], biggest[i]) && Biggest(m, w, Occupied(m)[i]) < k
  {
  }

  lemma NotFoundBelow(m: Matrix, w: seq<real>, biggest: seq<nat>, k: nat, i: nat)
    requires m.Valid() && |w| == |m.indices| && Found(m, w, biggest, k) && |biggest| <= i < |Occupied(m)|
    ensures Later(m, w, Occupied(m)[i], 0) && k <= Biggest(m, w, Occupied(m)[i])
  {
    assert Later(m, w, Occupied(m)[i], k);
  }

  /** The column of a first largest entry is the first that has not been found. */
  lemma NextIsNew(m: Matrix, w: seq<real>, biggest: seq<nat>, k: nat, p: nat) returns (j: nat)
    requires m.Valid() && |w| == |m.indices| && k < |w| && Found(m, w, biggest, k) && IsBiggest(m, w, p, k)
    ensures j == |biggest| < |Occupied(m)| && Occupied(m)[j] == p
  {
    j := OccupiedBack(m, p);
    AllLater(m, w);
    if j < |biggest| {
      FoundBelow(m, w, biggest, k, j);
    } else if j > |biggest| {
      NotFoundBelow(m, w, biggest, k, |biggest|);
      BiggestAscends(m, w, |biggest|, j);
    }
  }

  /** The column of an entry that repeats its largest is the last that has been found. */
  lemma RepeatIsLast(m: Matrix, w: seq<real>, biggest: seq<nat>, k: nat, p: nat) returns (j: nat)
    requires m.Valid() && |w| == |m.indices| && k < |w| && Found(m, w, biggest, k)
    requires p < m.Npix() && m.indptr[p] <= k < m.indptr[p + 1] && Biggest(m, w, p) < k
    ensures j + 1 == |biggest| <= |Occupied(m)| && Occupied(m)[j] == p
  {
    j := OccupiedBack(m, p);
    var n := |biggest|;
    if j >= n {
      NotFoundBelow(m, w, biggest, k, j);
    } else if j + 1 < n {
      FoundBelow(m, w, biggest, k, n - 1);
      OccupiedAscends(m, j, n - 1);
    }
  }

  /** An entry that is no column's first largest changes nothing. */
  lemma Passes(m: Matrix, w: seq<real>, biggest: seq<nat>, k: nat)
    requires m.Valid() && |w| == |m.indices| && k < |w| && Found(m, w, biggest, k)
    requires forall i :: |biggest| <= i < |Occupied(m)| ==> !IsBiggest(m, w, Occupied(m)[i], k)
    ensures Found(m, w, biggest, k + 1)
  {
    forall i | |biggest| <= i < |Occupied(m)| ensures Later(m, w, Occupied(m)[i], k + 1) {
      assert Later(m, w, Occupied(m)[i], k) && !IsBiggest(m, w, Occupied(m)[i], k);
    }
  }

  lemma Appends(m: Matrix, w: seq<real>, biggest: seq<nat>, k: nat)
    requires m.Valid() && |w| == |m.indices| && k < |w| && Found(m, w, biggest, k) && |biggest| < |Occupied(m)|
    requires IsBiggest(m, w, Occupied(m)[|biggest|], k)
    ensures Found(m, w, biggest + [k], k + 1)
  {
    var n := |biggest|;
    AllLater(m, w);
    forall i | n + 1 <= i < |Occupied(m)| ensures Later(m, w, Occupied(m)[i], k + 1) { BiggestAscends(m, w, n, i); }
  }

  lemma CandidateIsLate(m: Matrix, w: seq<real>, p: nat, k: nat)
    requires m.Valid() && |w| == |m.indices| && p < m.Npix() && m.indptr[p] <= k < m.indptr[p + 1]
    ensures k < |w| && m.Count(p) > 0
    ensures w[k] == w[Biggest(m, w, p)] ==> Biggest(m, w, p) <= k
    ensures Biggest(m, w, p) == k ==> w[k] == w[Biggest(m, w, p)]
  {
    assert m.indptr[p + 1] <= m.indptr[m.Npix()];
  }

  lemma LastIsOther(m: Matrix, biggest: seq<nat>, p: nat, j: nat)
    requires m.Valid() && j == |biggest| < |Occupied(m)| && Occupied(m)[j] == p
    ensures |biggest| == 0 || Occupied(m)[|biggest| - 1] != p
  {
    if |biggest| > 0 { OccupiedAscends(m, |biggest| - 1, j); }
  }

  lemma Kept(m: Matrix, w: seq<real>, biggest: seq<nat>, k: nat, p: nat, last: int)
    requires m.Valid() && |w| == |m.indices| && k < |w| && Found(m, w, biggest, k) && LastOf(m, biggest, last)
    requires IsBiggest(m, w, p, k)
    ensures last != p && |biggest| < |Occupied(m)| && Occupied(m)[|biggest|] == p && Found(m, w, biggest + [k], k + 1)
  {
    var j := NextIsNew(m, w, biggest, k, p);
    LastIsOther(m, biggest, p, j);
    Appends(m, w, biggest, k);
  }

  lemma Skipped(m: Matrix, w: seq<real>, biggest: seq<nat>, k: nat, p: nat)
    requires m.Valid() && |w| == |m.indices| && k < |w| && Found(m, w, biggest, k)
    requires p < m.Npix() && m.indptr[p] <= k < m.indptr[p + 1] && Biggest(m, w, p) != k
    ensures Found(m, w, biggest, k + 1)
  {
    forall i | |biggest| <= i < |Occupied(m)| ensures !IsBiggest(m, w, Occupied(m)[i], k) {
      OfOwnColumn(m, w, Occupied(m)[i], p, k);
    }
    Passes(m, w, biggest, k);
  }

  /** Whether entry k has its column's largest weight. */
  predicate Candidate(m: Matrix, w: seq<real>, k: nat, p: nat)
    requires m.Valid() && |w| == |m.indices| && k < |w| && p < m.Npix() && m.Count(p) > 0
  {
    w[k] == w[Biggest(m, w, p)]
  }

  /** One entry: a candidate whose column is new is kept, any other leaves all as it is. */
  lemma FindStep(m: Matrix, w: seq<real>, biggest: seq<nat>, k: nat, p: nat, last: int)
    requires m.Valid() && |w| == |m.indices| && k < |w| && Found(m, w, biggest, k) && LastOf(m, biggest, last)
    requires p < m.Npix() && m.indptr[p] <= k < m.indptr[p + 1]
    ensures if Candidate(m, w, k, p) && last != p then |biggest| < |Occupied(m)| && Found(m, w, biggest + [k], k + 1) && LastOf(m, biggest + [k], p)
            else Found(m, w, biggest, k + 1) && (Candidate(m, w, k, p) ==> LastOf(m, biggest, p))
  {
    CandidateIsLate(m, w, p, k);
    if Biggest(m, w, p) == k {
      Kept(m, w, biggest, k, p, last);
    } else {
      Skipped(m, w, biggest, k, p);
      if Biggest(m, w, p) < k { var j := RepeatIsLast(m, w, biggest, k, p); }
    }
  }

  lemma NoneFound(m: Matrix, w: seq<real>)
    requires m.Valid() && |w| == |m.indices|
    ensures Found(m, w, [], 0) && LastOf(m, [], -1)
  {
    AllLater(m, w);
  }

  /** Past the last entry every column has been found. */
  lemma FoundAll(m: Matrix, w: seq<real>, biggest: seq<nat>)
    requires m.Valid() && |w| == |m.indices| && Found(m, w, biggest, |w|)
    ensures |biggest| == |Occupied(m)|
    ensures forall i :: 0 <= i < |biggest| ==> biggest[i] < |w| && IsBiggest(m, w, Occupied(m)[i], biggest[i])
  {
    if |biggest| < |Occupied(m)| { NotFoundBelow(m, w, biggest, |w|, |biggest|); }
  }

  /** The column of an entry, from np.repeat. */
  method ColumnOf(m: Matrix, pix: seq<nat>, k: nat) returns (p: nat)
    requires m.Valid() && pix == Pix(m) && k < |m.indices|
    ensures p < m.Npix() && m.indptr[p] <= k < m.indptr[p + 1] && m.Count(p) > 0
  {
    PixAt(m, k);
    p := pix[k];
  }

  /** cand[keep] in one pass: an entry that has its column's largest weight is kept when
      the candidate before it is of another column; a tie goes to the first one. */
  method FindBiggest(m: Matrix, w: seq<real>, colmax: seq<real>) returns (biggest: seq<nat>)
    requires m.Valid() && |w| == |m.indices| && |colmax| == m.Npix()
    requires forall p :: 0 <= p < m.Npix() && m.Count(p) > 0 ==> colmax[p] == w[Biggest(m, w, p)]
    ensures |biggest| == |Occupied(m)|
    ensures forall i :: 0 <= i < |biggest| ==> biggest[i] < |w| && IsBiggest(m, w, Occupied(m)[i], biggest[i])
  {
    var pix := Pix(m);
    biggest := [];
    var last: int := -1;
    NoneFound(m, w);
    for k := 0 to |w|
      invariant Found(m, w, biggest, k) && LastOf(m, biggest, last)
    {
      var p := ColumnOf(m, pix, k);
      FindStep(m, w, biggest, k, p, last);
      assert Candidate(m, w, k, p) <==> w[k] == colmax[p];
      if w[k] == colmax[p] {
        if last != p { biggest := biggest + [k]; }
        last := p;
      }
    }
    FoundAll(m, w, biggest);
  }

  // ---- the update ---------------------------------------------------------

  /** q[biggest] += target - got */
  method AddResiduals(m: Matrix, w: seq<real>, biggest: seq<nat>, residual: seq<int>, q: array<int>)
    requires m.Valid() && |w| == |m.indices| == q.Length && |biggest| == |residual| == |Occupied(m)|
    requires forall i :: 0 <= i < |biggest| ==> biggest[i] < q.Length && IsBiggest(m, w, Occupied(m)[i], biggest[i])
    modifies q
    ensures forall i :: 0 <= i < |biggest| ==> q[biggest[i]] == old(q[biggest[i]]) + residual[i]
    ensures forall k :: 0 <= k < q.Length && (forall i :: 0 <= i < |biggest| ==> biggest[i] != k) ==> q[k] == old(q[k])
  {
    AllLater(m, w);
    forall i, j | 0 <= i < j < |biggest| ensures biggest[i] != biggest[j] { BiggestAscends(m, w, i, j); }
    forall i | 0 <= i < |biggest| {
      q[biggest[i]] := q[biggest[i]] + residual[i];
    }
  }

  lemma UpdatedEntry(m: Matrix, w: seq<real>, biggest: seq<nat>, residual: seq<int>, q: seq<int>, k: nat)
    requires m.Valid() && |w| == |m.indices| == |q| && k < |w| && |biggest| == |residual| == |Occupied(m)|
    requires forall i :: 0 <= i < |biggest| ==> biggest[i] < |q| && IsBiggest(m, w, Occupied(m)[i], biggest[i])
    requires forall i :: 0 <= i < |biggest| ==> q[biggest[i]] == Rint(w[biggest[i]]) + residual[i]
    requires forall i :: 0 <= i < |biggest| ==> IsResidual(m, w, Occupied(m)[i], residual[i])
    requires (forall i :: 0 <= i < |biggest| ==> biggest[i] != k) ==> q[k] == Rint(w[k])
    ensures q[k] == AllAdjusted(m, w)[k]
  {
    PixAt(m, k);
    var p := Pix(m)[k];
    var j := OccupiedBack(m, p);
    if k == Biggest(m, w, p) {
      assert biggest[j] == k && IsResidual(m, w, p, residual[j]);
    } else {
      forall i | 0 <= i < |biggest| ensures biggest[i] != k {
        OccupiedAt(m, i);
        OfOwnColumn(m, w, Occupied(m)[i], p, k);
      }
    }
  }

  /** target - got, per column with entries. */
  method Residuals(m: Matrix, w: seq<real>) returns (residual: seq<int>)
    requires m.Valid() && |w| == |m.indices|
    ensures |residual| == |Occupied(m)|
    ensures forall i :: 0 <= i < |residual| ==> IsResidual(m, w, Occupied(m)[i], residual[i])
  {
    var target := SumColumns(m, w);
    var got := SumIntColumns(m, Rounded(w));
    residual := seq(|target|, i requires 0 <= i < |target| => Rint(target[i]) - got[i]);
  }

  /** Round every weight, then put what rounding changed in each column on its largest. */
  method Adjust(m: Matrix, w: seq<real>) returns (q: array<int>)
    requires m.Valid() && |w| == |m.indices|
    ensures fresh(q) && q[..] == AllAdjusted(m, w)
  {
    q := new int[|w|](k requires 0 <= k < |w| => Rint(w[k]));
    var residual := Residuals(m, w);
    var colmax := ColumnMaxima(m, w);
    var biggest := FindBiggest(m, w, colmax[..]);
    AddResiduals(m, w, biggest, residual, q);
    forall k | 0 <= k < |w| ensures q[k] == AllAdjusted(m, w)[k] {
      UpdatedEntry(m, w, biggest, residual, q[..], k);
    }
  }

  /** (q < 0).any(), then q.max() > limit. */
  method CheckWeights(q: seq<int>, wlimit: nat) returns (r: Result<seq<int>>)
    ensures r == if exists k :: 0 <= k < |q| && q[k] < 0 then Refused(NegativeWeight)
                 else if exists k :: 0 <= k < |q| && q[k] > wlimit then Refused(WeightOverflow)
                 else Success(q)
  {
    for k := 0 to |q|
      invariant forall i :: 0 <= i < k ==> q[i] >= 0
    {
      if q[k] < 0 { return Refused(NegativeWeight); }
    }
    for k := 0 to |q|
      invariant forall i :: 0 <= i < k ==> q[i] <= wlimit
    {
      if q[k] > wlimit { return Refused(WeightOverflow); }
    }
    return Success(q);
  }

  /** _quantise computes the weights that FixedPointProof reasons about. */
  method Build(m: Matrix, b: nat, wlimit: nat) returns (r: Result<seq<int>>)
    requires m.Valid()
    ensures r == Quantise(m, b, wlimit)
  {
    var clamped := Clamped(m.data);
    if clamped.Refused? { return Refused(clamped.reason); }
    var q := Adjust(m, Scaled(clamped.value, b));
    r := CheckWeights(q[..], wlimit);
  }
}
