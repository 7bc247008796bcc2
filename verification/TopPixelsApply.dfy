/** The selection in numpy: top_pixels on one row of the batch, apply on every row. */
module TopPixelsApply {
  import opened Layouts
  import opened TopPixels
  import opened TopPixelsProof
  import opened TopPixelsRun

  /** The first n pixels of frame i. */
  function Row(values: array2<real>, indices: array2<nat>, i: nat, n: nat): (r: seq<Pixel>)
    requires Frames(values, indices) && i < values.Length0 && n <= values.Length1
    reads values, indices
    ensures |r| == n
  {
    seq(n, j requires 0 <= j < n reads values, indices => Pixel(values[i, j], indices[i, j]))
  }

  predicate Frames(values: array2<real>, indices: array2<nat>) {
    values.Length0 == indices.Length0 && values.Length1 == indices.Length1
  }

  function CutUsed(thr: seq<Threshold>, level: int): Option<Threshold>
    requires level < |thr|
  {
    if level < 0 then None else Some(thr[level])
  }

  /** np.count_nonzero(_above(v, t)) */
  method CountAbove(list: seq<Pixel>, t: Threshold) returns (count: nat)
    ensures count == |Keep(list, t)|
  {
    count := 0;
    for j := 0 to |list|
      invariant count == |Keep(list[..j], t)|
    {
      KeepNext(list, j, t);
      if Above(list[j].value, t) { count := count + 1; }
    }
    assert list[..|list|] == list;
  }

  /** top_pixels on frame i: (n kept, the cut applied or None, how many were above it). */
  method SelectRow(values: array2<real>, indices: array2<nat>, i: nat, nnz: nat, howmany: nat, thr: seq<Threshold>)
      returns (n: nat, tcut: Option<Threshold>, nabove: nat)
    requires Frames(values, indices) && i < values.Length0 && nnz <= values.Length1
    modifies values, indices
    ensures var s := Select(old(Row(values, indices, i, nnz)), howmany, thr);
            && n <= nnz && Row(values, indices, i, n) == s.kept && nabove == s.nabove
            && s.level < |thr| && tcut == CutUsed(thr, s.level)
    ensures forall f, j :: 0 <= f < values.Length0 && 0 <= j < values.Length1 && (f != i || j >= n) ==>
              values[f, j] == old(values[f, j]) && indices[f, j] == old(indices[f, j])
  {
    if nnz <= howmany { return nnz, None, nnz; }
    var v := Row(values, indices, i, nnz);
    SelectMeans(v, howmany, thr);
    var keep;
    if |thr| == 0 {
      tcut := None;
      keep, nabove := v[..howmany], nnz;
    } else {
      var level := |thr| - 1;
      var k := 0;
      while k < |thr|
        invariant k <= |thr| && (k == |thr| ==> level == |thr| - 1)
        invariant k < |thr| ==> level == |thr| - 1 && FirstBelow(v, howmany, thr, 0) == FirstBelow(v, howmany, thr, k)
        invariant k == |thr| ==> FirstBelow(v, howmany, thr, 0) == |thr| - 1
        modifies {}
      {
        var count := CountAbove(v, thr[k]);
        if count < howmany {
          level := k;
          break;
        }
        k := k + 1;
      }
      tcut := Some(thr[level]);
      var above := Keep(v, thr[level]);
      nabove := |above|;
      keep := First(above, howmany);
    }
    n := |keep|;
    for j := 0 to n
      invariant forall l :: 0 <= l < j ==> Pixel(values[i, l], indices[i, l]) == keep[l]
      invariant forall f, l :: 0 <= f < values.Length0 && 0 <= l < values.Length1 && (f != i || l >= j) ==>
                  values[f, l] == old(values[f, l]) && indices[f, l] == old(indices[f, l])
    {
      values[i, j], indices[i, j] := keep[j].value, keep[j].adr;
    }
    assert Row(values, indices, i, n) == keep;
  }

  /** apply: every frame of a batch; the counts are replaced by what is kept. */
  method Apply(npx: array<nat>, values: array2<real>, indices: array2<nat>, cut: real, howmany: Option<nat>, thr: seq<Threshold>)
      returns (nabove: seq<nat>, used: seq<Threshold>)
    requires Frames(values, indices) && npx.Length == values.Length0
    requires forall i :: 0 <= i < npx.Length ==> npx[i] <= values.Length1
    modifies npx, values, indices
    ensures |nabove| == |used| == npx.Length
    ensures forall i :: 0 <= i < npx.Length ==> npx[i] <= old(npx[i]) <= values.Length1
    ensures howmany.None? ==> npx[..] == old(npx[..]) && nabove == old(npx[..]) && used == seq(npx.Length, _ => Fin(cut))
    ensures forall i :: 0 <= i < npx.Length && howmany.Some? ==>
              var s := Select(old(Row(values, indices, i, npx[i])), howmany.value, thr);
              && Row(values, indices, i, npx[i]) == s.kept && nabove[i] == s.nabove
              && s.level < |thr| && used[i] == (if s.level < 0 then Fin(cut) else thr[s.level])
  {
    nabove := npx[..];
    used := seq(npx.Length, _ => Fin(cut));
    if howmany.None? { return; }
    ghost var vals, adrs := RowsOf(values, indices), npx[..];
    for i := 0 to npx.Length
      invariant |nabove| == |used| == npx.Length
      invariant forall f :: i <= f < npx.Length ==> npx[f] == adrs[f] == nabove[f] && used[f] == Fin(cut)
      invariant forall f :: 0 <= f < npx.Length ==> npx[f] <= adrs[f] <= values.Length1
      invariant forall f :: i <= f < npx.Length ==> Row(values, indices, f, values.Length1) == vals[f]
      invariant forall f :: 0 <= f < i ==> Selected(Row(values, indices, f, npx[f]), nabove[f], used[f],
                                                    vals[f][..adrs[f]], cut, howmany.value, thr)
    {
      RowPrefix(values, indices, i, npx[i]);
      if nabove[i] > howmany.value {
        label before:
        var n, t, na := SelectRow(values, indices, i, npx[i], howmany.value, thr);
        npx[i] := n;
        nabove := nabove[i := na];
        if t.Some? { used := used[i := t.value]; }
        forall f | 0 <= f < npx.Length && f != i
          ensures Row(values, indices, f, npx[f]) == old@before(Row(values, indices, f, npx[f])) {
        }
        forall f | i < f < npx.Length ensures Row(values, indices, f, values.Length1) == vals[f] {
          assert forall l :: 0 <= l < values.Length1 ==> Row(values, indices, f, values.Length1)[l] == vals[f][l];
        }
      }
    }
    forall i | 0 <= i < npx.Length ensures vals[i][..adrs[i]] == old(Row(values, indices, i, npx[i])) {
    }
  }

  ghost predicate Selected(kept: seq<Pixel>, nabove: nat, used: Threshold, list: seq<Pixel>, cut: real, howmany: nat, thr: seq<Threshold>) {
    var s := Select(list, howmany, thr);
    kept == s.kept && nabove == s.nabove && s.level < |thr| && used == (if s.level < 0 then Fin(cut) else thr[s.level])
  }

  function RowsOf(values: array2<real>, indices: array2<nat>): (r: seq<seq<Pixel>>)
    requires Frames(values, indices)
    reads values, indices
    ensures |r| == values.Length0
    ensures forall i :: 0 <= i < |r| ==> r[i] == Row(values, indices, i, values.Length1)
  {
    seq(values.Length0, i requires 0 <= i < values.Length0 reads values, indices => Row(values, indices, i, values.Length1))
  }

  lemma RowPrefix(values: array2<real>, indices: array2<nat>, i: nat, n: nat)
    requires Frames(values, indices) && i < values.Length0 && n <= values.Length1
    ensures Row(values, indices, i, n) == Row(values, indices, i, values.Length1)[..n]
  {
  }
}
