/**
  Collecting the unmasked pixels above a cut: the scalar loop and the two vector loops
  that skip a vector without a lane above the cut and finish with a scalar tail.
*/
module Collect {
  /** A collected pixel: its value and its index in the block. */
  datatype Hit = Hit(value: nat, adr: nat)

  predicate Wanted(block: seq<nat>, mask: seq<nat>, cut: nat, j: nat)
    requires j < |block| && |mask| == |block|
  {
    mask[j] > 0 && block[j] > cut
  }

  /** The hits among the first n pixels, in order. */
  function Hits(block: seq<nat>, mask: seq<nat>, cut: nat, n: nat): (r: seq<Hit>)
    requires n <= |block| && |mask| == |block|
    ensures |r| <= n
  {
    if n == 0 then []
    else if Wanted(block, mask, cut, n - 1) then Hits(block, mask, cut, n - 1) + [Hit(block[n - 1], n - 1)]
    else Hits(block, mask, cut, n - 1)
  }

  /** Addresses ascend, and a pixel is collected, with its value, exactly when it is not
      masked and above the cut. */
  lemma {:induction false} HitsExactly(block: seq<nat>, mask: seq<nat>, cut: nat, n: nat)
    requires n <= |block| && |mask| == |block|
    ensures var r := Hits(block, mask, cut, n);
            && (forall i, k :: 0 <= i < k < |r| ==> r[i].adr < r[k].adr)
            && (forall i :: 0 <= i < |r| ==> r[i].adr < n && r[i].value == block[r[i].adr])
            && (forall j :: 0 <= j < n ==> (Wanted(block, mask, cut, j) <==> Hit(block[j], j) in r))
  {
    if n > 0 { HitsExactly(block, mask, cut, n - 1); }
  }

  /** A vector of pixels none of which is above the cut adds nothing, whatever the mask. */
  lemma {:induction false} SkippedAddNothing(block: seq<nat>, mask: seq<nat>, cut: nat, j: nat, n: nat)
    requires j <= n <= |block| && |mask| == |block|
    requires forall k :: j <= k < n ==> block[k] <= cut
    ensures Hits(block, mask, cut, n) == Hits(block, mask, cut, j)
  {
    if j < n { SkippedAddNothing(block, mask, cut, j, n - 1); }
  }

  // ---- vector instructions ------------------------------------------------

  /** vcgtq, vec_cmpgt: all ones in the lanes above the cut. */
  function GreaterThan(v: seq<nat>, cut: nat, ones: nat): (gt: seq<nat>)
    ensures |gt| == |v| && forall lane :: 0 <= lane < |v| ==> gt[lane] == if v[lane] > cut then ones else 0
  {
    seq(|v|, lane requires 0 <= lane < |v| => if v[lane] > cut then ones else 0)
  }

  /** vmaxvq */
  function MaxLane(v: seq<nat>): (m: nat)
    ensures forall lane :: 0 <= lane < |v| ==> v[lane] <= m
    ensures m == 0 || m in v
  {
    if v == [] then 0
    else
      var rest := MaxLane(v[..|v| - 1]);
      if v[|v| - 1] > rest then v[|v| - 1] else rest
  }

  /** vec_any_gt */
  predicate AnyAbove(v: seq<nat>, cut: nat) {
    exists lane :: 0 <= lane < |v| && v[lane] > cut
  }

  // ---- the loops ----------------------------------------------------------

  function Out(vals: array<nat>, adr: array<nat>, npx: nat): (r: seq<Hit>)
    requires npx <= vals.Length && npx <= adr.Length
    reads vals, adr
    ensures |r| == npx && forall i :: 0 <= i < npx ==> r[i] == Hit(vals[i], adr[i])
  {
    seq(npx, i requires 0 <= i < npx reads vals, adr => Hit(vals[i], adr[i]))
  }

  method Store(vals: array<nat>, adr: array<nat>, npx: nat, value: nat, at: nat) returns (r: nat)
    requires npx < vals.Length && npx < adr.Length && vals != adr
    modifies vals, adr
    ensures r == npx + 1 && Out(vals, adr, r) == old(Out(vals, adr, npx)) + [Hit(value, at)]
  {
    vals[npx] := value;
    adr[npx] := at;
    r := npx + 1;
  }

  /** The scalar loop from pixel j on. */
  method Tail(block: seq<nat>, mask: seq<nat>, cut: nat, from: nat, vals: array<nat>, adr: array<nat>, npx0: nat) returns (npx: nat)
    requires |mask| == |block| && |block| <= vals.Length && |block| <= adr.Length && vals != adr
    requires from <= |block| && npx0 <= from && Out(vals, adr, npx0) == Hits(block, mask, cut, from)
    modifies vals, adr
    ensures npx <= |block| && Out(vals, adr, npx) == Hits(block, mask, cut, |block|)
  {
    npx := npx0;
    for j := from to |block|
      invariant npx <= j && Out(vals, adr, npx) == Hits(block, mask, cut, j)
    {
      if mask[j] > 0 && block[j] > cut { npx := Store(vals, adr, npx, block[j], j); }
    }
  }

  method CollectScalar(block: seq<nat>, mask: seq<nat>, cut: nat, vals: array<nat>, adr: array<nat>) returns (npx: nat)
    requires |mask| == |block| && |block| <= vals.Length && |block| <= adr.Length && vals != adr
    modifies vals, adr
    ensures npx <= |block| && Out(vals, adr, npx) == Hits(block, mask, cut, |block|)
  {
    npx := Tail(block, mask, cut, 0, vals, adr, 0);
  }

  /** The lanes of one vector, by the comparison result. */
  method Lanes(block: seq<nat>, mask: seq<nat>, cut: nat, v: seq<nat>, gt: seq<nat>, j: nat, ones: nat, vals: array<nat>, adr: array<nat>, npx0: nat)
      returns (npx: nat)
    requires |mask| == |block| && |block| <= vals.Length && |block| <= adr.Length && vals != adr
    requires j + |v| <= |block| && v == block[j..j + |v|] && gt == GreaterThan(v, cut, ones) && ones > 0
    requires npx0 <= j && Out(vals, adr, npx0) == Hits(block, mask, cut, j)
    modifies vals, adr
    ensures npx <= j + |v| && Out(vals, adr, npx) == Hits(block, mask, cut, j + |v|)
  {
    npx := npx0;
    for lane := 0 to |v|
      invariant npx <= j + lane && Out(vals, adr, npx) == Hits(block, mask, cut, j + lane)
    {
      assert v[lane] == block[j + lane];
      if mask[j + lane] > 0 && gt[lane] != 0 { npx := Store(vals, adr, npx, v[lane], j + lane); }
    }
  }

  /** The NEON loop: skip a vector when the largest lane of the comparison is zero. */
  method CollectNeon(block: seq<nat>, mask: seq<nat>, cut: nat, lanes: nat, ones: nat, vals: array<nat>, adr: array<nat>) returns (npx: nat)
    requires |mask| == |block| && |block| <= vals.Length && |block| <= adr.Length && vals != adr
    requires lanes >= 1 && ones > 0
    modifies vals, adr
    ensures npx <= |block| && Out(vals, adr, npx) == Hits(block, mask, cut, |block|)
  {
    npx := 0;
    var j := 0;
    while j + lanes <= |block|
      invariant j <= |block| && npx <= j && Out(vals, adr, npx) == Hits(block, mask, cut, j)
    {
      var v := block[j..j + lanes];
      var gt := GreaterThan(v, cut, ones);
      if MaxLane(gt) == 0 {
        forall k | j <= k < j + lanes ensures block[k] <= cut {
          assert v[k - j] == block[k] && gt[k - j] == 0;
        }
        SkippedAddNothing(block, mask, cut, j, j + lanes);
      } else {
        npx := Lanes(block, mask, cut, v, gt, j, ones, vals, adr, npx);
      }
      j := j + lanes;
    }
    npx := Tail(block, mask, cut, j, vals, adr, npx);
  }

  /** The VSX loop: skip a vector when no lane is above the cut. */
  method CollectVsx(block: seq<nat>, mask: seq<nat>, cut: nat, lanes: nat, ones: nat, vals: array<nat>, adr: array<nat>) returns (npx: nat)
    requires |mask| == |block| && |block| <= vals.Length && |block| <= adr.Length && vals != adr
    requires lanes >= 1 && ones > 0
    modifies vals, adr
    ensures npx <= |block| && Out(vals, adr, npx) == Hits(block, mask, cut, |block|)
  {
    npx := 0;
    var j := 0;
    while j + lanes <= |block|
      invariant j <= |block| && npx <= j && Out(vals, adr, npx) == Hits(block, mask, cut, j)
    {
      var v := block[j..j + lanes];
      if !AnyAbove(v, cut) {
        forall k | j <= k < j + lanes ensures block[k] <= cut {
          assert v[k - j] == block[k];
        }
        SkippedAddNothing(block, mask, cut, j, j + lanes);
      } else {
        npx := Lanes(block, mask, cut, v, GreaterThan(v, cut, ones), j, ones, vals, adr, npx);
      }
      j := j + lanes;
    }
    npx := Tail(block, mask, cut, j, vals, adr, npx);
  }
}
