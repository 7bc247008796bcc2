/**
  The numpy operations the matrix compiler is written with, as functions on
  sequences, and the facts about them that the layouts rest on.
*/
module Numpy {

  /** numpy.repeat: v[p] written n[p] times. */
  function Repeat<T>(v: seq<T>, n: seq<nat>): seq<T>
    requires |v| == |n|
  {
    if v == [] then []
    else
      var k := |v| - 1;
      Repeat(v[..k], n[..k]) + seq(n[k], _ => v[k])
  }

  /** concatenate(([0], cumsum(n))): where each group of n starts. */
  function Pointers(n: seq<nat>): (r: seq<nat>)
    ensures |r| == |n| + 1 && r[0] == 0
    ensures forall i, j :: 0 <= i <= j < |r| ==> r[i] <= r[j]
    ensures forall i :: 0 <= i < |n| ==> r[i + 1] == r[i] + n[i]
  {
    if n == [] then [0]
    else
      var r := Pointers(n[..|n| - 1]);
      r + [r[|n| - 1] + n[|n| - 1]]
  }

  function Arange(n: nat): (r: seq<nat>)
    ensures |r| == n && forall i :: 0 <= i < n ==> r[i] == i
  {
    seq(n, i => i)
  }

  lemma {:induction false} PointersPrefix(n: seq<nat>, q: nat)
    requires q <= |n|
    ensures Pointers(n[..q]) == Pointers(n)[..q + 1]
  {
    if q == |n| {
      assert n[..q] == n;
    } else {
      PointersPrefix(n[..|n| - 1], q);
      assert n[..|n| - 1][..q] == n[..q];
    }
  }

  lemma {:induction false} RepeatLength<T>(v: seq<T>, n: seq<nat>)
    requires |v| == |n|
    ensures |Repeat(v, n)| == Pointers(n)[|n|]
  {
    if v != [] {
      var k := |v| - 1;
      RepeatLength(v[..k], n[..k]);
      PointersPrefix(n, k);
    }
  }

  lemma {:induction false} RepeatAt<T>(v: seq<T>, n: seq<nat>, p: nat, k: nat)
    requires |v| == |n| && p < |n|
    requires Pointers(n)[p] <= k < Pointers(n)[p + 1]
    ensures k < |Repeat(v, n)| && Repeat(v, n)[k] == v[p]
  {
    RepeatLength(v, n);
    var q := |v| - 1;
    RepeatLength(v[..q], n[..q]);
    PointersPrefix(n, q);
    if p < q {
      RepeatAt(v[..q], n[..q], p, k);
    }
  }

  lemma {:induction false} StepsAscend(s: seq<nat>, i: nat, j: nat)
    requires i <= j < |s|
    requires forall k :: 0 < k < |s| ==> s[k - 1] <= s[k]
    ensures s[i] <= s[j]
  {
    if i < j { StepsAscend(s, i, j - 1); }
  }

  /** Numpy boolean indexing by a mask array of the same length. */
  function Compress<T>(s: seq<T>, keep: seq<bool>): seq<T>
    requires |s| == |keep|
  {
    if s == [] then []
    else
      var k := |s| - 1;
      Compress(s[..k], keep[..k]) + (if keep[k] then [s[k]] else [])
  }

  lemma {:induction false} CompressConcat<T>(s: seq<T>, t: seq<T>, ks: seq<bool>, kt: seq<bool>)
    requires |s| == |ks| && |t| == |kt|
    ensures Compress(s + t, ks + kt) == Compress(s, ks) + Compress(t, kt)
  {
    if t == [] {
      assert s + t == s && ks + kt == ks;
    } else {
      var n := |t| - 1;
      CompressConcat(s, t[..n], ks, kt[..n]);
      var u, ku := s + t, ks + kt;
      assert u[..|u| - 1] == s + t[..n] && ku[..|u| - 1] == ks + kt[..n];
      assert u[|u| - 1] == t[n] && ku[|u| - 1] == kt[n];
    }
  }

  lemma {:induction false} CompressUniform<T>(s: seq<T>, keep: seq<bool>, v: bool)
    requires |s| == |keep| && forall k :: 0 <= k < |keep| ==> keep[k] == v
    ensures Compress(s, keep) == if v then s else []
  {
    if s != [] {
      var k := |s| - 1;
      CompressUniform(s[..k], keep[..k], v);
      assert s == s[..k] + [s[k]];
    }
  }

  lemma CompressSegment<T>(s: seq<T>, keep: seq<bool>, lo: nat, hi: nat, v: bool)
    requires lo <= hi <= |s| == |keep| && forall k :: lo <= k < hi ==> keep[k] == v
    ensures Compress(s[..hi], keep[..hi]) == Compress(s[..lo], keep[..lo]) + if v then s[lo..hi] else []
  {
    CompressUniform(s[lo..hi], keep[lo..hi], v);
    CompressConcat(s[..lo], s[lo..hi], keep[..lo], keep[lo..hi]);
    assert s[..hi] == s[..lo] + s[lo..hi] && keep[..hi] == keep[..lo] + keep[lo..hi];
  }

  lemma CompressPrefix<T>(s: seq<T>, keep: seq<bool>, hi: nat)
    requires hi <= |s| == |keep|
    ensures Compress(s[..hi], keep[..hi]) <= Compress(s, keep)
  {
    CompressConcat(s[..hi], s[hi..], keep[..hi], keep[hi..]);
    assert s == s[..hi] + s[hi..] && keep == keep[..hi] + keep[hi..];
  }

  lemma {:induction false} CompressKeeps<T>(s: seq<T>, keep: seq<bool>)
    requires |s| == |keep|
    ensures forall a :: a in Compress(s, keep) ==> a in s
  {
    if s != [] {
      var k := |s| - 1;
      CompressKeeps(s[..k], keep[..k]);
      assert s == s[..k] + [s[k]];
    }
  }

  /** numpy.searchsorted(a, v), side left, on an ascending array. */
  function SearchSorted(a: seq<nat>, v: nat): (r: nat)
    ensures r <= |a|
    ensures forall i :: r <= i < |a| ==> a[i] >= v
    ensures r > 0 ==> a[r - 1] < v
  {
    if a == [] then 0
    else if a[|a| - 1] < v then |a|
    else SearchSorted(a[..|a| - 1], v)
  }

  /** On an ascending array the position splits it into smaller and not smaller. */
  lemma SearchSortedSplits(a: seq<nat>, v: nat)
    requires forall i, j :: 0 <= i <= j < |a| ==> a[i] <= a[j]
    ensures forall i :: 0 <= i < |a| ==> (i < SearchSorted(a, v) <==> a[i] < v)
  {
    var r := SearchSorted(a, v);
    forall i | 0 <= i < r ensures a[i] < v { assert a[i] <= a[r - 1]; }
  }

  /** The number of blocks of be pixels that cover n pixels. */
  function Blocks(n: nat, be: nat): nat
    requires be >= 1
  {
    (n + be - 1) / be
  }

  /** Pixel p lies at p % be of block p / be, one of the blocks. */
  lemma BlockOfPixel(p: nat, n: nat, be: nat)
    requires be >= 1 && p < n
    ensures p == (p / be) * be + p % be && p % be < be
    ensures p / be < Blocks(n, be)
    ensures (p / be) * be < n
  {
    var q, nb := p / be, Blocks(n, be);
    assert n + be - 1 == nb * be + (n + be - 1) % be;
    if q >= nb {
      MulMonotone(nb, q, be);
      assert false;
    }
  }

  lemma MulMonotone(a: nat, b: nat, c: nat)
    requires a <= b
    ensures a * c <= b * c
  {
  }

  /** Pixels of lower blocks come first. */
  lemma BlockBounds(p: nat, j: nat, be: nat)
    requires be >= 1
    ensures p / be < j <==> p < j * be
  {
    var q := p / be;
    assert p == q * be + p % be;
    if q < j { MulMonotone(q + 1, j, be); } else { MulMonotone(j, q, be); }
  }

  /** The blocks cover every pixel. */
  lemma BlocksCover(n: nat, be: nat)
    requires be >= 1
    ensures n <= Blocks(n, be) * be
  {
    assert n + be - 1 == Blocks(n, be) * be + (n + be - 1) % be;
  }
}
