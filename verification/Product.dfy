/**
  The matrix product read from the order in which a kernel adds to the powder.

  Whatever arrays a dot reads, its kernel performs a sequence of additions
  `out[bin] += weight * x[pixel]`.  That sequence (the trace) is the meaning of a
  layout: two layouts with the same trace are the same map even in rounded
  arithmetic, and two layouts whose traces differ by a reordering or by zero
  weights are the same map over exact numbers.
*/
module Product {

  datatype Add = Add(bin: nat, pix: nat, w: real)

  /** The value of pixel p; a frame is zero outside its own pixels. */
  function Pixel(x: seq<real>, p: nat): real {
    if p < |x| then x[p] else 0.0
  }

  /** What one addition contributes to bin b. */
  function Term(a: Add, x: seq<real>, b: nat): real {
    if a.bin == b then a.w * Pixel(x, a.pix) else 0.0
  }

  /** Bin b of the powder after the additions of t, in order, from zero. */
  function Powder(t: seq<Add>, x: seq<real>, b: nat): real {
    if t == [] then 0.0 else Powder(t[..|t| - 1], x, b) + Term(t[|t| - 1], x, b)
  }

  /** The elements of s that satisfy f, in order (numpy boolean indexing). */
  function Filter<T>(s: seq<T>, f: T -> bool): (r: seq<T>)
    ensures |r| <= |s|
  {
    if s == [] then []
    else if f(s[|s| - 1]) then Filter(s[..|s| - 1], f) + [s[|s| - 1]]
    else Filter(s[..|s| - 1], f)
  }

  lemma {:induction false} FilterKeeps<T>(s: seq<T>, f: T -> bool)
    ensures forall a :: a in Filter(s, f) <==> a in s && f(a)
  {
    if s != [] {
      var n := |s| - 1;
      FilterKeeps(s[..n], f);
      assert s == s[..n] + [s[n]];
    }
  }

  lemma {:induction false} FilterConcat<T>(s: seq<T>, t: seq<T>, f: T -> bool)
    ensures Filter(s + t, f) == Filter(s, f) + Filter(t, f)
  {
    if t == [] {
      assert s + t == s;
    } else {
      var n := |t| - 1;
      var u := s + t;
      FilterConcat(s, t[..n], f);
      assert u[..|u| - 1] == s + t[..n] && u[|u| - 1] == t[n];
      if f(t[n]) {
        assert Filter(u, f) == (Filter(s, f) + Filter(t[..n], f)) + [t[n]];
      }
    }
  }

  lemma {:induction false} FilterAll<T>(s: seq<T>, f: T -> bool)
    ensures (forall a :: a in s ==> f(a)) ==> Filter(s, f) == s
    ensures (forall a :: a in s ==> !f(a)) ==> Filter(s, f) == []
  {
    if s != [] {
      var n := |s| - 1;
      var u := s[..n];
      assert s == u + [s[n]] && s[n] in s;
      assert forall a :: a in u ==> a in s;
      FilterAll(u, f);
    }
  }

  lemma {:induction false} PowderConcat(s: seq<Add>, t: seq<Add>, x: seq<real>, b: nat)
    ensures Powder(s + t, x, b) == Powder(s, x, b) + Powder(t, x, b)
  {
    if t == [] {
      assert s + t == s;
    } else {
      var n := |t| - 1;
      PowderConcat(s, t[..n], x, b);
      assert (s + t)[..|s + t| - 1] == s + t[..n];
    }
  }

  /** The order of the additions does not matter. */
  lemma {:induction false} PowderPermutation(s: seq<Add>, t: seq<Add>, x: seq<real>, b: nat)
    requires multiset(s) == multiset(t)
    ensures Powder(s, x, b) == Powder(t, x, b)
    decreases |s|
  {
    if s == [] {
      assert |multiset(t)| == 0;
    } else {
      var n := |s| - 1;
      var a := s[n];
      assert s == s[..n] + [a];
      assert a in multiset(t);
      var i :| 0 <= i < |t| && t[i] == a;
      var u := t[..i] + t[i + 1..];
      assert t == t[..i] + [a] + t[i + 1..];
      assert multiset(s) == multiset(s[..n]) + multiset{a};
      assert multiset(t) == multiset(u) + multiset{a};
      assert multiset(s[..n]) == multiset(s) - multiset{a} == multiset(u);
      PowderPermutation(s[..n], u, x, b);
      PowderConcat(t[..i], t[i + 1..], x, b);
      PowderConcat(t[..i] + [a], t[i + 1..], x, b);
      PowderConcat(t[..i], [a], x, b);
      assert Powder([a], x, b) == Powder([], x, b) + Term(a, x, b);
      assert Powder(s, x, b) == Powder(s[..n], x, b) + Term(a, x, b);
    }
  }

  /** Dropping additions that contribute nothing, possibly while reading another
      frame for the ones that stay, leaves the powder unchanged. */
  lemma {:induction false} PowderFilter(t: seq<Add>, f: Add -> bool, x: seq<real>, y: seq<real>, b: nat)
    requires forall a :: a in t ==> Term(a, x, b) == if f(a) then Term(a, y, b) else 0.0
    ensures Powder(t, x, b) == Powder(Filter(t, f), y, b)
  {
    if t != [] {
      var n := |t| - 1;
      PowderFilter(t[..n], f, x, y, b);
      PowderConcat(Filter(t[..n], f), if f(t[n]) then [t[n]] else [], y, b);
      assert t[n] in t;
      assert Powder([t[n]], y, b) == Powder([], y, b) + Term(t[n], y, b);
    }
  }

  /** The trace without its zero weights, which is what padding cannot change. */
  function Weighted(t: seq<Add>): (r: seq<Add>)
    ensures |r| <= |t|
  {
    Filter(t, (a: Add) => a.w != 0.0)
  }

  lemma PowderWeighted(t: seq<Add>, x: seq<real>, b: nat)
    ensures Powder(Weighted(t), x, b) == Powder(t, x, b)
  {
    PowderFilter(t, (a: Add) => a.w != 0.0, x, x, b);
  }

  /** Traces that differ only by zero weights give the same powder. */
  lemma SameWeighted(s: seq<Add>, t: seq<Add>, x: seq<real>, b: nat)
    requires Weighted(s) == Weighted(t)
    ensures Powder(s, x, b) == Powder(t, x, b)
  {
    PowderWeighted(s, x, b);
    PowderWeighted(t, x, b);
  }
}
