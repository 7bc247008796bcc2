/** No choice of routes can be seen in the powder. */
module RoutesProof {
  import opened Numpy
  import opened Product
  import opened Routes

  /** The frame with only the pixels of f. */
  function Only(x: seq<real>, f: nat -> bool): (r: seq<real>)
    ensures |r| == |x| && forall p :: 0 <= p < |x| ==> r[p] == if f(p) then x[p] else 0.0
  {
    seq(|x|, p requires 0 <= p < |x| => if f(p) then x[p] else 0.0)
  }

  function Just(q: nat): nat -> bool {
    p => p == q
  }

  function In(list: seq<nat>): nat -> bool {
    p => p in list
  }

  function Of(j: nat, be: nat): nat -> bool
    requires be >= 1
  {
    p => p / be == j
  }

  function Below(n: nat, be: nat): nat -> bool
    requires be >= 1
  {
    p => p / be < n
  }

  lemma {:induction false} PowderAgrees(t: seq<Add>, x: seq<real>, y: seq<real>, b: nat)
    requires forall a :: a in t ==> Pixel(x, a.pix) == Pixel(y, a.pix)
    ensures Powder(t, x, b) == Powder(t, y, b)
  {
    if t != [] {
      assert t[|t| - 1] in t;
      PowderAgrees(t[..|t| - 1], x, y, b);
    }
  }

  lemma {:induction false} PowderZero(t: seq<Add>, x: seq<real>, b: nat)
    requires forall a :: a in t ==> Pixel(x, a.pix) == 0.0
    ensures Powder(t, x, b) == 0.0
  {
    if t != [] {
      assert t[|t| - 1] in t;
      PowderZero(t[..|t| - 1], x, b);
    }
  }

  lemma TermAdds(a: Add, x: seq<real>, y: seq<real>, z: seq<real>, b: nat)
    requires Pixel(z, a.pix) == Pixel(x, a.pix) + Pixel(y, a.pix)
    ensures Term(a, z, b) == Term(a, x, b) + Term(a, y, b)
  {
    assert a.w * (Pixel(x, a.pix) + Pixel(y, a.pix)) == a.w * Pixel(x, a.pix) + a.w * Pixel(y, a.pix);
  }

  lemma {:induction false} PowderAdds(t: seq<Add>, x: seq<real>, y: seq<real>, z: seq<real>, b: nat)
    requires forall a :: a in t ==> Pixel(z, a.pix) == Pixel(x, a.pix) + Pixel(y, a.pix)
    ensures Powder(t, z, b) == Powder(t, x, b) + Powder(t, y, b)
  {
    if t != [] {
      assert t[|t| - 1] in t;
      PowderAdds(t[..|t| - 1], x, y, z, b);
      TermAdds(t[|t| - 1], x, y, z, b);
    }
  }

  /** On the frame with only the pixels of part k, the whole is that part. */
  lemma {:induction false} FlatOnly(ts: seq<seq<Add>>, k: nat, f: nat -> bool, x: seq<real>, b: nat)
    requires forall i, a :: 0 <= i < |ts| && a in ts[i] ==> (f(a.pix) <==> i == k)
    ensures Powder(Flat(ts), Only(x, f), b) == if k < |ts| then Powder(ts[k], x, b) else 0.0
  {
    if ts != [] {
      var n := |ts| - 1;
      FlatOnly(ts[..n], k, f, x, b);
      PowderConcat(Flat(ts[..n]), ts[n], Only(x, f), b);
      if n == k { PowderAgrees(ts[n], Only(x, f), x, b); } else { PowderZero(ts[n], Only(x, f), b); }
    }
  }

  /** The pixels of h are those of f and those of g, which share none. */
  lemma PowderSplits(t: seq<Add>, x: seq<real>, f: nat -> bool, g: nat -> bool, h: nat -> bool, b: nat)
    requires forall p :: h(p) <==> f(p) || g(p)
    requires forall p :: !(f(p) && g(p))
    ensures Powder(t, Only(x, h), b) == Powder(t, Only(x, f), b) + Powder(t, Only(x, g), b)
  {
    PowderAdds(t, Only(x, f), Only(x, g), Only(x, h), b);
  }

  lemma DensePart(dense: seq<seq<Add>>, sparse: seq<seq<Add>>, be: nat, npix: nat, t: seq<Add>, x: seq<real>, b: nat, j: nat)
    requires Parts(dense, sparse, be, npix, t, b) && j < |dense|
    ensures Powder(dense[j], x, b) == Powder(t, Only(x, Of(j, be)), b)
  {
    FlatOnly(dense, j, Of(j, be), x, b);
    assert Powder(Flat(dense), Only(x, Of(j, be)), b) == Powder(t, Only(x, Of(j, be)), b);
  }

  lemma SparsePart(dense: seq<seq<Add>>, sparse: seq<seq<Add>>, be: nat, npix: nat, t: seq<Add>, x: seq<real>, b: nat, q: nat)
    requires Parts(dense, sparse, be, npix, t, b) && q < npix
    ensures Powder(sparse[q], x, b) == Powder(t, Only(x, Just(q)), b)
  {
    FlatOnly(sparse, q, Just(q), x, b);
    assert Powder(Flat(sparse), Only(x, Just(q)), b) == Powder(t, Only(x, Just(q)), b);
  }

  /** A list of distinct pixels adds what t adds for them. */
  lemma {:induction false} PickedIs(sparse: seq<seq<Add>>, t: seq<Add>, x: seq<real>, b: nat, list: seq<nat>)
    requires forall q :: 0 <= q < |sparse| ==> Powder(sparse[q], x, b) == Powder(t, Only(x, Just(q)), b)
    requires forall i :: 0 <= i < |list| ==> list[i] < |sparse|
    requires forall i, k :: 0 <= i < k < |list| ==> list[i] != list[k]
    ensures Powder(Picked(sparse, list), x, b) == Powder(t, Only(x, In(list)), b)
  {
    if list == [] {
      PowderZero(t, Only(x, In(list)), b);
    } else {
      var n := |list| - 1;
      var rest, q := list[..n], list[n];
      PickedIs(sparse, t, x, b, rest);
      PowderConcat(Picked(sparse, rest), sparse[q], x, b);
      assert list == rest + [q];
      PowderSplits(t, x, In(rest), Just(q), In(list), b);
    }
  }

  function PartOf(dense: seq<seq<Add>>, sparse: seq<seq<Add>>, routes: seq<Route>, j: nat): seq<Add>
    requires j < |routes| <= |dense|
  {
    if routes[j].Dense? then dense[j] else Picked(sparse, routes[j].list)
  }

  /** Whichever route a block takes, it adds what t adds for its pixels. */
  lemma BlockIs(dense: seq<seq<Add>>, sparse: seq<seq<Add>>, be: nat, npix: nat, t: seq<Add>, x: seq<real>, b: nat, routes: seq<Route>, j: nat)
    requires Parts(dense, sparse, be, npix, t, b) && Routed(routes, be, npix, t, x) && j < |routes|
    ensures Powder(PartOf(dense, sparse, routes, j), x, b) == Powder(t, Only(x, Of(j, be)), b)
  {
    if routes[j].Dense? {
      DensePart(dense, sparse, be, npix, t, x, b, j);
    } else {
      var list := routes[j].list;
      forall q | 0 <= q < |sparse| ensures Powder(sparse[q], x, b) == Powder(t, Only(x, Just(q)), b) {
        SparsePart(dense, sparse, be, npix, t, x, b, q);
      }
      PickedIs(sparse, t, x, b, list);
      PowderAgrees(t, Only(x, In(list)), Only(x, Of(j, be)), b);
    }
  }

  lemma {:induction false} MixedTo(dense: seq<seq<Add>>, sparse: seq<seq<Add>>, be: nat, t: seq<Add>, x: seq<real>, b: nat, routes: seq<Route>, n: nat)
    requires n <= |routes| <= |dense| && be >= 1
    requires forall j :: 0 <= j < |routes| ==> Powder(PartOf(dense, sparse, routes, j), x, b) == Powder(t, Only(x, Of(j, be)), b)
    ensures Powder(Mixed(dense, sparse, routes[..n]), x, b) == Powder(t, Only(x, Below(n, be)), b)
  {
    if n == 0 {
      PowderZero(t, Only(x, Below(n, be)), b);
    } else {
      var j := n - 1;
      MixedTo(dense, sparse, be, t, x, b, routes, j);
      assert routes[..n][..j] == routes[..j];
      PowderConcat(Mixed(dense, sparse, routes[..j]), PartOf(dense, sparse, routes, j), x, b);
      PowderSplits(t, x, Below(j, be), Of(j, be), Below(n, be), b);
    }
  }

  /** For every choice of route per block and every lists of the sparse blocks, the
      powder of the frame is that of t. */
  lemma MixedIsPowder(dense: seq<seq<Add>>, sparse: seq<seq<Add>>, be: nat, npix: nat, t: seq<Add>, x: seq<real>, b: nat, routes: seq<Route>)
    requires Parts(dense, sparse, be, npix, t, b) && Routed(routes, be, npix, t, x)
    ensures Powder(Mixed(dense, sparse, routes), x, b) == Powder(t, x, b)
  {
    var n := |routes|;
    forall j | 0 <= j < n ensures Powder(PartOf(dense, sparse, routes, j), x, b) == Powder(t, Only(x, Of(j, be)), b) {
      BlockIs(dense, sparse, be, npix, t, x, b, routes, j);
    }
    MixedTo(dense, sparse, be, t, x, b, routes, n);
    assert routes[..n] == routes;
    forall a | a in t ensures Pixel(Only(x, Below(n, be)), a.pix) == Pixel(x, a.pix) {
      BlockOfPixel(a.pix, npix, be);
    }
    PowderAgrees(t, Only(x, Below(n, be)), x, b);
  }

  // ---- a dense block that walks its pixels --------------------------------

  lemma {:induction false} PickedRange(sparse: seq<seq<Add>>, lo: nat, list: seq<nat>)
    requires lo + |list| <= |sparse| && forall i :: 0 <= i < |list| ==> list[i] == lo + i
    ensures Flat(sparse[..lo]) + Picked(sparse, list) == Flat(sparse[..lo + |list|])
  {
    if list == [] {
      assert Flat(sparse[..lo]) + [] == Flat(sparse[..lo]);
    } else {
      var n := |list| - 1;
      PickedRange(sparse, lo, list[..n]);
      var upto := sparse[..lo + |list|];
      assert upto[..lo + n] == sparse[..lo + n] && upto[lo + n] == sparse[lo + n];
      assert Flat(sparse[..lo]) + (Picked(sparse, list[..n]) + sparse[lo + n])
             == (Flat(sparse[..lo]) + Picked(sparse, list[..n])) + sparse[lo + n];
    }
  }

  function Least(a: nat, b: nat): nat {
    if a < b then a else b
  }

  lemma PickedNone(sparse: seq<seq<Add>>, t: seq<Add>, list: seq<nat>)
    requires |list| == 0
    ensures t + Picked(sparse, list) == t
  {
  }

  lemma NextFrom(sparse: seq<seq<Add>>, lo: nat, be: nat, list: seq<nat>, a: nat, c: nat)
    requires list == PixelsFrom(lo, be, |sparse|) && a == Least(lo, |sparse|) && c == Least(lo + be, |sparse|)
    ensures Flat(sparse[..a]) + Picked(sparse, list) == Flat(sparse[..c])
  {
    assert c == a + |list|;
    if |list| > 0 { PickedRange(sparse, a, list); } else { PickedNone(sparse, Flat(sparse[..a]), list); }
  }

  lemma FlatNext(ts: seq<seq<Add>>, n: nat)
    requires n < |ts|
    ensures Flat(ts[..n + 1]) == Flat(ts[..n]) + ts[n]
  {
    assert ts[..n + 1][..n] == ts[..n];
  }

  lemma NextBlock(dense: seq<seq<Add>>, sparse: seq<seq<Add>>, be: nat, j: nat, lo: nat)
    requires j < |dense| && lo == j * be && dense[j] == Picked(sparse, PixelsFrom(lo, be, |sparse|))
    requires Flat(dense[..j]) == Flat(sparse[..Least(lo, |sparse|)])
    ensures Flat(dense[..j + 1]) == Flat(sparse[..Least(lo + be, |sparse|)])
  {
    FlatNext(dense, j);
    NextFrom(sparse, lo, be, PixelsFrom(lo, be, |sparse|), Least(lo, |sparse|), Least(lo + be, |sparse|));
  }

  lemma TimesNext(j: nat, be: nat)
    ensures j * be >= 0 && (j + 1) * be == j * be + be
  {
  }

  lemma {:induction false} FlatBlocks(dense: seq<seq<Add>>, sparse: seq<seq<Add>>, be: nat, n: nat, hi: nat)
    requires n <= |dense| && hi == n * be
    requires forall j :: 0 <= j < |dense| ==> dense[j] == Picked(sparse, BlockPixels(j, be, |sparse|))
    ensures Flat(dense[..n]) == Flat(sparse[..Least(hi, |sparse|)])
  {
    if n > 0 {
      TimesNext(n - 1, be);
      FlatBlocks(dense, sparse, be, n - 1, hi - be);
      NextBlock(dense, sparse, be, n - 1, hi - be);
    } else {
      assert hi == 0;
      assert dense[..0] == [] && sparse[..0] == [];
    }
  }

  lemma {:induction false} PickedInBlock(sparse: seq<seq<Add>>, list: seq<nat>, j: nat, be: nat)
    requires be >= 1
    requires forall p :: 0 <= p < |sparse| ==> OfPixel(sparse[p], p)
    requires forall i :: 0 <= i < |list| ==> list[i] / be == j
    ensures InBlock(Picked(sparse, list), j, be)
  {
    if list != [] {
      PickedInBlock(sparse, list[..|list| - 1], j, be);
      var p := list[|list| - 1];
      if p < |sparse| { assert OfPixel(sparse[p], p); }
    }
  }

  lemma BlockPixelsIn(j: nat, be: nat, npix: nat)
    requires be >= 1
    ensures forall i :: 0 <= i < |BlockPixels(j, be, npix)| ==> BlockPixels(j, be, npix)[i] / be == j
  {
    forall i | 0 <= i < |BlockPixels(j, be, npix)| ensures BlockPixels(j, be, npix)[i] / be == j {
      OfBlock(j * be + i, j, be);
    }
  }

  lemma OfBlock(p: nat, j: nat, be: nat)
    requires be >= 1 && j * be <= p < j * be + be
    ensures p / be == j
  {
    BlockBounds(p, j, be);
    BlockBounds(p, j + 1, be);
    assert (j + 1) * be == j * be + be;
  }
}
