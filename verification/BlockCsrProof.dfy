/**
  The bsb-csr layout is the matrix: its arrays are well formed, and its kernel
  performs the additions of the csc dot, each once, in another order.
*/
module BlockCsrProof {
  import opened BlockCsr
  import opened Csc
  import opened Numpy
  import opened Product

  lemma EntriesAreTrace(m: Matrix)
    requires m.Valid()
    ensures Entries(m) == Trace(m)
  {
    TraceAt(m);
  }

  lemma {:induction false} InsertBelow(s: seq<Add>, a: Add, c: Add, be: nat)
    requires be >= 1 && Before(a, c, be)
    requires forall i :: 0 <= i < |s| ==> Before(s[i], c, be)
    ensures forall i :: 0 <= i < |Insert(s, a, be)| ==> Before(Insert(s, a, be)[i], c, be)
  {
    if s != [] && !Before(s[|s| - 1], a, be) { InsertBelow(s[..|s| - 1], a, c, be); }
  }

  lemma {:induction false} InsertSorted(s: seq<Add>, a: Add, be: nat)
    requires be >= 1 && Sorted(s, be)
    ensures Sorted(Insert(s, a, be), be)
  {
    if s != [] && !Before(s[|s| - 1], a, be) {
      InsertSorted(s[..|s| - 1], a, be);
      InsertBelow(s[..|s| - 1], a, s[|s| - 1], be);
    }
  }

  lemma {:induction false} SortSorted(s: seq<Add>, be: nat)
    requires be >= 1
    ensures Sorted(Sort(s, be), be) && multiset(Sort(s, be)) == multiset(s)
  {
    if s != [] {
      SortSorted(s[..|s| - 1], be);
      InsertSorted(Sort(s[..|s| - 1], be), s[|s| - 1], be);
    }
  }

  /** Within a group the key is constant. */
  lemma {:induction false} GroupKey(key: seq<nat>, g: nat, k: nat)
    requires g < |Starts(key)| && Starts(key)[g] <= k < EndOf(Starts(key), |key|, g)
    ensures k < |key| && key[k] == key[Starts(key)[g]]
  {
    StartsBounds(key);
    if key != [] {
      var n := |key| - 1;
      var u := key[..n];
      StartsBounds(u);
      var su := Starts(u);
      if g < |su| {
        if k < n {
          GroupKey(u, g, k);
        } else if n > 0 {
          assert Starts(key) == su;
          GroupKey(u, g, n - 1);
        }
      }
    }
  }

  /** From one group to the next the key changes. */
  lemma {:induction false} GroupChange(key: seq<nat>, g: nat)
    requires 0 < g < |Starts(key)|
    ensures 0 < Starts(key)[g] < |key| && key[Starts(key)[g]] != key[Starts(key)[g] - 1]
  {
    StartsBounds(key);
    var n := |key| - 1;
    StartsBounds(key[..n]);
    if g < |Starts(key[..n])| { GroupChange(key[..n], g); }
  }

  /** The key orders entries by block, then bin. */
  lemma KeyOrder(a: Add, b: Add, be: nat, nbins: nat)
    requires be >= 1 && a.bin < nbins && b.bin < nbins && Before(a, b, be)
    ensures Key(a, be, nbins) <= Key(b, be, nbins)
    ensures Key(a, be, nbins) == Key(b, be, nbins) <==> a.pix / be == b.pix / be && a.bin == b.bin
  {
    if a.pix / be < b.pix / be {
      MulMonotone(a.pix / be + 1, b.pix / be, nbins + 1);
    }
  }

  // ---- what the compiled arrays are ---------------------------------------

  lemma {:induction false} GroupIsSlice(l: Layout, s: seq<Add>, j: nat, g: nat, lo: nat, hi: nat)
    requires Readable(l) && |l.data| == |s| && g < |l.bins| && lo <= hi <= |s|
    requires forall k :: lo <= k < hi ==> EntryOk(l, s, j, g, k)
    ensures GroupTrace(l, j, g, lo, hi) == s[lo..hi]
    decreases hi
  {
    if lo < hi {
      GroupIsSlice(l, s, j, g, lo, hi - 1);
      assert EntryOk(l, s, j, g, hi - 1);
      assert s[lo..hi] == s[lo..hi - 1] + [s[hi - 1]];
    }
  }

  lemma {:induction false} GroupsAreSlice(l: Layout, s: seq<Add>, j: nat, lo: nat, hi: nat)
    requires Readable(l) && |l.data| == |s| && lo <= hi <= |l.bins|
    requires forall g :: lo <= g < hi ==> GroupOk(l, s, j, g)
    ensures l.binPtr[lo] <= l.binPtr[hi] <= |s| && GroupsTrace(l, j, lo, hi) == s[l.binPtr[lo]..l.binPtr[hi]]
    decreases hi
  {
    if lo < hi {
      GroupsAreSlice(l, s, j, lo, hi - 1);
      assert GroupOk(l, s, j, hi - 1);
      GroupIsSlice(l, s, j, hi - 1, l.binPtr[hi - 1], l.binPtr[hi]);
    }
  }

  lemma {:induction false} BlocksAreSlice(l: Layout, s: seq<Add>, n: nat)
    requires Readable(l) && |l.data| == |s| && n < |l.blkPtr|
    requires l.blkPtr[0] == 0 && l.binPtr[0] == 0
    requires forall j :: 0 <= j < n ==> BlockOk(l, s, j)
    ensures l.binPtr[l.blkPtr[n]] <= |s| && BlocksTrace(l, n) == s[..l.binPtr[l.blkPtr[n]]]
  {
    if n > 0 {
      BlocksAreSlice(l, s, n - 1);
      assert BlockOk(l, s, n - 1);
      GroupsAreSlice(l, s, n - 1, l.blkPtr[n - 1], l.blkPtr[n]);
    }
  }

  // ---- correctness --------------------------------------------------------

  /** All entries of a group share its block and bin. */
  lemma GroupOf(s: seq<Add>, nbins: nat, npix: nat, be: nat, g: nat, k: nat)
    requires Source(s, nbins, npix, be)
    requires g < |Starts(Keys(s, nbins, be))|
    requires Starts(Keys(s, nbins, be))[g] <= k < EndOf(Starts(Keys(s, nbins, be)), |s|, g)
    ensures k < |s| && Starts(Keys(s, nbins, be))[g] < |s|
    ensures s[k].bin == s[Starts(Keys(s, nbins, be))[g]].bin
    ensures s[k].pix / be == s[Starts(Keys(s, nbins, be))[g]].pix / be
  {
    var key := Keys(s, nbins, be);
    GroupKey(key, g, k);
    StartsBounds(key);
    KeyOrder(s[Starts(key)[g]], s[k], be, nbins);
  }

  /** From one group to the next, the block grows or it stays and the bin grows. */
  lemma GroupsAscend(s: seq<Add>, nbins: nat, npix: nat, be: nat, g: nat)
    requires Source(s, nbins, npix, be)
    requires g + 1 < |Starts(Keys(s, nbins, be))|
    ensures var st := Starts(Keys(s, nbins, be));
            && st[g] < |s| && st[g + 1] < |s|
            && var a, b := s[st[g]], s[st[g + 1]];
               a.pix / be < b.pix / be || (a.pix / be == b.pix / be && a.bin < b.bin)
  {
    var key := Keys(s, nbins, be);
    var st := Starts(key);
    StartsBounds(key);
    GroupChange(key, g + 1);
    var e := st[g + 1];
    GroupOf(s, nbins, npix, be, g, e - 1);
    KeyOrder(s[e - 1], s[e], be, nbins);
    assert Before(s[e - 1], s[e], be);
  }

  lemma {:induction false} GroupsOrdered(s: seq<Add>, nbins: nat, npix: nat, be: nat, g: nat, h: nat)
    requires Source(s, nbins, npix, be)
    requires g < h < |Starts(Keys(s, nbins, be))|
    ensures var st := Starts(Keys(s, nbins, be));
            && st[g] < |s| && st[h] < |s|
            && var a, b := s[st[g]], s[st[h]];
               a.pix / be < b.pix / be || (a.pix / be == b.pix / be && a.bin < b.bin)
  {
    GroupsAscend(s, nbins, npix, be, h - 1);
    if g < h - 1 { GroupsOrdered(s, nbins, npix, be, g, h - 1); }
  }

  lemma StartsTile(s: seq<Add>, nbins: nat, npix: nat, be: nat)
    requires Source(s, nbins, npix, be) && s != []
    ensures Tiles(s, Starts(Keys(s, nbins, be)), be)
  {
    var st := Starts(Keys(s, nbins, be));
    StartsBounds(Keys(s, nbins, be));
    forall g, k | 0 <= g < |st| && st[g] <= k < |s| && k < EndOf(st, |s|, g) ensures SameGroup(s[k], s[st[g]], be) {
      GroupOf(s, nbins, npix, be, g, k);
    }
    forall g, h | 0 <= g < h < |st| ensures Less(s[st[g]], s[st[h]], be) {
      GroupsOrdered(s, nbins, npix, be, g, h);
    }
  }

  lemma LayoutArrays(s: seq<Add>, nbins: nat, npix: nat, be: nat)
    requires Source(s, nbins, npix, be) && s != []
    requires Tiles(s, Starts(Keys(s, nbins, be)), be)
    ensures Arrays(LayoutOf(s, nbins, Blocks(npix, be), be), s, Starts(Keys(s, nbins, be)), npix)
  {
    var st := Starts(Keys(s, nbins, be));
    var gb := GroupBlocks(s, st, be);
    var l := LayoutOf(s, nbins, Blocks(npix, be), be);
    forall a, b | 0 <= a <= b < |gb| ensures gb[a] <= gb[b] {
      if a < b { assert Less(s[st[a]], s[st[b]], be); }
    }
    forall j, g | 0 <= j < |l.blkPtr| && 0 <= g < |st| ensures g < l.blkPtr[j] <==> s[st[g]].pix / be < j {
      SearchSortedSplits(gb, j);
    }
  }

  lemma ArraysReadable(l: Layout, s: seq<Add>, st: seq<nat>, npix: nat)
    requires Arrays(l, s, st, npix)
    ensures Readable(l)
  {
  }

  /** An in-block index names its pixel. */
  lemma EntryIsOk(l: Layout, s: seq<Add>, st: seq<nat>, npix: nat, j: nat, g: nat, k: nat)
    requires Arrays(l, s, st, npix) && l.blockElems <= MAX_BLOCK_ELEMS
    requires j < Blocks(npix, l.blockElems) && l.blkPtr[j] <= g < l.blkPtr[j + 1]
    requires k < |s| && SameGroup(s[k], s[st[g]], l.blockElems)
    ensures EntryOk(l, s, j, g, k)
  {
    var p := s[k].pix;
    assert p / l.blockElems == j;
    BlockOfPixel(p, p + 1, l.blockElems);
  }

  lemma PointersAscend(l: Layout, s: seq<Add>, st: seq<nat>, npix: nat, i: nat, j: nat)
    requires Arrays(l, s, st, npix) && i <= j < |l.blkPtr|
    ensures l.blkPtr[i] <= l.blkPtr[j]
  {
    var g := l.blkPtr[j];
    assert g < |st| ==> st[g] < |s|;
  }

  lemma GroupIsOk(l: Layout, s: seq<Add>, st: seq<nat>, npix: nat, j: nat, g: nat)
    requires Arrays(l, s, st, npix) && Readable(l) && Tiles(s, st, l.blockElems) && l.blockElems <= MAX_BLOCK_ELEMS
    requires j < Blocks(npix, l.blockElems) && l.blkPtr[j] <= g < l.blkPtr[j + 1]
    ensures GroupOk(l, s, j, g)
  {
    assert l.binPtr[g + 1] == EndOf(st, |s|, g);
    forall k | l.binPtr[g] <= k < l.binPtr[g + 1] ensures EntryOk(l, s, j, g, k) {
      assert SameGroup(s[k], s[st[g]], l.blockElems);
      EntryIsOk(l, s, st, npix, j, g, k);
    }
  }

  lemma BlockIsOk(l: Layout, s: seq<Add>, st: seq<nat>, npix: nat, j: nat)
    requires Arrays(l, s, st, npix) && Readable(l) && Tiles(s, st, l.blockElems) && l.blockElems <= MAX_BLOCK_ELEMS
    requires j < Blocks(npix, l.blockElems)
    ensures BlockOk(l, s, j)
  {
    PointersAscend(l, s, st, npix, j, j + 1);
    forall g | l.blkPtr[j] <= g < l.blkPtr[j + 1] ensures GroupOk(l, s, j, g) {
      GroupIsOk(l, s, st, npix, j, g);
    }
  }

  /** Every group lies before the end of the last block. */
  lemma LastPointer(l: Layout, s: seq<Add>, st: seq<nat>, npix: nat)
    requires Arrays(l, s, st, npix) && forall k :: 0 <= k < |s| ==> s[k].pix < npix
    ensures l.blkPtr[|l.blkPtr| - 1] == |st|
  {
    var g := l.blkPtr[|l.blkPtr| - 1];
    if g < |st| {
      BlockOfPixel(s[st[g]].pix, npix, l.blockElems);
    }
  }

  lemma FirstPointer(l: Layout, s: seq<Add>, st: seq<nat>, npix: nat)
    requires Arrays(l, s, st, npix)
    ensures l.blkPtr[0] == 0
  {
    assert st != [] ==> st[0] < |s|;
  }

  lemma BlockPointers(l: Layout, s: seq<Add>, st: seq<nat>, npix: nat)
    requires Arrays(l, s, st, npix) && forall k :: 0 <= k < |s| ==> s[k].pix < npix
    ensures l.blkPtr[0] == 0 && l.blkPtr[|l.blkPtr| - 1] == |l.bins|
    ensures forall i, j :: 0 <= i <= j < |l.blkPtr| ==> l.blkPtr[i] <= l.blkPtr[j]
  {
    FirstPointer(l, s, st, npix);
    LastPointer(l, s, st, npix);
    forall i, j | 0 <= i <= j < |l.blkPtr| ensures l.blkPtr[i] <= l.blkPtr[j] {
      PointersAscend(l, s, st, npix, i, j);
    }
  }

  lemma BinsOfBlock(l: Layout, s: seq<Add>, st: seq<nat>, npix: nat, j: nat, g: nat, h: nat)
    requires Arrays(l, s, st, npix) && Tiles(s, st, l.blockElems)
    requires j < |l.blkPtr| - 1 && l.blkPtr[j] <= g < h < l.blkPtr[j + 1]
    ensures h < |l.bins| && l.bins[g] < l.bins[h]
  {
    assert Less(s[st[g]], s[st[h]], l.blockElems);
  }

  lemma IndexFits(l: Layout, s: seq<Add>, st: seq<nat>, npix: nat)
    requires Arrays(l, s, st, npix) && forall k :: 0 <= k < |s| ==> s[k].pix < npix
    requires l.blockElems <= MAX_BLOCK_ELEMS
    ensures forall k :: 0 <= k < |l.idx| ==> l.idx[k] < l.blockElems && l.idx[k] < MAX_BLOCK_ELEMS
  {
    forall k | 0 <= k < |l.idx| ensures l.idx[k] < l.blockElems && l.idx[k] < MAX_BLOCK_ELEMS {
      BlockOfPixel(s[k].pix, npix, l.blockElems);
    }
  }

  lemma BinPointers(l: Layout, s: seq<Add>, st: seq<nat>, npix: nat)
    requires Arrays(l, s, st, npix) && Tiles(s, st, l.blockElems)
    ensures forall g, h :: 0 <= g < h < |l.binPtr| ==> l.binPtr[g] < l.binPtr[h]
  {
  }

  /** The compiled arrays are what the kernel relies on. */
  lemma ArraysWellFormed(l: Layout, s: seq<Add>, st: seq<nat>, nbins: nat, npix: nat)
    requires Arrays(l, s, st, npix) && Tiles(s, st, l.blockElems) && l.blockElems <= MAX_BLOCK_ELEMS
    requires forall k :: 0 <= k < |s| ==> s[k].pix < npix && s[k].bin < nbins
    ensures WellFormed(l, nbins, npix)
  {
    BlockPointers(l, s, st, npix);
    BinPointers(l, s, st, npix);
    IndexFits(l, s, st, npix);
    forall j, g, h | 0 <= j < |l.blkPtr| - 1 && l.blkPtr[j] <= g < h < l.blkPtr[j + 1] ensures l.bins[g] < l.bins[h] {
      BinsOfBlock(l, s, st, npix, j, g, h);
    }
  }

  lemma LayoutOfTrace(s: seq<Add>, nbins: nat, npix: nat, be: nat, l: Layout, st: seq<nat>)
    requires Arrays(l, s, st, npix) && Tiles(s, st, be) && be == l.blockElems <= MAX_BLOCK_ELEMS
    requires forall k :: 0 <= k < |s| ==> s[k].pix < npix && s[k].bin < nbins
    ensures WellFormed(l, nbins, npix) && Readable(l) && LayoutTrace(l) == s
  {
    ArraysReadable(l, s, st, npix);
    ArraysWellFormed(l, s, st, nbins, npix);
    forall j | 0 <= j < |l.blkPtr| - 1 ensures BlockOk(l, s, j) {
      BlockIsOk(l, s, st, npix, j);
    }
    BlocksAreSlice(l, s, |l.blkPtr| - 1);
    assert s[..|s|] == s;
  }

  lemma SourceOfMatrix(m: Matrix, be: nat)
    requires m.Valid() && be >= 1
    ensures Source(Sort(Entries(m), be), m.nbins, m.Npix(), be)
  {
    var e, s := Entries(m), Sort(Entries(m), be);
    SortSorted(e, be);
    forall k | 0 <= k < |s| ensures s[k].bin < m.nbins && s[k].pix < m.Npix() {
      assert s[k] in multiset(e);
      var i :| 0 <= i < |e| && e[i] == s[k];
      PixAt(m, i);
    }
  }

  lemma CompiledTrace(m: Matrix, be: nat)
    requires m.Valid() && 1 <= be <= MAX_BLOCK_ELEMS && |m.indices| > 0
    ensures WellFormed(FromCsc(m, be), m.nbins, m.Npix()) && Readable(FromCsc(m, be))
    ensures LayoutTrace(FromCsc(m, be)) == Sort(Entries(m), be)
  {
    var s := Sort(Entries(m), be);
    var st := Starts(Keys(s, m.nbins, be));
    assert |multiset(s)| == |multiset(Entries(m))|;
    SourceOfMatrix(m, be);
    StartsTile(s, m.nbins, m.Npix(), be);
    LayoutArrays(s, m.nbins, m.Npix(), be);
    LayoutOfTrace(s, m.nbins, m.Npix(), be, FromCsc(m, be), st);
  }

  lemma {:induction false} EmptyBlocks(l: Layout, n: nat)
    requires Readable(l) && n < |l.blkPtr| && forall j :: 0 <= j < |l.blkPtr| ==> l.blkPtr[j] == 0
    ensures BlocksTrace(l, n) == []
  {
    if n > 0 { EmptyBlocks(l, n - 1); }
  }

  lemma EmptyTrace(m: Matrix, be: nat)
    requires m.Valid() && be >= 1 && |m.indices| == 0
    ensures WellFormed(FromCsc(m, be), m.nbins, m.Npix()) && Readable(FromCsc(m, be))
    ensures LayoutTrace(FromCsc(m, be)) == [] && Trace(m) == []
  {
    var l := FromCsc(m, be);
    EmptyBlocks(l, |l.blkPtr| - 1);
    TraceAt(m);
  }

  /** The layout of a matrix is well formed, and its kernel performs the additions
      of the csc dot, each exactly once, in another order. */
  lemma FromCscTrace(m: Matrix, be: nat)
    requires m.Valid() && 1 <= be <= MAX_BLOCK_ELEMS
    ensures WellFormed(FromCsc(m, be), m.nbins, m.Npix())
    ensures Readable(FromCsc(m, be))
    ensures multiset(LayoutTrace(FromCsc(m, be))) == multiset(Trace(m))
  {
    if |m.indices| == 0 {
      EmptyTrace(m, be);
    } else {
      CompiledTrace(m, be);
      EntriesAreTrace(m);
    }
  }

  /** The block layout is the same linear map as the matrix: every bin of every
      frame, for every block size the index type can hold. */
  lemma FromCscPowder(m: Matrix, be: nat, x: seq<real>, b: nat)
    requires m.Valid() && 1 <= be <= MAX_BLOCK_ELEMS
    ensures Readable(FromCsc(m, be)) && |FromCsc(m, be).blkPtr| >= 1
    ensures Powder(LayoutTrace(FromCsc(m, be)), x, b) == Powder(Trace(m), x, b)
  {
    FromCscTrace(m, be);
    PowderPermutation(LayoutTrace(FromCsc(m, be)), Trace(m), x, b);
  }
}
