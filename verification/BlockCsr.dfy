/**
  The bsb-csr layout: per decode block a CSR of the bins the block touches
  (`_bsb_csr_from_csc`), read back as its dense kernel does.
*/
module BlockCsr {
  import opened Csc
  import opened Numpy
  import opened Product

  /** The in-block pixel index is a uint16. */
  const MAX_BLOCK_ELEMS: nat := 65536

  datatype Layout = Layout(
    blkPtr: seq<nat>, bins: seq<nat>, binPtr: seq<nat>, idx: seq<nat>, data: seq<real>, blockElems: nat)

  // ---- the compiler -------------------------------------------------------

  /** The entries of the matrix as (bin, pixel, weight): indices, pix and data. */
  function Entries(m: Matrix): (r: seq<Add>)
    requires m.Valid()
    ensures |r| == |m.indices|
  {
    TraceAt(m);
    seq(|m.indices|, k requires 0 <= k < |m.indices| => Add(m.indices[k], Pix(m)[k], m.data[k]))
  }

  /** The order of np.lexsort((pix, bin, block)): by block, then bin, then pixel. */
  predicate Before(a: Add, b: Add, be: nat)
    requires be >= 1
  {
    var i, j := a.pix / be, b.pix / be;
    i < j || (i == j && (a.bin < b.bin || (a.bin == b.bin && a.pix <= b.pix)))
  }

  function Insert(s: seq<Add>, a: Add, be: nat): (r: seq<Add>)
    requires be >= 1
    ensures multiset(r) == multiset(s) + multiset{a}
  {
    if s == [] then [a]
    else
      var n := |s| - 1;
      assert s == s[..n] + [s[n]];
      if Before(s[n], a, be) then s + [a] else Insert(s[..n], a, be) + [s[n]]
  }

  /** The stable sort of the entries; applying np.lexsort's order to each array. */
  function Sort(s: seq<Add>, be: nat): (r: seq<Add>)
    requires be >= 1
    ensures multiset(r) == multiset(s)
  {
    if s == [] then []
    else
      var n := |s| - 1;
      assert s == s[..n] + [s[n]];
      Insert(Sort(s[..n], be), s[n], be)
  }

  ghost predicate Sorted(s: seq<Add>, be: nat)
    requires be >= 1
  {
    forall i, j :: 0 <= i <= j < |s| ==> Before(s[i], s[j], be)
  }

  /** The group key: block * (nbins + 1) + bin. */
  function Key(a: Add, be: nat, nbins: nat): nat
    requires be >= 1
  {
    (a.pix / be) * (nbins + 1) + a.bin
  }

  /** concatenate(([0], flatnonzero(diff(key)) + 1)): where a new key starts. */
  function Starts(key: seq<nat>): (r: seq<nat>)
  {
    if key == [] then []
    else
      var n := |key| - 1;
      Starts(key[..n]) + if n == 0 || key[n] != key[n - 1] then [n] else []
  }

  function FromCsc(m: Matrix, be: nat): (l: Layout)
    requires m.Valid() && be >= 1
  {
    var nz := |m.indices|;
    var nblocks := Blocks(m.Npix(), be);
    if nz == 0 then Layout(seq(nblocks + 1, _ => 0), [], [0], [], [], be)
    else
      var s := Sort(Entries(m), be);
      LayoutOf(s, m.nbins, nblocks, be)
  }

  function Keys(s: seq<Add>, nbins: nat, be: nat): (r: seq<nat>)
    requires be >= 1
    ensures |r| == |s| && forall k :: 0 <= k < |s| ==> r[k] == Key(s[k], be, nbins)
  {
    seq(|s|, k requires 0 <= k < |s| => Key(s[k], be, nbins))
  }

  /** The block of the first entry of each group. */
  function GroupBlocks(s: seq<Add>, starts: seq<nat>, be: nat): (r: seq<nat>)
    requires be >= 1 && forall g :: 0 <= g < |starts| ==> starts[g] < |s|
    ensures |r| == |starts| && forall g :: 0 <= g < |r| ==> r[g] == s[starts[g]].pix / be
  {
    seq(|starts|, g requires 0 <= g < |starts| => s[starts[g]].pix / be)
  }

  /** The layout arrays of sorted entries. */
  function LayoutOf(s: seq<Add>, nbins: nat, nblocks: nat, be: nat): (l: Layout)
    requires be >= 1
  {
    var starts := Starts(Keys(s, nbins, be));
    StartsBounds(Keys(s, nbins, be));
    var groupBlock := GroupBlocks(s, starts, be);
    Layout(
      seq(nblocks + 1, j requires 0 <= j => SearchSorted(groupBlock, j)),
      seq(|starts|, g requires 0 <= g < |starts| => s[starts[g]].bin),
      starts + [|s|],
      seq(|s|, k requires 0 <= k < |s| => (s[k].pix % be) % MAX_BLOCK_ELEMS),
      seq(|s|, k requires 0 <= k < |s| => s[k].w),
      be)
  }

  // ---- the groups ---------------------------------------------------------

  lemma {:induction false} StartsBounds(key: seq<nat>)
    ensures forall g :: 0 <= g < |Starts(key)| ==> Starts(key)[g] < |key|
    ensures forall g, h :: 0 <= g < h < |Starts(key)| ==> Starts(key)[g] < Starts(key)[h]
    ensures key != [] ==> Starts(key) != [] && Starts(key)[0] == 0
  {
    if key != [] { StartsBounds(key[..|key| - 1]); }
  }

  /** Where group g ends. */
  function EndOf(starts: seq<nat>, n: nat, g: nat): nat
    requires g < |starts|
  {
    if g + 1 < |starts| then starts[g + 1] else n
  }

  /** What the dense kernel relies on (src/steps/dot_bsbcsr.hpp): the pointers
      tile the groups and the entries, no group is empty, the bins of a block
      are distinct and ascending, and every index stays inside its own array. */
  ghost predicate WellFormed(l: Layout, nbins: nat, npix: nat) {
    && l.blockElems >= 1
    && |l.blkPtr| == Blocks(npix, l.blockElems) + 1
    && l.blkPtr[0] == 0 && l.blkPtr[|l.blkPtr| - 1] == |l.bins|
    && (forall j :: 0 <= j < |l.blkPtr| ==> l.blkPtr[j] <= |l.bins|)
    && (forall i, j :: 0 <= i <= j < |l.blkPtr| ==> l.blkPtr[i] <= l.blkPtr[j])
    && |l.binPtr| == |l.bins| + 1
    && l.binPtr[0] == 0 && l.binPtr[|l.bins|] == |l.idx| == |l.data|
    && (forall g, h :: 0 <= g < h < |l.binPtr| ==> l.binPtr[g] < l.binPtr[h])
    && (forall g :: 0 <= g < |l.bins| ==> l.bins[g] < nbins)
    && (forall j, g, h :: 0 <= j < |l.blkPtr| - 1 && l.blkPtr[j] <= g < h < l.blkPtr[j + 1] ==> l.bins[g] < l.bins[h])
    && (forall k :: 0 <= k < |l.idx| ==> l.idx[k] < l.blockElems && l.idx[k] < MAX_BLOCK_ELEMS)
  }

  // ---- the kernel's reading -----------------------------------------------

  /** The pointers are in range, so that the kernel's reads are. */
  predicate Readable(l: Layout) {
    && |l.binPtr| == |l.bins| + 1 && |l.idx| == |l.data| && |l.blkPtr| >= 1
    && (forall g :: 0 <= g < |l.binPtr| ==> l.binPtr[g] <= |l.data|)
    && (forall j :: 0 <= j < |l.blkPtr| ==> l.blkPtr[j] <= |l.bins|)
  }

  /** Entries lo .. hi of group g of block j: data[k] * px[idx[k]] into bins[g],
      px the block's pixels. */
  function GroupTrace(l: Layout, j: nat, g: nat, lo: nat, hi: nat): seq<Add>
    requires Readable(l) && g < |l.bins| && hi <= |l.data|
  {
    if hi <= lo then []
    else GroupTrace(l, j, g, lo, hi - 1) + [Add(l.bins[g], j * l.blockElems + l.idx[hi - 1], l.data[hi - 1])]
  }

  function GroupsTrace(l: Layout, j: nat, lo: nat, hi: nat): seq<Add>
    requires Readable(l) && hi <= |l.bins|
  {
    if hi <= lo then []
    else GroupsTrace(l, j, lo, hi - 1) + GroupTrace(l, j, hi - 1, l.binPtr[hi - 1], l.binPtr[hi])
  }

  /** The additions of the dense kernel over the first n blocks of a frame. */
  function BlocksTrace(l: Layout, n: nat): seq<Add>
    requires Readable(l) && n < |l.blkPtr|
  {
    if n == 0 then [] else BlocksTrace(l, n - 1) + GroupsTrace(l, n - 1, l.blkPtr[n - 1], l.blkPtr[n])
  }

  function LayoutTrace(l: Layout): seq<Add>
    requires Readable(l)
  {
    BlocksTrace(l, |l.blkPtr| - 1)
  }

  // The nested loops walk s in order when each group is a stretch of it.

  ghost predicate EntryOk(l: Layout, s: seq<Add>, j: nat, g: nat, k: nat)
    requires g < |l.bins| && |l.idx| == |l.data| == |s|
  {
    k < |s| && s[k] == Add(l.bins[g], j * l.blockElems + l.idx[k], l.data[k])
  }

  ghost predicate GroupOk(l: Layout, s: seq<Add>, j: nat, g: nat)
    requires Readable(l) && |l.data| == |s|
  {
    && g < |l.bins| && l.binPtr[g] <= l.binPtr[g + 1]
    && forall k :: l.binPtr[g] <= k < l.binPtr[g + 1] ==> EntryOk(l, s, j, g, k)
  }

  ghost predicate BlockOk(l: Layout, s: seq<Add>, j: nat)
    requires Readable(l) && |l.data| == |s|
  {
    && j + 1 < |l.blkPtr| && l.blkPtr[j] <= l.blkPtr[j + 1]
    && forall g :: l.blkPtr[j] <= g < l.blkPtr[j + 1] ==> GroupOk(l, s, j, g)
  }

  /** Sorted entries of a matrix: what the layout arrays are cut from. */
  ghost predicate Source(s: seq<Add>, nbins: nat, npix: nat, be: nat) {
    && be >= 1
    && Sorted(s, be)
    && forall k :: 0 <= k < |s| ==> s[k].bin < nbins && s[k].pix < npix
  }

  predicate SameGroup(a: Add, b: Add, be: nat)
    requires be >= 1
  {
    a.bin == b.bin && a.pix / be == b.pix / be
  }

  predicate Less(a: Add, b: Add, be: nat)
    requires be >= 1
  {
    a.pix / be < b.pix / be || (a.pix / be == b.pix / be && a.bin < b.bin)
  }

  /** The starts tile s into groups of one block and bin, in ascending order. */
  ghost predicate Tiles(s: seq<Add>, st: seq<nat>, be: nat) {
    && be >= 1 && st != [] && st[0] == 0
    && (forall g :: 0 <= g < |st| ==> st[g] < |s|)
    && (forall g, h :: 0 <= g < h < |st| ==> st[g] < st[h])
    && (forall g, k :: 0 <= g < |st| && st[g] <= k < |s| && k < EndOf(st, |s|, g) ==> SameGroup(s[k], s[st[g]], be))
    && (forall g, h :: 0 <= g < h < |st| ==> st[g] < |s| && st[h] < |s| && Less(s[st[g]], s[st[h]], be))
  }

  /** What the arrays hold, in terms of the sorted entries s and the starts st of
      their groups; group g is listed before block j when its entries lie there. */
  ghost predicate Arrays(l: Layout, s: seq<Add>, st: seq<nat>, npix: nat) {
    && l.blockElems >= 1 && |l.blkPtr| == Blocks(npix, l.blockElems) + 1
    && |l.bins| == |st| && l.binPtr == st + [|s|] && |l.idx| == |l.data| == |s|
    && (forall g :: 0 <= g < |st| ==> st[g] < |s| && l.bins[g] == s[st[g]].bin)
    && (forall k :: 0 <= k < |s| ==> l.idx[k] == (s[k].pix % l.blockElems) % MAX_BLOCK_ELEMS && l.data[k] == s[k].w)
    && (forall j :: 0 <= j < |l.blkPtr| ==> l.blkPtr[j] <= |st|)
    && (forall j, g :: 0 <= j < |l.blkPtr| && 0 <= g < |st| ==> (g < l.blkPtr[j] <==> s[st[g]].pix / l.blockElems < j))
  }
}
