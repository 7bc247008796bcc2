/** The selection as the sources run it, in place on the arrays of a frame. */
module TopPixelsRun {
  import opened TopPixels
  import opened TopPixelsProof

  /** The first n entries of the value and address arrays. */
  function Listed(vals: array<real>, adr: array<nat>, n: nat): (r: seq<Pixel>)
    requires n <= vals.Length && n <= adr.Length
    reads vals, adr
    ensures |r| == n
  {
    Zip(vals[..n], adr[..n])
  }

  function Zip(vals: seq<real>, adr: seq<nat>): (r: seq<Pixel>)
    requires |vals| == |adr|
    ensures |r| == |vals| && forall i :: 0 <= i < |r| ==> r[i] == Pixel(vals[i], adr[i])
  {
    seq(|vals|, i requires 0 <= i < |vals| => Pixel(vals[i], adr[i]))
  }

  function Fins(thr: seq<int>): (r: seq<Threshold>)
    ensures |r| == |thr| && forall i :: 0 <= i < |r| ==> r[i] == Fin(thr[i] as real)
  {
    seq(|thr|, i requires 0 <= i < |thr| => Fin(thr[i] as real))
  }

  lemma KeepNext(list: seq<Pixel>, i: nat, t: Threshold)
    requires i < |list|
    ensures Keep(list[..i + 1], t) == Keep(list[..i], t) + if Above(list[i].value, t) then [list[i]] else []
  {
    assert list[..i + 1][..i] == list[..i];
  }

  lemma {:induction false} KeepNone(list: seq<Pixel>, t: Threshold)
    requires forall i :: 0 <= i < |list| ==> !Above(list[i].value, t)
    ensures Keep(list, t) == []
  {
    if list != [] { KeepNone(list[..|list| - 1], t); }
  }

  // ---- the C driver -------------------------------------------------------

  /** The loop of bslz4_filter_gt: entries above the cut move down in place. */
  method Compact(vals: array<real>, adr: array<nat>, n: nat, cut: real) returns (k: nat)
    requires n <= vals.Length && n <= adr.Length
    modifies vals, adr
    ensures k <= n && Listed(vals, adr, k) == Keep(old(Listed(vals, adr, n)), Fin(cut))
  {
    ghost var list := Listed(vals, adr, n);
    ghost var kept: seq<Pixel> := [];
    k := 0;
    for i := 0 to n
      invariant k == |kept| <= i && kept == Keep(list[..i], Fin(cut))
      invariant forall j :: 0 <= j < k ==> vals[j] == kept[j].value && adr[j] == kept[j].adr
      invariant forall j :: i <= j < n ==> vals[j] == list[j].value && adr[j] == list[j].adr
    {
      KeepNext(list, i, Fin(cut));
      if vals[i] > cut {
        vals[k], adr[k] := vals[i], adr[i];
        k := k + 1;
        kept := kept + [list[i]];
      }
    }
    assert list[..n] == list;
    assert Listed(vals, adr, k) == kept;
  }

  /** bslz4_filter_gt; max is the largest value of a pixel type of fewer than 63 bits. */
  method FilterGt(vals: array<real>, adr: array<nat>, n: nat, thr: int, max: Limit) returns (k: nat)
    requires n <= vals.Length && n <= adr.Length && Bounded(Listed(vals, adr, n), max)
    modifies vals, adr
    ensures k <= n && Listed(vals, adr, k) == Keep(old(Listed(vals, adr, n)), Fin(thr as real))
  {
    if max.Max? && thr >= max.value {
      KeepNone(Listed(vals, adr, n), Fin(thr as real));
      return 0;
    }
    k := Compact(vals, adr, n, thr as real);
  }

  /** top_raise: level and count of a frame, its list filtered in place. */
  method TopRaise(vals: array<real>, adr: array<nat>, n0: nat, level0: int, howmany: nat, thr: seq<int>, max: Limit)
      returns (n: nat, level: int)
    requires n0 <= vals.Length && n0 <= adr.Length && -1 <= level0 < |thr| && Bounded(Listed(vals, adr, n0), max)
    modifies vals, adr
    ensures n <= n0 && Running(Listed(vals, adr, n), level) == Raise(Running(old(Listed(vals, adr, n0)), level0), howmany, Fins(thr))
  {
    n, level := n0, level0;
    while Over(level, n, howmany) && level + 1 < |thr|
      invariant n <= n0 && -1 <= level < |thr| && Bounded(Listed(vals, adr, n), max)
      invariant Raise(Running(Listed(vals, adr, n), level), howmany, Fins(thr)) ==
                Raise(Running(old(Listed(vals, adr, n0)), level0), howmany, Fins(thr))
      decreases |thr| - level
    {
      level := level + 1;
      KeepBounded(Listed(vals, adr, n), Fins(thr)[level], max);
      n := FilterGt(vals, adr, n, thr[level], max);
    }
  }

  /** The pixels of a block that are above the threshold, appended to the frame's list. */
  method Collect(block: seq<Pixel>, vals: array<real>, adr: array<nat>, n0: nat, t: Threshold) returns (n: nat)
    requires n0 + |block| <= vals.Length && n0 + |block| <= adr.Length
    modifies vals, adr
    ensures n0 <= n <= n0 + |block| && Listed(vals, adr, n) == old(Listed(vals, adr, n0)) + Keep(block, t)
  {
    n := n0;
    ghost var list := Listed(vals, adr, n0);
    for j := 0 to |block|
      invariant n0 <= n <= n0 + j && Listed(vals, adr, n) == list + Keep(block[..j], t)
    {
      KeepNext(block, j, t);
      if Above(block[j].value, t) {
        ghost var was := Listed(vals, adr, n);
        vals[n], adr[n] := block[j].value, block[j].adr;
        n := n + 1;
        assert Listed(vals, adr, n) == was + [block[j]];
      }
    }
    assert block[..|block|] == block;
  }

  lemma {:induction false} ConcatGrows(blocks: seq<seq<Pixel>>, b: nat)
    requires b < |blocks|
    ensures Concat(blocks[..b + 1]) == Concat(blocks[..b]) + blocks[b]
    ensures |Concat(blocks[..b + 1])| <= |Concat(blocks)|
    decreases |blocks|
  {
    assert blocks[..b + 1][..b] == blocks[..b];
    if b + 1 < |blocks| {
      ConcatGrows(blocks[..|blocks| - 1], b);
      assert blocks[..|blocks| - 1][..b + 1] == blocks[..b + 1];
    } else {
      assert blocks[..b + 1] == blocks;
    }
  }

  /** One turn of the block loop: raise, then collect the block at the level's cut. */
  method DecodeBlock(block: seq<Pixel>, vals: array<real>, adr: array<nat>, n0: nat, level0: int, cut: real, howmany: nat, thr: seq<int>, max: Limit)
      returns (n: nat, level: int)
    requires n0 + |block| <= vals.Length && n0 + |block| <= adr.Length && -1 <= level0 < |thr|
    requires Bounded(Listed(vals, adr, n0), max)
    modifies vals, adr
    ensures n <= n0 + |block|
    ensures Running(Listed(vals, adr, n), level) == AddBlock(Running(old(Listed(vals, adr, n0)), level0), block, howmany, cut, Fins(thr))
  {
    n, level := TopRaise(vals, adr, n0, level0, howmany, thr, max);
    n := Collect(block, vals, adr, n, CutAt(cut, Fins(thr), level));
  }

  /** A frame in the block loop: raise before every block, collect it at the level's cut,
      raise once more, truncate.  The arrays hold what top_pixels selects of all the
      pixels above the cut. */
  method DecodeFrame(blocks: seq<seq<Pixel>>, vals: array<real>, adr: array<nat>, cut: real, howmany: nat, thr: seq<int>, max: Limit)
      returns (npx: nat, level: int, nabove: nat)
    requires |Concat(blocks)| <= vals.Length && |Concat(blocks)| <= adr.Length
    requires FromCut(cut, Fins(thr)) && forall b :: 0 <= b < |blocks| ==> Bounded(blocks[b], max)
    modifies vals, adr
    ensures npx <= vals.Length && npx <= adr.Length
    ensures Selection(Listed(vals, adr, npx), level, nabove) == Select(Keep(Concat(blocks), Fin(cut)), howmany, Fins(thr))
  {
    npx, level := 0, -1;
    for b := 0 to |blocks|
      invariant npx <= |Concat(blocks[..b])| <= |Concat(blocks)| && -1 <= level < |thr|
      invariant Running(Listed(vals, adr, npx), level) == AddBlocks(blocks[..b], howmany, cut, Fins(thr))
      invariant Bounded(Listed(vals, adr, npx), max)
    {
      ConcatGrows(blocks, b);
      assert blocks[..b + 1][..b] == blocks[..b];
      AddBlockBounded(Running(Listed(vals, adr, npx), level), blocks[b], howmany, cut, Fins(thr), max);
      npx, level := DecodeBlock(blocks[b], vals, adr, npx, level, cut, howmany, thr, max);
    }
    assert blocks[..|blocks|] == blocks;
    IncrementalIsSelect(blocks, howmany, cut, Fins(thr));
    npx, level := TopRaise(vals, adr, npx, level, howmany, thr, max);
    nabove := npx;
    if npx > howmany {
      ghost var list := Listed(vals, adr, npx);
      npx := howmany;
      assert Listed(vals, adr, npx) == list[..howmany];
    }
  }
}
