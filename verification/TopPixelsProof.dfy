/** Selecting as the blocks come is selecting from the whole list. */
module TopPixelsProof {
  import opened TopPixels

  lemma {:induction false} KeepTwice(list: seq<Pixel>, s: Threshold, t: Threshold)
    requires AtMost(s, t)
    ensures Keep(Keep(list, s), t) == Keep(list, t)
  {
    if list != [] {
      var rest := list[..|list| - 1];
      KeepTwice(rest, s, t);
      var kept := Keep(list, s);
      if Above(list[|list| - 1].value, s) { assert kept[..|kept| - 1] == Keep(rest, s); }
    }
  }

  lemma {:induction false} KeepAppend(a: seq<Pixel>, b: seq<Pixel>, t: Threshold)
    ensures Keep(a + b, t) == Keep(a, t) + Keep(b, t)
  {
    if b == [] {
      assert a + b == a;
    } else {
      var rest := b[..|b| - 1];
      assert (a + b)[..|a + b| - 1] == a + rest;
      KeepAppend(a, rest, t);
    }
  }

  /** Exactly the pixels above the threshold are kept, as often as they occur. */
  lemma {:induction false} KeepCount(list: seq<Pixel>, t: Threshold, p: Pixel)
    ensures multiset(Keep(list, t))[p] == if Above(p.value, t) then multiset(list)[p] else 0
  {
    if list != [] {
      var rest := list[..|list| - 1];
      assert list == rest + [list[|list| - 1]];
      KeepCount(rest, t, p);
    }
  }

  lemma CutsRise(cut: real, thr: seq<Threshold>, k: int, l: int)
    requires FromCut(cut, thr) && -1 <= k <= l < |thr|
    ensures AtMost(CutAt(cut, thr, k), CutAt(cut, thr, l))
  {
  }

  /** Moving on keeps what the running list means, and stops only at a level that is
      within its limit or the last. */
  lemma {:induction false} RaiseTracks(r: Running, seen: seq<Pixel>, howmany: nat, cut: real, thr: seq<Threshold>)
    requires FromCut(cut, thr) && Tracks(r, seen, howmany, cut, thr)
    ensures Tracks(Raise(r, howmany, thr), seen, howmany, cut, thr)
    ensures var q := Raise(r, howmany, thr); !Over(q.level, |q.list|, howmany) || q.level + 1 == |thr|
    decreases |thr| - r.level
  {
    if Over(r.level, |r.list|, howmany) && r.level + 1 < |thr| {
      CutsRise(cut, thr, r.level, r.level + 1);
      KeepTwice(seen, CutAt(cut, thr, r.level), thr[r.level + 1]);
      RaiseTracks(Running(Keep(r.list, thr[r.level + 1]), r.level + 1), seen, howmany, cut, thr);
    }
  }

  lemma AppendTracks(r: Running, seen: seq<Pixel>, block: seq<Pixel>, howmany: nat, cut: real, thr: seq<Threshold>)
    requires Tracks(r, seen, howmany, cut, thr)
    ensures Tracks(r.(list := r.list + Keep(block, CutAt(cut, thr, r.level))), seen + block, howmany, cut, thr)
  {
    forall k | -1 <= k <= r.level
      ensures Keep(seen + block, CutAt(cut, thr, k)) == Keep(seen, CutAt(cut, thr, k)) + Keep(block, CutAt(cut, thr, k)) {
      KeepAppend(seen, block, CutAt(cut, thr, k));
    }
  }

  lemma {:induction false} BlocksTrack(blocks: seq<seq<Pixel>>, howmany: nat, cut: real, thr: seq<Threshold>)
    requires FromCut(cut, thr)
    ensures Tracks(AddBlocks(blocks, howmany, cut, thr), Concat(blocks), howmany, cut, thr)
  {
    if blocks != [] {
      var rest := blocks[..|blocks| - 1];
      BlocksTrack(rest, howmany, cut, thr);
      var r := AddBlocks(rest, howmany, cut, thr);
      RaiseTracks(r, Concat(rest), howmany, cut, thr);
      AppendTracks(Raise(r, howmany, thr), Concat(rest), blocks[|blocks| - 1], howmany, cut, thr);
    }
  }

  lemma {:induction false} FirstBelowIs(list: seq<Pixel>, howmany: nat, thr: seq<Threshold>, k: nat, level: nat)
    requires k <= level < |thr|
    requires forall i :: k <= i < level ==> |Keep(list, thr[i])| >= howmany
    requires |Keep(list, thr[level])| < howmany || level + 1 == |thr|
    ensures FirstBelow(list, howmany, thr, k) == level
    decreases |thr| - k
  {
    if k < level { FirstBelowIs(list, howmany, thr, k + 1, level); }
  }

  /** A list that tracks a frame and has stopped moving is the selection. */
  lemma StoppedIsSelected(r: Running, seen: seq<Pixel>, howmany: nat, cut: real, thr: seq<Threshold>)
    requires FromCut(cut, thr) && Tracks(r, seen, howmany, cut, thr)
    requires !Over(r.level, |r.list|, howmany) || r.level + 1 == |thr|
    ensures Selection(First(r.list, howmany), r.level, |r.list|) == Select(Keep(seen, Fin(cut)), howmany, thr)
  {
    var list := Keep(seen, Fin(cut));
    assert list == Keep(seen, CutAt(cut, thr, -1));
    if r.level >= 0 {
      assert Over(-1, |list|, howmany);
      forall i | 0 <= i <= r.level ensures Keep(list, thr[i]) == Keep(seen, CutAt(cut, thr, i)) {
        KeepTwice(seen, Fin(cut), thr[i]);
      }
      forall i | 0 <= i < r.level ensures |Keep(list, thr[i])| >= howmany {
        assert Over(i, |Keep(seen, CutAt(cut, thr, i))|, howmany);
      }
      FirstBelowIs(list, howmany, thr, 0, r.level);
    }
  }

  /** Filtering as the blocks come is selecting afterwards: for every split of a frame
      into blocks, the kept pixels, the level and the count are those of the rule on
      all the pixels above the cut. */
  lemma IncrementalIsSelect(blocks: seq<seq<Pixel>>, howmany: nat, cut: real, thr: seq<Threshold>)
    requires FromCut(cut, thr)
    ensures Finish(AddBlocks(blocks, howmany, cut, thr), howmany, thr) ==
            Select(Keep(Concat(blocks), Fin(cut)), howmany, thr)
  {
    BlocksTrack(blocks, howmany, cut, thr);
    var r := AddBlocks(blocks, howmany, cut, thr);
    RaiseTracks(r, Concat(blocks), howmany, cut, thr);
    StoppedIsSelected(Raise(r, howmany, thr), Concat(blocks), howmany, cut, thr);
  }

  lemma {:induction false} KeepBounded(list: seq<Pixel>, t: Threshold, max: Limit)
    requires Bounded(list, max)
    ensures Bounded(Keep(list, t), max)
  {
    if list != [] { KeepBounded(list[..|list| - 1], t, max); }
  }

  lemma {:induction false} RaiseBounded(r: Running, howmany: nat, thr: seq<Threshold>, max: Limit)
    requires InRange(r, thr) && Bounded(r.list, max)
    ensures Bounded(Raise(r, howmany, thr).list, max)
    decreases |thr| - r.level
  {
    if Over(r.level, |r.list|, howmany) && r.level + 1 < |thr| {
      KeepBounded(r.list, thr[r.level + 1], max);
      RaiseBounded(Running(Keep(r.list, thr[r.level + 1]), r.level + 1), howmany, thr, max);
    }
  }

  lemma AddBlockBounded(r: Running, block: seq<Pixel>, howmany: nat, cut: real, thr: seq<Threshold>, max: Limit)
    requires InRange(r, thr) && Bounded(r.list, max) && Bounded(block, max)
    ensures Bounded(AddBlock(r, block, howmany, cut, thr).list, max)
  {
    RaiseBounded(r, howmany, thr, max);
    KeepBounded(block, CutAt(cut, thr, Raise(r, howmany, thr).level), max);
  }

  /** Before a block is added the list is within howmany, unless the level is the last. */
  lemma {:induction false} RaiseBound(r: Running, howmany: nat, thr: seq<Threshold>)
    requires InRange(r, thr)
    ensures |Raise(r, howmany, thr).list| > howmany ==> Raise(r, howmany, thr).level + 1 == |thr|
    decreases |thr| - r.level
  {
    if Over(r.level, |r.list|, howmany) && r.level + 1 < |thr| {
      RaiseBound(Running(Keep(r.list, thr[r.level + 1]), r.level + 1), howmany, thr);
    }
  }

  /** The last threshold, or the cut when there is none. */
  function LastCut(cut: real, thr: seq<Threshold>): Threshold {
    CutAt(cut, thr, |thr| - 1)
  }

  lemma TracksAbove(r: Running, seen: seq<Pixel>, howmany: nat, cut: real, thr: seq<Threshold>)
    requires FromCut(cut, thr) && Tracks(r, seen, howmany, cut, thr)
    ensures Keep(r.list, LastCut(cut, thr)) == Keep(seen, LastCut(cut, thr))
  {
    CutsRise(cut, thr, r.level, |thr| - 1);
    KeepTwice(seen, CutAt(cut, thr, r.level), LastCut(cut, thr));
  }

  /** Before a block is added, and at the end of the frame, the list is within howmany if
      and only if no more than howmany of the pixels seen are above the last threshold:
      so a list stays within howmany and one block exactly as long as that holds. */
  lemma ListBoundExactly(blocks: seq<seq<Pixel>>, howmany: nat, cut: real, thr: seq<Threshold>)
    requires FromCut(cut, thr)
    ensures |Raise(AddBlocks(blocks, howmany, cut, thr), howmany, thr).list| <= howmany
            <==> |Keep(Concat(blocks), LastCut(cut, thr))| <= howmany
  {
    var r := AddBlocks(blocks, howmany, cut, thr);
    var q := Raise(r, howmany, thr);
    BlocksTrack(blocks, howmany, cut, thr);
    RaiseTracks(r, Concat(blocks), howmany, cut, thr);
    RaiseBound(r, howmany, thr);
    TracksAbove(q, Concat(blocks), howmany, cut, thr);
  }

  /** The list after a block is within howmany and that block, whenever the pixels before
      it above the last threshold are within howmany. */
  lemma ListBound(blocks: seq<seq<Pixel>>, block: seq<Pixel>, howmany: nat, cut: real, thr: seq<Threshold>)
    requires FromCut(cut, thr) && |Keep(Concat(blocks), LastCut(cut, thr))| <= howmany
    ensures |AddBlocks(blocks + [block], howmany, cut, thr).list| <= howmany + |block|
  {
    ListBoundExactly(blocks, howmany, cut, thr);
    assert (blocks + [block])[..|blocks|] == blocks;
  }

  /** At the last level the list does grow past howmany and a block: here to four pixels
      for howmany == 1 and a last block of one. */
  lemma LastLevelGrows(p: Pixel)
    requires p.value == 9.0
    ensures |AddBlocks([[p, p, p], [p]], 1, 0.0, [Fin(5.0)]).list| == 4
  {
    var three, thr := [p, p, p], [Fin(5.0)];
    KeepAll(three, Fin(0.0));
    KeepAll(three, Fin(5.0));
    KeepAll([p], Fin(5.0));
    assert [three][..0] == [] && [three, [p]][..1] == [three];
    assert AddBlocks([], 1, 0.0, thr) == Running([], -1);
    assert AddBlocks([three], 1, 0.0, thr) == Running([] + three, -1);
    assert [] + three == three;
    RaiseToLast(three, 1, thr);
  }

  lemma RaiseToLast(list: seq<Pixel>, howmany: nat, thr: seq<Threshold>)
    requires |thr| == 1 && |list| > howmany && Keep(list, thr[0]) == list
    ensures Raise(Running(list, -1), howmany, thr) == Running(list, 0)
  {
    assert Raise(Running(list, 0), howmany, thr) == Running(list, 0);
  }

  lemma {:induction false} KeepAll(list: seq<Pixel>, t: Threshold)
    requires forall i :: 0 <= i < |list| ==> Above(list[i].value, t)
    ensures Keep(list, t) == list
  {
    if list != [] { KeepAll(list[..|list| - 1], t); }
  }

  // ---- what a selection is ------------------------------------------------

  lemma {:induction false} FirstBelowStops(list: seq<Pixel>, howmany: nat, thr: seq<Threshold>, k: nat)
    requires k < |thr|
    ensures var l := FirstBelow(list, howmany, thr, k);
            && (forall i :: k <= i < l ==> |Keep(list, thr[i])| >= howmany)
            && (|Keep(list, thr[l])| < howmany || l + 1 == |thr|)
    decreases |thr| - k
  {
    if !(k + 1 == |thr| || |Keep(list, thr[k])| < howmany) { FirstBelowStops(list, howmany, thr, k + 1); }
  }

  predicate AtLevel(s: Selection, list: seq<Pixel>, howmany: nat, thr: seq<Threshold>) {
    && 0 <= s.level < |thr| && s.nabove == |Keep(list, thr[s.level])|
    && s.kept == First(Keep(list, thr[s.level]), howmany)
    && (forall i :: 0 <= i < s.level ==> |Keep(list, thr[i])| >= howmany)
    && (s.nabove < howmany || s.level + 1 == |thr|)
  }

  /** A selection never returns more than howmany, keeps everything when the list is
      short enough, and else is at the lowest level that leaves fewer than howmany. */
  lemma SelectMeans(list: seq<Pixel>, howmany: nat, thr: seq<Threshold>)
    ensures var s := Select(list, howmany, thr);
            && |s.kept| <= howmany && (s.level == -1 <==> |list| <= howmany || thr == [])
            && (|list| <= howmany ==> s.kept == list)
            && (s.level == -1 ==> s.nabove == |list| && s.kept == First(list, howmany))
            && (s.level >= 0 ==> AtLevel(s, list, howmany, thr))
  {
    if thr != [] { FirstBelowStops(list, howmany, thr, 0); }
  }
}
