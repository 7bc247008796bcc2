/**
  The pixels a frame returns when it has too many: those above the first of the sorted
  thresholds that leaves fewer than `howmany`, at most the first `howmany` of them.
  `Select` is the rule on a whole list; `Running` is how the decoder applies it block
  by block.
*/
module TopPixels {
  /** A value above the cut, or not, and where it is. */
  datatype Pixel = Pixel(value: real, adr: nat)

  /** A threshold, as a float that is not NaN. */
  datatype Threshold = NegInf | Fin(t: real) | PosInf

  predicate Above(v: real, t: Threshold) {
    t.NegInf? || (t.Fin? && v > t.t)
  }

  predicate AtMost(s: Threshold, t: Threshold) {
    s.NegInf? || t.PosInf? || (s.Fin? && t.Fin? && s.t <= t.t)
  }

  predicate Sorted(thr: seq<Threshold>) {
    forall i, j :: 0 <= i < j < |thr| ==> AtMost(thr[i], thr[j])
  }

  function Keep(list: seq<Pixel>, t: Threshold): (r: seq<Pixel>)
    ensures |r| <= |list|
  {
    if list == [] then []
    else
      var rest := Keep(list[..|list| - 1], t);
      var last := list[|list| - 1];
      if Above(last.value, t) then rest + [last] else rest
  }

  /** At most the first n. */
  function First(list: seq<Pixel>, n: nat): seq<Pixel> {
    if |list| <= n then list else list[..n]
  }

  // ---- selecting afterwards -----------------------------------------------

  /** The kept pixels, the level of the cut applied (-1 is the frame's own cut) and the
      number of pixels above it. */
  datatype Selection = Selection(kept: seq<Pixel>, level: int, nabove: nat)

  /** The first level from k that leaves fewer than howmany, else the last. */
  function FirstBelow(list: seq<Pixel>, howmany: nat, thr: seq<Threshold>, k: nat): (level: nat)
    requires k < |thr|
    ensures k <= level < |thr|
    decreases |thr| - k
  {
    if k + 1 == |thr| || |Keep(list, thr[k])| < howmany then k else FirstBelow(list, howmany, thr, k + 1)
  }

  /** top_pixels on a list of pixels above the cut. */
  function Select(list: seq<Pixel>, howmany: nat, thr: seq<Threshold>): Selection {
    if |list| <= howmany then Selection(list, -1, |list|)
    else if thr == [] then Selection(list[..howmany], -1, |list|)
    else
      var level := FirstBelow(list, howmany, thr, 0);
      var above := Keep(list, thr[level]);
      Selection(First(above, howmany), level, |above|)
  }

  // ---- selecting as the blocks come ---------------------------------------

  /** A frame's list so far, and its level. */
  datatype Running = Running(list: seq<Pixel>, level: int)

  predicate InRange(r: Running, thr: seq<Threshold>) {
    -1 <= r.level < |thr|
  }

  /** top_thr */
  function CutAt(cut: real, thr: seq<Threshold>, level: int): Threshold
    requires -1 <= level < |thr|
  {
    if level < 0 then Fin(cut) else thr[level]
  }

  predicate Over(level: int, n: nat, howmany: nat) {
    if level < 0 then n > howmany else n >= howmany
  }

  /** top_raise */
  function Raise(r: Running, howmany: nat, thr: seq<Threshold>): (q: Running)
    requires InRange(r, thr)
    ensures InRange(q, thr) && r.level <= q.level
    decreases |thr| - r.level
  {
    if !Over(r.level, |r.list|, howmany) || r.level + 1 >= |thr| then r
    else Raise(Running(Keep(r.list, thr[r.level + 1]), r.level + 1), howmany, thr)
  }

  /** A block: move to the next threshold as needed, then collect at the current one. */
  function AddBlock(r: Running, block: seq<Pixel>, howmany: nat, cut: real, thr: seq<Threshold>): (q: Running)
    requires InRange(r, thr)
    ensures InRange(q, thr)
  {
    var raised := Raise(r, howmany, thr);
    raised.(list := raised.list + Keep(block, CutAt(cut, thr, raised.level)))
  }

  function AddBlocks(blocks: seq<seq<Pixel>>, howmany: nat, cut: real, thr: seq<Threshold>): (r: Running)
    ensures InRange(r, thr)
  {
    if blocks == [] then Running([], -1)
    else AddBlock(AddBlocks(blocks[..|blocks| - 1], howmany, cut, thr), blocks[|blocks| - 1], howmany, cut, thr)
  }

  /** The end of a frame: the last move, then truncation. */
  function Finish(r: Running, howmany: nat, thr: seq<Threshold>): Selection
    requires InRange(r, thr)
  {
    var q := Raise(r, howmany, thr);
    Selection(First(q.list, howmany), q.level, |q.list|)
  }

  function Concat(blocks: seq<seq<Pixel>>): seq<Pixel> {
    if blocks == [] then [] else Concat(blocks[..|blocks| - 1]) + blocks[|blocks| - 1]
  }

  /** No threshold is below the cut, as in the array C is given. */
  predicate FromCut(cut: real, thr: seq<Threshold>) {
    Sorted(thr) && forall k :: 0 <= k < |thr| ==> AtMost(Fin(cut), thr[k])
  }

  /** The largest value of a pixel type, where there is one that matters. */
  datatype Limit = NoLimit | Max(value: int)

  predicate Bounded(list: seq<Pixel>, max: Limit) {
    max.Max? ==> forall i :: 0 <= i < |list| ==> list[i].value <= max.value as real
  }

  /** The list holds what is above the level's cut of all the pixels seen, and every
      lower level was over its limit. */
  ghost predicate Tracks(r: Running, seen: seq<Pixel>, howmany: nat, cut: real, thr: seq<Threshold>) {
    && InRange(r, thr)
    && r.list == Keep(seen, CutAt(cut, thr, r.level))
    && forall k :: -1 <= k < r.level ==> Over(k, |Keep(seen, CutAt(cut, thr, k))|, howmany)
  }
}
