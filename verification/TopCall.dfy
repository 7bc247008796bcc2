/**
  The whole of one call's limit on the pixels of a frame: the array that Request makes,
  the C side reading it and collecting the blocks, and what finish makes of the result.
*/
module TopCall {
  import opened Division
  import opened Dtypes
  import opened Layouts
  import opened TopNumpy
  import opened TopPixels
  import opened TopPixelsRun
  import opened TopRequest

  /** The user's thresholds, else the default ones; those of an infinite cut are infinite. */
  function ThresholdsFor(thresholds: Option<seq<Threshold>>, cut: Threshold): seq<Threshold> {
    match thresholds
    case Some(thr) => thr
    case None => if cut.Fin? then DefaultThresholds(cut.t) else seq(MAXTHR, _ => cut)
  }

  /** Whether C is to select. */
  predicate Native(howmany: Option<nat>, thr: seq<Threshold>, cut: Threshold, d: Dtype) {
    howmany.Some? && EffectiveAll(thr, cut, d).Some?
  }

  /** Request.top: empty when nothing is limited or numpy is to select. */
  function RequestArray(howmany: Option<nat>, thr: seq<Threshold>, cut: Threshold, d: Dtype): seq<int> {
    if Native(howmany, thr, cut, d) then Encode(howmany.value, EffectiveAll(thr, cut, d).value) else []
  }

  /** A frame's list without a request: every block at the cut. */
  function CollectAll(blocks: seq<seq<Pixel>>, cut: Threshold): seq<Pixel> {
    if blocks == [] then [] else CollectAll(blocks[..|blocks| - 1], cut) + Keep(blocks[|blocks| - 1], cut)
  }

  /** What C leaves of a frame; without a request the level and the count are not written. */
  function CFrame(top: Top, blocks: seq<seq<Pixel>>, cut: Threshold): Option<Selection> {
    match top
    case BadThreshold => None
    case Everything => Some(Selection(CollectAll(blocks, cut), -1, 0))
    case Top(howmany, thr) =>
      if cut.Fin? then Some(Finish(AddBlocks(blocks, howmany, cut.t, Fins(thr)), howmany, Fins(thr))) else None
  }

  /** The pixels of a frame, its last_nabove and its last_cut; or the error of a request
      beyond int64, or of C. */
  datatype Outcome = Done(kept: seq<Pixel>, nabove: nat, used: Threshold) | Overflow | CError

  /** The threshold of a level; the frame's own cut for none. */
  function UsedCut(level: int, thr: seq<Threshold>, cut: Threshold): Threshold {
    if 0 <= level < |thr| then thr[level] else cut
  }

  /** Request.finish on what C left. */
  function FinishCall(howmany: Option<nat>, thr: seq<Threshold>, cut: Threshold, d: Dtype, left: Selection): Outcome {
    if howmany.None? then Done(left.kept, |left.kept|, cut)
    else if Native(howmany, thr, cut, d) then Done(left.kept, left.nabove, UsedCut(left.level, thr, cut))
    else if |left.kept| <= howmany.value then Done(left.kept, |left.kept|, cut)
    else
      var s := NumpySelect(left.kept, howmany.value, thr, d);
      Done(s.kept, s.nabove, UsedCut(s.level, thr, cut))
  }

  /** A frame of a call, from the caller's arguments to its results. */
  function Frame(howmany: Option<nat>, thresholds: Option<seq<Threshold>>, cut: Threshold, d: Dtype, blocks: seq<seq<Pixel>>): Outcome {
    var thr := ThresholdsFor(thresholds, cut);
    var top := RequestArray(howmany, thr, cut, d);
    if !FitsInt64(top) then Overflow
    else match CFrame(TopFromArgs(top), blocks, cut)
      case None => CError
      case Some(left) => FinishCall(howmany, thr, cut, d, left)
  }

  // ---- what is promised ---------------------------------------------------

  /** What the whole list of pixels above the cut gives, selected by numpy. */
  function Promised(list: seq<Pixel>, howmany: Option<nat>, thr: seq<Threshold>, cut: Threshold, d: Dtype): Outcome {
    if howmany.None? then Done(list, |list|, cut)
    else
      var s := NumpySelect(list, howmany.value, thr, d);
      Done(s.kept, s.nabove, if s.level < 0 || s.level >= |thr| then cut else thr[s.level])
  }

  /** A frame of so many pixels at most, of a type, and a cut of that type. */
  predicate FrameOf(blocks: seq<seq<Pixel>>, cut: Threshold, d: Dtype) {
    && |Concat(blocks)| <= INT32_MAX
    && (forall i :: 0 <= i < |Concat(blocks)| ==> HasType(Concat(blocks)[i].value, d))
    && (cut.Fin? ==> cut.t >= 0.0)
    && (IsInteger(d) ==> cut.Fin? && cut.t == cut.t.Floor as real && cut.t <= MaxValue(d) as real)
  }

  /** The integer levels of the thresholds exist: a finite cut, whole for float pixels, and
      thresholds that C compares exactly as numpy does. */
  predicate Levelled(thr: seq<Threshold>, cut: Threshold, d: Dtype) {
    && cut.Fin? && (!IsInteger(d) ==> cut.t == cut.t.Floor as real)
    && forall k :: 0 <= k < |thr| ==> Level(thr[k], d)
  }

  predicate Level(t: Threshold, d: Dtype) {
    && (t.PosInf? ==> IsInteger(d) && ItemSize(d) < 8)
    && (t.Fin? && IsInteger(d) && ItemSize(d) == 8 ==> t.t.Floor <= 0x4000_0000_0000_0000)
    && (t.Fin? && !IsInteger(d) ==>
          t.t == t.t.Floor as real && t.t.Floor <= 0x4000_0000_0000_0000 && (d == F32 ==> HeldByF32(Abs(t.t.Floor))))
  }

  /** n is m * 2^e for some m below top. */
  ghost predicate Significant(n: nat, top: nat) {
    exists m: nat, e: nat :: IsShifted(n, m, e) && m < top
  }

  predicate IsShifted(n: nat, m: nat, e: nat) {
    n == m * Shifted(e)
  }

  function Distance(a: nat, b: nat): nat {
    if a < b then b - a else a - b
  }
}
