/**
  One call's top-pixels request: the thresholds as integers for the C driver
  (`_effective`), the array that carries them (`Request`) and the reading of that
  array on the other side (`top_from_args`).
*/
module TopRequest {
  import opened Division
  import opened Dtypes
  import opened Layouts
  import opened TopPixels
  import opened TopPixelsRun

  const BIG: int := 0x4000_0000_0000_0000
  const INT32_MAX: int := 0x7FFF_FFFF
  const MAXTHR: nat := 16

  function Larger(a: int, b: int): int {
    if a < b then b else a
  }

  function Lowest(cut: real): real {
    if cut < 1.0 then 1.0 else cut
  }

  function DefaultThreshold(cut: real, i: nat): Threshold {
    Fin(Lowest(cut) * Shifted(i) as real)
  }

  function DefaultThresholds(cut: real): (r: seq<Threshold>)
    ensures |r| == MAXTHR && forall i :: 0 <= i < MAXTHR ==> r[i] == DefaultThreshold(cut, i)
  {
    seq(MAXTHR, i requires 0 <= i < MAXTHR => DefaultThreshold(cut, i))
  }

  // ---- _effective ---------------------------------------------------------

  function Abs(n: int): nat {
    if n < 0 then -n else n
  }

  /** A whole number of at most 24 significant bits, below 2**128. */
  predicate HeldByF32(n: nat) {
    n < 0x100_0000 || (n < 0x1_0000_0000_0000_0000_0000_0000_0000_0000 && n % 2 == 0 && HeldByF32(n / 2))
  }

  /** float(dtype.type(f)) == f; a float64 threshold holds its own floor. */
  predicate Holds(d: Dtype, f: int) {
    d == F32 ==> HeldByF32(Abs(f))
  }

  predicate Wide(d: Dtype) {
    !IsInteger(d) || ItemSize(d) >= 8
  }

  /** One level, for a whole cut: max(cut, floor(t)), or None. */
  function Effective(t: Threshold, cut: int, d: Dtype): Option<int> {
    match t
    case NegInf => Some(cut)
    case PosInf => if Wide(d) then None else Some(BIG)
    case Fin(v) =>
      var f := v.Floor;
      if !IsInteger(d) && (f as real != v || !Holds(d, f)) then None
      else if f > BIG then if Wide(d) then None else Some(Larger(cut, BIG))
      else Some(Larger(cut, f))
  }

  function EffectiveLevels(thr: seq<Threshold>, cut: int, d: Dtype): (r: Option<seq<int>>)
    ensures r.Some? ==> |r.value| == |thr|
  {
    if thr == [] then Some([])
    else
      match EffectiveLevels(thr[..|thr| - 1], cut, d)
      case None => None
      case Some(levels) =>
        match Effective(thr[|thr| - 1], cut, d)
        case None => None
        case Some(e) => Some(levels + [e])
  }

  /** The cut is that of _cut_array: whole for integer pixels, infinite only for floats. */
  function EffectiveAll(thr: seq<Threshold>, cut: Threshold, d: Dtype): (r: Option<seq<int>>)
    ensures r.Some? ==> |r.value| == |thr| && cut.Fin? && (!IsInteger(d) ==> cut.t == cut.t.Floor as real)
  {
    if !cut.Fin? || (!IsInteger(d) && cut.t != cut.t.Floor as real) then None
    else EffectiveLevels(thr, cut.t.Floor, d)
  }

  // ---- the request array --------------------------------------------------

  function Encode(howmany: nat, levels: seq<int>): seq<int> {
    [if howmany < INT32_MAX then howmany else INT32_MAX, |levels|] + levels
  }

  predicate FitsInt64(top: seq<int>) {
    forall i :: 0 <= i < |top| ==> -0x8000_0000_0000_0000 <= top[i] < 0x8000_0000_0000_0000
  }

  /** bslz4_top, no limit for an empty array, or BSLZ4_ERR_BAD_THRESHOLD. */
  datatype Top = Top(howmany: nat, thr: seq<int>) | Everything | BadThreshold

  function TopFromArgs(top: seq<int>): Top {
    if |top| == 0 then Everything
    else if |top| < 2 || top[0] < 0 || top[0] > INT32_MAX || top[1] < 0 || top[1] > |top| - 2 then BadThreshold
    else Top(top[0], top[2..2 + top[1]])
  }

  // ---- what the pixels are ------------------------------------------------

  predicate HasType(v: real, d: Dtype) {
    IsInteger(d) ==> v == v.Floor as real && v <= MaxValue(d) as real
  }

  /** Pixels of a type, all above the cut. */
  predicate Collected(list: seq<Pixel>, cut: real, d: Dtype) {
    forall i :: 0 <= i < |list| ==> list[i].value > cut && HasType(list[i].value, d)
  }

  // ---- float64 ------------------------------------------------------------

  /** The spacing of the float64 numbers around v. */
  function Ulp(v: nat): (u: nat)
    ensures u >= 1
  {
    if v < 0x20_0000_0000_0000 then 1 else 2 * Ulp(v / 2)
  }

  /** The last multiple of the spacing. */
  function Down(v: nat): nat {
    RestBounds(v, Ulp(v));
    v - v % Ulp(v)
  }

  /** v as a float64, to the nearest, ties to even (section 4.3.1 of IEEE 754-2019). */
  function ToDouble(v: nat): nat {
    var u, rest := Ulp(v), v - Down(v);
    if 2 * rest < u || (2 * rest == u && v / u % 2 == 0) then Down(v) else Down(v) + u
  }

  predicate IsDouble(t: nat) {
    t % Ulp(t) == 0
  }

  /** The comparison of numpy, in float64, and that of C, in the pixel type. */
  predicate ComparesAlike(v: nat, t: nat) {
    ToDouble(v) > t <==> v > t
  }
}
