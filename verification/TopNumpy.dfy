/**
  The selection of numpy, which compares pixels and thresholds in float64, beside the
  exact comparison of the C driver.
*/
module TopNumpy {
  import opened Dtypes
  import opened TopPixels
  import opened TopRequest

  /** A pixel as float64: integers are rounded, float pixels are exact. */
  function AsDouble(v: real, d: Dtype): real {
    if IsInteger(d) && v >= 0.0 then ToDouble(v.Floor) as real else v
  }

  /** The list as np.greater sees it; adr is the place in the list. */
  function Doubles(list: seq<Pixel>, d: Dtype): (r: seq<Pixel>)
    ensures |r| == |list| && forall i :: 0 <= i < |r| ==> r[i] == Pixel(AsDouble(list[i].value, d), i)
  {
    seq(|list|, i requires 0 <= i < |list| => Pixel(AsDouble(list[i].value, d), i))
  }

  /** v[keep] */
  function Gather(list: seq<Pixel>, keep: seq<Pixel>): (r: seq<Pixel>)
    ensures |r| == |keep| && forall i :: 0 <= i < |r| && keep[i].adr < |list| ==> r[i] == list[keep[i].adr]
  {
    seq(|keep|, i requires 0 <= i < |keep| => if keep[i].adr < |list| then list[keep[i].adr] else keep[i])
  }

  /** top_pixels with the comparisons of numpy. */
  function NumpySelect(list: seq<Pixel>, howmany: nat, thr: seq<Threshold>, d: Dtype): Selection {
    var s := Select(Doubles(list, d), howmany, thr);
    s.(kept := Gather(list, s.kept))
  }

  /** A threshold that float64 holds: then it holds its floor as well. */
  predicate IsFloat(t: Threshold) {
    t.Fin? && t.t >= 0.0 ==> IsDouble(t.t.Floor)
  }

  /** float64 does not round the pixel down, or rounds it above every threshold that has
      an integer. */
  predicate Faithful(v: nat) {
    ToDouble(v) >= v || ToDouble(v) > BIG
  }

  predicate AllFaithful(list: seq<Pixel>, d: Dtype) {
    IsInteger(d) ==> forall i :: 0 <= i < |list| ==> list[i].value < 0.0 || Faithful(list[i].value.Floor)
  }

  /** Pixels of an integer type above a cut. */
  predicate Whole(list: seq<Pixel>) {
    forall i :: 0 <= i < |list| ==> list[i].value >= 0.0 && list[i].value == list[i].value.Floor as real
  }

  /** The thresholds 64-bit pixels go to C with: float64, at most 2^62. */
  predicate Wired(thr: seq<Threshold>) {
    forall k :: 0 <= k < |thr| ==> IsFloat(thr[k]) && !thr[k].PosInf? && (thr[k].Fin? ==> thr[k].t.Floor <= BIG)
  }

  /** No selection tells numpy and C apart. */
  ghost predicate SelectsAlike(list: seq<Pixel>, d: Dtype) {
    forall howmany: nat, thr: seq<Threshold> :: Sorted(thr) && Wired(thr) ==>
      NumpySelect(list, howmany, thr, d) == Select(list, howmany, thr)
  }
}
