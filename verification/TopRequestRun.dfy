/** The loop that makes the integer levels. */
module TopRequestRun {
  import opened Dtypes
  import opened Layouts
  import opened TopPixels
  import opened TopPixelsRun
  import opened TopRequest

  /** _effective, appending a level at a time. */
  method EffectiveLoop(thr: seq<Threshold>, cut: Threshold, d: Dtype) returns (r: Option<seq<int>>)
    ensures r == EffectiveAll(thr, cut, d)
  {
    if !cut.Fin? || (!IsInteger(d) && cut.t != cut.t.Floor as real) { return None; }
    var c := cut.t.Floor;
    var out: seq<int> := [];
    for k := 0 to |thr|
      invariant EffectiveLevels(thr[..k], c, d) == Some(out)
    {
      var t := thr[k];
      assert thr[..k + 1][..k] == thr[..k];
      var e := Effective(t, c, d);
      if e.None? {
        NoneStays(thr, c, d, k);
        return None;
      }
      out := out + [e.value];
    }
    assert thr[..|thr|] == thr;
    return Some(out);
  }

  lemma {:induction false} NoneStays(thr: seq<Threshold>, cut: int, d: Dtype, k: nat)
    requires k < |thr| && Effective(thr[k], cut, d).None?
    ensures EffectiveLevels(thr, cut, d).None?
  {
    if k < |thr| - 1 { NoneStays(thr[..|thr| - 1], cut, d, k); }
  }
}
