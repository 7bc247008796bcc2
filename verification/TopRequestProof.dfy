/** Integer levels select as the thresholds they stand for, and the array carries them. */
module TopRequestProof {
  import opened Division
  import opened Dtypes
  import opened Layouts
  import opened TopPixels
  import opened TopPixelsProof
  import opened TopPixelsRun
  import opened TopRequest

  lemma ShiftedGrows(i: nat, j: nat)
    requires i <= j
    ensures Shifted(i) <= Shifted(j)
  {
    if i < j { ShiftedGrows(i, j - 1); }
  }

  lemma ScaledGrows(c: real, a: int, b: int)
    requires c >= 0.0 && a <= b
    ensures c * a as real <= c * b as real
  {
  }

  /** The default thresholds are sorted and none is below the cut. */
  lemma DefaultsSorted(cut: real)
    requires cut >= 0.0
    ensures FromCut(cut, DefaultThresholds(cut))
  {
    var thr := DefaultThresholds(cut);
    forall i, j | 0 <= i <= j < |thr| ensures thr[i].Fin? && thr[j].Fin? && cut <= thr[i].t <= thr[j].t {
      DefaultsRise(cut, i, j);
    }
    FinsSorted(cut, thr);
  }

  lemma FinsSorted(cut: real, thr: seq<Threshold>)
    requires forall i, j :: 0 <= i <= j < |thr| ==> thr[i].Fin? && thr[j].Fin? && cut <= thr[i].t <= thr[j].t
    ensures FromCut(cut, thr)
  {
  }

  lemma DefaultsRise(cut: real, i: nat, j: nat)
    requires i <= j && cut >= 0.0
    ensures cut <= DefaultThreshold(cut, i).t <= DefaultThreshold(cut, j).t
  {
    ScalesRise(Lowest(cut), i, j);
  }

  lemma ScalesRise(c: real, i: nat, j: nat)
    requires i <= j && c >= 0.0
    ensures c <= c * Shifted(i) as real <= c * Shifted(j) as real
  {
    ShiftedGrows(i, j);
    ScaledGrows(c, 1, Shifted(i));
    ScaledGrows(c, Shifted(i), Shifted(j));
  }

  // ---- the same selection -------------------------------------------------

  lemma {:induction false} EffectiveAt(thr: seq<Threshold>, cut: int, d: Dtype, k: nat)
    requires EffectiveLevels(thr, cut, d).Some? && k < |thr|
    ensures Effective(thr[k], cut, d) == Some(EffectiveLevels(thr, cut, d).value[k])
  {
    if k < |thr| - 1 { EffectiveAt(thr[..|thr| - 1], cut, d, k); }
  }

  /** A pixel above the cut is above the threshold exactly when it is above the integer
      that stands for it. */
  lemma EffectiveAgrees(v: real, t: Threshold, cut: int, d: Dtype)
    requires v > cut as real && HasType(v, d) && Effective(t, cut, d).Some?
    ensures Above(v, t) <==> v > Effective(t, cut, d).value as real
  {
  }

  lemma EffectiveRises(s: Threshold, t: Threshold, cut: int, d: Dtype)
    requires AtMost(s, t) && Effective(s, cut, d).Some? && Effective(t, cut, d).Some?
    requires IsInteger(d) ==> cut <= MaxValue(d)
    ensures cut <= Effective(s, cut, d).value <= Effective(t, cut, d).value
  {
  }

  lemma {:induction false} KeepsAlike(list: seq<Pixel>, s: Threshold, t: Threshold)
    requires forall i :: 0 <= i < |list| ==> (Above(list[i].value, s) <==> Above(list[i].value, t))
    ensures Keep(list, s) == Keep(list, t)
  {
    if list != [] { KeepsAlike(list[..|list| - 1], s, t); }
  }

  lemma {:induction false} FirstBelowAlike(list: seq<Pixel>, howmany: nat, a: seq<Threshold>, b: seq<Threshold>, k: nat)
    requires |a| == |b| && k < |a|
    requires forall i :: 0 <= i < |a| ==> Keep(list, a[i]) == Keep(list, b[i])
    ensures FirstBelow(list, howmany, a, k) == FirstBelow(list, howmany, b, k)
    decreases |a| - k
  {
    if k + 1 < |a| { FirstBelowAlike(list, howmany, a, b, k + 1); }
  }

  /** The integer thresholds are sorted and start at the cut. */
  lemma LevelsFromCut(thr: seq<Threshold>, cut: Threshold, d: Dtype)
    requires EffectiveAll(thr, cut, d).Some? && Sorted(thr)
    requires IsInteger(d) ==> cut.t == cut.t.Floor as real && cut.t <= MaxValue(d) as real
    ensures FromCut(cut.t, Fins(EffectiveAll(thr, cut, d).value))
  {
    var c := cut.t.Floor;
    forall i, j | 0 <= i <= j < |thr|
      ensures c <= EffectiveLevels(thr, c, d).value[i] <= EffectiveLevels(thr, c, d).value[j] {
      EffectiveAt(thr, c, d, i);
      EffectiveAt(thr, c, d, j);
      EffectiveRises(thr[i], thr[j], c, d);
    }
  }

  /** Selecting by the integer thresholds is selecting by the float ones. */
  lemma EffectiveSelects(list: seq<Pixel>, howmany: nat, thr: seq<Threshold>, cut: Threshold, d: Dtype)
    requires EffectiveAll(thr, cut, d).Some? && Collected(list, cut.t, d)
    requires IsInteger(d) ==> cut.t == cut.t.Floor as real
    ensures Select(list, howmany, Fins(EffectiveAll(thr, cut, d).value)) == Select(list, howmany, thr)
  {
    var c := cut.t.Floor;
    var levels := EffectiveLevels(thr, c, d).value;
    forall k | 0 <= k < |thr| ensures Keep(list, Fins(levels)[k]) == Keep(list, thr[k]) {
      EffectiveAt(thr, c, d, k);
      forall i | 0 <= i < |list| ensures Above(list[i].value, Fins(levels)[k]) <==> Above(list[i].value, thr[k]) {
        EffectiveAgrees(list[i].value, thr[k], c, d);
      }
      KeepsAlike(list, Fins(levels)[k], thr[k]);
    }
    if thr != [] { FirstBelowAlike(list, howmany, Fins(levels), thr, 0); }
  }

  /** For integer pixels of at most 32 bits the thresholds always have integers. */
  lemma NarrowIsNative(thr: seq<Threshold>, cut: Threshold, d: Dtype)
    requires IsInteger(d) && ItemSize(d) <= 4 && cut.Fin?
    ensures EffectiveAll(thr, cut, d).Some?
  {
    NarrowLevels(thr, cut.t.Floor, d);
  }

  lemma {:induction false} NarrowLevels(thr: seq<Threshold>, cut: int, d: Dtype)
    requires IsInteger(d) && ItemSize(d) <= 4
    ensures EffectiveLevels(thr, cut, d).Some?
  {
    if thr != [] { NarrowLevels(thr[..|thr| - 1], cut, d); }
  }

  // ---- the request array --------------------------------------------------

  /** C accepts and reads back exactly what was encoded, and an empty array as no limit. */
  lemma RequestRoundTrip(howmany: nat, levels: seq<int>)
    ensures TopFromArgs([]) == Everything
    ensures TopFromArgs(Encode(howmany, levels)) == Top(if howmany < INT32_MAX then howmany else INT32_MAX, levels)
  {
    assert Encode(howmany, levels)[2..2 + |levels|] == levels;
  }

  /** What C accepts is the encoding of what it reads, with anything after it ignored. */
  lemma AcceptedIsEncoded(top: seq<int>)
    requires TopFromArgs(top).Top?
    ensures var t := TopFromArgs(top); t.howmany <= INT32_MAX && Encode(t.howmany, t.thr) <= top
  {
    var t := TopFromArgs(top);
    assert Encode(t.howmany, t.thr) == top[..2 + top[1]];
  }

  lemma {:induction false} LevelsInRange(thr: seq<Threshold>, cut: int, d: Dtype)
    requires EffectiveLevels(thr, cut, d).Some?
    ensures forall k :: 0 <= k < |thr| ==> EffectiveLevels(thr, cut, d).value[k] <= Larger(cut, BIG)
    ensures forall k :: 0 <= k < |thr| ==> cut <= EffectiveLevels(thr, cut, d).value[k] || EffectiveLevels(thr, cut, d).value[k] == BIG
  {
    if thr != [] { LevelsInRange(thr[..|thr| - 1], cut, d); }
  }

  /** The array holds int64: it does exactly when the cut does, or there are no
      thresholds; a cut of 2**63 or more needs uint64 pixels. */
  lemma RequestFits(howmany: nat, thr: seq<Threshold>, cut: Threshold, d: Dtype)
    requires EffectiveAll(thr, cut, d).Some? && cut.t >= 0.0 && |thr| <= MAXTHR
    requires IsInteger(d) ==> cut.t <= MaxValue(d) as real
    ensures FitsInt64(Encode(howmany, EffectiveAll(thr, cut, d).value)) <==>
              thr == [] || cut.t.Floor < 0x8000_0000_0000_0000
  {
    var levels := EffectiveAll(thr, cut, d).value;
    LevelsInRange(thr, cut.t.Floor, d);
    var top := Encode(howmany, levels);
    assert forall k :: 0 <= k < |levels| ==> top[k + 2] == levels[k];
    if thr != [] { EffectiveAt(thr, cut.t.Floor, d, 0); }
  }

  /** No frame holds more than INT32_MAX pixels, so the clamped howmany changes nothing. */
  lemma ClampSelects(list: seq<Pixel>, howmany: nat, thr: seq<Threshold>)
    requires |list| <= INT32_MAX
    ensures Select(list, if howmany < INT32_MAX then howmany else INT32_MAX, thr) == Select(list, howmany, thr)
  {
  }

  lemma {:induction false} KeepsAbove(list: seq<Pixel>, t: Threshold, i: nat)
    requires i < |Keep(list, t)|
    ensures Above(Keep(list, t)[i].value, t) && Keep(list, t)[i] in list
  {
    if i < |Keep(list[..|list| - 1], t)| { KeepsAbove(list[..|list| - 1], t, i); }
  }

  /** The request as C runs it, block by block, with what it read from the array, is the
      rule of top_pixels on all the pixels above the cut with the thresholds as given. */
  lemma NativeIsSelect(blocks: seq<seq<Pixel>>, howmany: nat, thr: seq<Threshold>, cut: Threshold, d: Dtype)
    requires EffectiveAll(thr, cut, d).Some? && Sorted(thr) && |Concat(blocks)| <= INT32_MAX
    requires IsInteger(d) ==> cut.t == cut.t.Floor as real && cut.t <= MaxValue(d) as real
    requires forall i :: 0 <= i < |Concat(blocks)| ==> HasType(Concat(blocks)[i].value, d)
    ensures var t := TopFromArgs(Encode(howmany, EffectiveAll(thr, cut, d).value));
            && t.Top?
            && Finish(AddBlocks(blocks, t.howmany, cut.t, Fins(t.thr)), t.howmany, Fins(t.thr)) ==
               Select(Keep(Concat(blocks), cut), howmany, thr)
  {
    var levels := EffectiveAll(thr, cut, d).value;
    RequestRoundTrip(howmany, levels);
    var t := TopFromArgs(Encode(howmany, levels));
    LevelsFromCut(thr, cut, d);
    IncrementalIsSelect(blocks, t.howmany, cut.t, Fins(levels));
    var list := Keep(Concat(blocks), cut);
    forall i | 0 <= i < |list| ensures list[i].value > cut.t && HasType(list[i].value, d) {
      KeepsAbove(Concat(blocks), cut, i);
    }
    EffectiveSelects(list, t.howmany, thr, cut, d);
    ClampSelects(list, howmany, thr);
  }

  // ---- 64-bit pixels and float64 ------------------------------------------

  lemma DownBounds(v: nat)
    ensures Down(v) <= v < Down(v) + Ulp(v)
  {
  }

  /** Up to 2**53, which is every pixel of at most 32 bits, float64 is exact. */
  lemma SmallIsExact(v: nat)
    requires v <= 0x20_0000_0000_0000
    ensures ToDouble(v) == v
  {
    if v == 0x20_0000_0000_0000 { assert Ulp(v) == 2 * Ulp(v / 2) == 2; }
    DownBounds(v);
  }

  lemma {:induction false} UlpDivides(v: nat, t: nat)
    requires v <= t
    ensures Ulp(t) % Ulp(v) == 0
  {
    if v >= 0x20_0000_0000_0000 {
      UlpDivides(v / 2, t / 2);
      DoublesDivide(Ulp(t / 2), Ulp(v / 2));
    }
  }

  /** Rounding down to the spacing keeps the spacing. */
  lemma {:induction false} UlpOfDown(v: nat)
    ensures Ulp(Down(v)) == Ulp(v) && (v >= 0x20_0000_0000_0000 ==> Down(v) >= 0x20_0000_0000_0000)
  {
    if v >= 0x20_0000_0000_0000 {
      var h, u := v / 2, Ulp(v / 2);
      UlpOfDown(h);
      HalfRests(v, u);
      assert Down(v) == 2 * Down(h);
      DownBounds(h);
      if h < 0x20_0000_0000_0000 { assert u == 1 && Down(h) == h; }
    } else {
      assert Down(v) == v;
    }
  }

  lemma HalfRests(v: nat, u: nat)
    requires u >= 1
    ensures v - v % (2 * u) == 2 * (v / 2 - v / 2 % u)
  {
    var k, h := v / (2 * u), v / 2;
    HalfDivides(v, u);
    assert h == k * u + h % u && v == k * (2 * u) + v % (2 * u);
    assert k * (2 * u) == 2 * (k * u);
  }

  lemma DownIsDouble(v: nat)
    ensures IsDouble(Down(v))
  {
    UlpOfDown(v);
    assert Down(v) == Ulp(v) * (v / Ulp(v));
    MultipleDivides(Ulp(v), v / Ulp(v));
  }

  lemma DownNext(v: nat, t: nat, u: nat)
    requires u >= 1 && v <= t && t % u == 0
    ensures v - v % u <= t && (v % u != 0 ==> v - v % u + u <= t)
  {
    NextMultiple(v, t, u);
    assert v == v / u * u + v % u;
  }

  /** Rounding does not cross a float64 number. */
  lemma RoundsBelow(v: nat, t: nat)
    requires v <= t && IsDouble(t)
    ensures ToDouble(v) <= t
  {
    UlpDivides(v, t);
    MultipleOfMultiple(t, Ulp(t), Ulp(v));
    DownNext(v, t, Ulp(v));
  }

  /** numpy and C agree on a pixel at every whole threshold up to 2**62 that float64
      holds, exactly when float64 does not round the pixel down (or rounds it above
      every such threshold). */
  lemma AlikeExactly(v: nat)
    ensures (forall t: nat :: t <= BIG && IsDouble(t) ==> ComparesAlike(v, t)) <==> ToDouble(v) >= v || ToDouble(v) > BIG
  {
    var d := ToDouble(v);
    DownBounds(v);
    DownIsDouble(v);
    if d < v && d <= BIG {
      assert d == Down(v) && !ComparesAlike(v, d);
    } else {
      forall t: nat | t <= BIG && IsDouble(t) ensures ComparesAlike(v, t) {
        if v <= t { RoundsBelow(v, t); }
      }
    }
  }

  /** 2**53 + 1 above a threshold of 2**53: C keeps the pixel, numpy does not. */
  lemma WidePixelDiffers()
    ensures EffectiveAll([Fin(0x20_0000_0000_0000 as real)], Fin(0.0), U64) == Some([0x20_0000_0000_0000])
    ensures IsDouble(0x20_0000_0000_0000) && !ComparesAlike(0x20_0000_0000_0001, 0x20_0000_0000_0000)
  {
    var t: Threshold := Fin(0x20_0000_0000_0000 as real);
    assert EffectiveLevels([], 0, U64) == Some([]) && [t][..0] == [];
    var cut: Threshold := Fin(0.0);
    assert cut.t.Floor == 0;
    assert Effective(t, 0, U64) == Some(0x20_0000_0000_0000);
    var levels: seq<int> := [0x20_0000_0000_0000];
    assert EffectiveLevels([t], 0, U64) == Some([] + levels) && [] + levels == levels;
    assert EffectiveAll([t], cut, U64) == EffectiveLevels([t], cut.t.Floor, U64) == Some([0x20_0000_0000_0000]);
    assert Ulp(0x20_0000_0000_0000) == 2 * Ulp(0x10_0000_0000_0000) == 2;
    assert Ulp(0x20_0000_0000_0001) == 2 * Ulp(0x10_0000_0000_0000) == 2;
    assert Down(0x20_0000_0000_0001) == 0x20_0000_0000_0000;
    assert ToDouble(0x20_0000_0000_0001) == 0x20_0000_0000_0000;
  }
}
