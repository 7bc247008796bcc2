/** A whole call gives what numpy selects, and the numbers float32 and float64 hold. */
module TopCallProof {
  import opened Division
  import opened Dtypes
  import opened Layouts
  import opened TopCall
  import opened TopNumpy
  import TopNumpyProof
  import opened TopPixels
  import opened TopPixelsRun
  import opened TopPixelsProof
  import opened TopRequest
  import opened TopRequestProof

  // ---- the array ----------------------------------------------------------

  /** C accepts an empty array, for no limit, and one of a count, a number of levels and at
      least so many levels; it refuses every other. */
  lemma AcceptsExactly(top: seq<int>)
    ensures TopFromArgs(top) != BadThreshold <==>
              top == [] || (|top| >= 2 && 0 <= top[0] <= INT32_MAX && 0 <= top[1] <= |top| - 2)
    ensures TopFromArgs(top) == Everything <==> top == []
    ensures forall howmany: nat, levels: seq<int>, more: seq<int> :: howmany <= INT32_MAX ==>
              TopFromArgs([howmany, |levels|] + levels + more) == Top(howmany, levels)
  {
    forall howmany: nat, levels: seq<int>, more: seq<int> | howmany <= INT32_MAX
      ensures TopFromArgs([howmany, |levels|] + levels + more) == Top(howmany, levels)
    {
      var a := [howmany, |levels|] + levels + more;
      assert a[2..2 + |levels|] == levels;
    }
  }

  lemma {:induction false} EffectiveNone(thr: seq<Threshold>, cut: int, d: Dtype)
    ensures EffectiveLevels(thr, cut, d).Some? <==> forall k :: 0 <= k < |thr| ==> Effective(thr[k], cut, d).Some?
  {
    if thr != [] { EffectiveNone(thr[..|thr| - 1], cut, d); }
  }

  lemma LevelExists(t: Threshold, cut: int, d: Dtype)
    ensures Effective(t, cut, d).Some? <==> Level(t, d)
  {
  }

  /** The thresholds go to C exactly when it compares with them as numpy does. */
  lemma EffectiveExactly(thr: seq<Threshold>, cut: Threshold, d: Dtype)
    ensures EffectiveAll(thr, cut, d).Some? <==> Levelled(thr, cut, d)
  {
    if cut.Fin? {
      EffectiveNone(thr, cut.t.Floor, d);
      forall k | 0 <= k < |thr| ensures Effective(thr[k], cut.t.Floor, d).Some? <==> Level(thr[k], d) {
        LevelExists(thr[k], cut.t.Floor, d);
      }
    }
  }

  /** The default thresholds start at the cut, or at 1 below it, and double. */
  lemma DefaultsDouble(cut: real)
    ensures var thr := DefaultThresholds(cut);
            && |thr| == 16 && thr[0] == Fin(if cut >= 1.0 then cut else 1.0)
            && forall i :: 0 <= i < 15 ==> thr[i].Fin? && thr[i + 1] == Fin(2.0 * thr[i].t)
  {
    var thr := DefaultThresholds(cut);
    assert Shifted(0) == 1;
    forall i | 0 <= i < 15 ensures thr[i].Fin? && thr[i + 1] == Fin(2.0 * thr[i].t) {
      DoubleTimes(Lowest(cut), Shifted(i));
    }
  }

  lemma DoubleTimes(c: real, n: int)
    ensures c * (2 * n) as real == 2.0 * (c * n as real)
  {
    assert (2 * n) as real == 2.0 * n as real;
  }

  // ---- no limit -----------------------------------------------------------

  lemma {:induction false} KeepConcat(a: seq<Pixel>, b: seq<Pixel>, t: Threshold)
    ensures Keep(a + b, t) == Keep(a, t) + Keep(b, t)
  {
    if b == [] {
      assert a + b == a;
    } else {
      var n := |b| - 1;
      assert (a + b)[..|a| + n] == a + b[..n] && (a + b)[|a| + n] == b[n];
      KeepConcat(a, b[..n], t);
    }
  }

  /** Without a request C leaves every pixel above the cut. */
  lemma {:induction false} CollectsAll(blocks: seq<seq<Pixel>>, cut: Threshold)
    ensures CollectAll(blocks, cut) == Keep(Concat(blocks), cut)
  {
    if blocks != [] {
      CollectsAll(blocks[..|blocks| - 1], cut);
      KeepConcat(Concat(blocks[..|blocks| - 1]), blocks[|blocks| - 1], cut);
    }
  }

  lemma EmptyIsEverything(blocks: seq<seq<Pixel>>, cut: Threshold)
    ensures CFrame(TopFromArgs([]), blocks, cut) == Some(Selection(Keep(Concat(blocks), cut), -1, 0))
  {
    AcceptsExactly([]);
    CollectsAll(blocks, cut);
  }

  // ---- the whole call -----------------------------------------------------

  lemma SelectLevel(list: seq<Pixel>, howmany: nat, thr: seq<Threshold>, d: Dtype)
    ensures -1 <= NumpySelect(list, howmany, thr, d).level < |thr| || NumpySelect(list, howmany, thr, d).level == -1
    ensures |list| <= howmany ==> NumpySelect(list, howmany, thr, d) == Selection(list, -1, |list|)
  {
    TopNumpyProof.GatherDoubles(list, d);
  }

  /** The request is beyond int64 exactly when C is to select, with thresholds, above a cut
      of 2^63 or more. */
  lemma OverflowsExactly(howmany: Option<nat>, thr: seq<Threshold>, cut: Threshold, d: Dtype, blocks: seq<seq<Pixel>>)
    requires FrameOf(blocks, cut, d) && |thr| <= MAXTHR
    ensures FitsInt64(RequestArray(howmany, thr, cut, d)) <==>
              !(Native(howmany, thr, cut, d) && thr != [] && cut.t.Floor >= 0x8000_0000_0000_0000)
  {
    if Native(howmany, thr, cut, d) { RequestFits(howmany.value, thr, cut, d); }
  }

  lemma NativeFrame(howmany: nat, thr: seq<Threshold>, cut: Threshold, d: Dtype, blocks: seq<seq<Pixel>>)
    requires EffectiveAll(thr, cut, d).Some? && Sorted(thr) && FrameOf(blocks, cut, d)
    requires TopNumpyProof.Comparable(Keep(Concat(blocks), cut), thr, d)
    ensures CFrame(TopFromArgs(Encode(howmany, EffectiveAll(thr, cut, d).value)), blocks, cut) ==
              Some(NumpySelect(Keep(Concat(blocks), cut), howmany, thr, d))
  {
    TopNumpyProof.NativeIsNumpy(blocks, howmany, thr, cut, d);
  }

  lemma ThresholdsSorted(thresholds: Option<seq<Threshold>>, cut: Threshold)
    requires thresholds.Some? ==> Sorted(thresholds.value) && |thresholds.value| <= MAXTHR
    requires cut.Fin? ==> cut.t >= 0.0
    ensures Sorted(ThresholdsFor(thresholds, cut)) && |ThresholdsFor(thresholds, cut)| <= MAXTHR
  {
    if thresholds.None? && cut.Fin? { DefaultsSorted(cut.t); }
  }

  /** A call, for every limit, none included, and every thresholds: it fails exactly when
      its request is beyond int64, and else gives each frame what numpy selects from all
      its pixels above the cut, whichever of C and numpy did it. */
  lemma FrameIsPromised(howmany: Option<nat>, thresholds: Option<seq<Threshold>>, thr: seq<Threshold>, cut: Threshold, d: Dtype,
                        blocks: seq<seq<Pixel>>)
    requires FrameOf(blocks, cut, d) && thr == ThresholdsFor(thresholds, cut)
    requires thresholds.Some? ==> Sorted(thresholds.value) && |thresholds.value| <= MAXTHR
    requires Native(howmany, thr, cut, d) ==> TopNumpyProof.Comparable(Keep(Concat(blocks), cut), thr, d)
    ensures Frame(howmany, thresholds, cut, d, blocks) ==
              if Native(howmany, thr, cut, d) && thr != [] && cut.t.Floor >= 0x8000_0000_0000_0000 then Overflow
              else Promised(Keep(Concat(blocks), cut), howmany, thr, cut, d)
  {
    ThresholdsSorted(thresholds, cut);
    OverflowsExactly(howmany, thr, cut, d, blocks);
    var list := Keep(Concat(blocks), cut);
    if Native(howmany, thr, cut, d) {
      NativeFrame(howmany.value, thr, cut, d, blocks);
    } else {
      EmptyIsEverything(blocks, cut);
    }
    if howmany.Some? { SelectLevel(list, howmany.value, thr, d); }
  }

  // ---- float32 and float64 numbers ----------------------------------------

  lemma Halved(n: nat, m: nat, e: nat)
    requires e >= 1
    ensures IsShifted(n, m, e) <==> n % 2 == 0 && IsShifted(n / 2, m, e - 1)
  {
    assert Shifted(e) == 2 * Shifted(e - 1);
    assert m * Shifted(e) == 2 * (m * Shifted(e - 1));
  }

  /** A number of few enough digits is itself, and another one is even and so is half of it. */
  lemma SignificantHalves(n: nat, top: nat)
    ensures n < top ==> Significant(n, top)
    ensures n >= top ==> (Significant(n, top) <==> n % 2 == 0 && Significant(n / 2, top))
  {
    assert Shifted(0) == 1;
    assert IsShifted(n, n, 0);
    if n >= top {
      if Significant(n, top) {
        var m: nat, e: nat :| IsShifted(n, m, e) && m < top;
        Halved(n, m, e);
      }
      if n % 2 == 0 && Significant(n / 2, top) {
        var m: nat, e: nat :| IsShifted(n / 2, m, e) && m < top;
        Halved(n, m, e + 1);
      }
    }
  }

  /** What a float32 holds: 24 significant bits, below 2^128. */
  lemma {:induction false} HeldMeans(n: nat)
    ensures HeldByF32(n) <==> Significant(n, 0x100_0000) && n < 0x1_0000_0000_0000_0000_0000_0000_0000_0000
  {
    SignificantHalves(n, 0x100_0000);
    if n >= 0x100_0000 { HeldMeans(n / 2); }
  }

  lemma EvenHalves(t: nat, u: nat)
    requires u >= 1
    ensures t % (2 * u) == 0 <==> t % 2 == 0 && t / 2 % u == 0
  {
    HalfRests(t, u);
    assert t % (2 * u) == 0 ==> t == 2 * (t / 2 - t / 2 % u);
  }

  /** What a float64 holds: 53 significant bits. */
  lemma {:induction false} DoubleMeans(t: nat)
    ensures IsDouble(t) <==> Significant(t, 0x20_0000_0000_0000)
  {
    SignificantHalves(t, 0x20_0000_0000_0000);
    if t >= 0x20_0000_0000_0000 {
      DoubleMeans(t / 2);
      EvenHalves(t, Ulp(t / 2));
    }
  }

  lemma {:induction false} UpIsDouble(v: nat)
    ensures IsDouble(Down(v) + Ulp(v))
  {
    if v >= 0x20_0000_0000_0000 {
      var h := v / 2;
      UpIsDouble(h);
      HalfRests(v, Ulp(h));
      DownBounds(h);
      UlpOfDown(v);
      DoublesDivide(Down(h) + Ulp(h), Ulp(Down(h) + Ulp(h)));
      assert (2 * (Down(h) + Ulp(h))) / 2 == Down(h) + Ulp(h);
    } else {
      LastWhole(v + 1);
    }
  }

  lemma LastWhole(n: nat)
    requires n <= 0x20_0000_0000_0000
    ensures IsDouble(n)
  {
    if n == 0x20_0000_0000_0000 { assert Ulp(n) == 2 * Ulp(n / 2) == 2; }
  }

  lemma LastMultiple(t: nat, v: nat, u: nat)
    requires u >= 1 && t % u == 0 && t <= v
    ensures t <= v - v % u
  {
    var k, l := t / u, v / u;
    assert t == k * u && v == l * u + v % u;
    if k <= l { TimesGrows(k, l, u); } else { TimesGrows(l + 1, k, u); }
  }

  lemma SharesUlp(v: nat, t: nat)
    requires Down(v) <= t && IsDouble(t)
    ensures t % Ulp(v) == 0
  {
    UlpOfDown(v);
    UlpDivides(Down(v), t);
    MultipleOfMultiple(t, Ulp(t), Ulp(v));
  }

  lemma BelowDown(v: nat, t: nat)
    requires t <= v && IsDouble(t)
    ensures t <= Down(v)
  {
    if t > Down(v) {
      SharesUlp(v, t);
      LastMultiple(t, v, Ulp(v));
    }
  }

  lemma AboveDown(v: nat, t: nat)
    requires v < t && IsDouble(t)
    ensures v == Down(v) || Down(v) + Ulp(v) <= t
  {
    DownBounds(v);
    SharesUlp(v, t);
    DownNext(v, t, Ulp(v));
  }

  lemma Steps(v: nat, u: nat)
    requires u >= 1
    ensures (v - v % u) / u == v / u && (v - v % u + u) / u == v / u + 1
  {
    DivUnique(v - v % u, u, v / u, 0);
    DivUnique(v - v % u + u, u, v / u + 1, 0);
  }

  lemma RoundsTo(v: nat, u: nat, d: nat, r: nat, t: nat)
    requires d <= v < d + u && (t <= d || d + u <= t || v == d)
    requires r == if 2 * (v - d) < u || (2 * (v - d) == u && v / u % 2 == 0) then d else d + u
    ensures Distance(r, v) <= Distance(t, v)
    ensures t != r && Distance(r, v) == Distance(t, v) ==> 2 * (v - d) == u
  {
  }

  /** Conversion gives a float64, the nearest one, and of two as near the even one. */
  lemma NearestDouble(v: nat, t: nat)
    requires IsDouble(t)
    ensures IsDouble(ToDouble(v)) && Distance(ToDouble(v), v) <= Distance(t, v)
    ensures t != ToDouble(v) && Distance(ToDouble(v), v) == Distance(t, v) ==> ToDouble(v) / Ulp(v) % 2 == 0
  {
    RoundedIsDouble(v);
    NoneNearer(v, t);
    TiesToEven(v);
  }

  lemma RoundedIsDouble(v: nat)
    ensures IsDouble(ToDouble(v))
  {
    DownIsDouble(v);
    UpIsDouble(v);
  }

  lemma NotBetween(v: nat, t: nat)
    requires IsDouble(t)
    ensures Down(v) <= v < Down(v) + Ulp(v) && (t <= Down(v) || Down(v) + Ulp(v) <= t || v == Down(v))
  {
    DownBounds(v);
    if t <= v { BelowDown(v, t); } else { AboveDown(v, t); }
  }

  lemma NoneNearer(v: nat, t: nat)
    requires IsDouble(t)
    ensures Distance(ToDouble(v), v) <= Distance(t, v)
    ensures t != ToDouble(v) && Distance(ToDouble(v), v) == Distance(t, v) ==> 2 * (v - Down(v)) == Ulp(v)
  {
    NotBetween(v, t);
    RoundsTo(v, Ulp(v), Down(v), ToDouble(v), t);
  }

  lemma TiesToEven(v: nat)
    ensures 2 * (v - Down(v)) == Ulp(v) ==> ToDouble(v) / Ulp(v) % 2 == 0
  {
    Steps(v, Ulp(v));
  }
}
