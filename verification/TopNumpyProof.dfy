/** When the selections of numpy and of C agree. */
module TopNumpyProof {
  import opened Dtypes
  import opened Layouts
  import opened TopNumpy
  import opened TopPixels
  import opened TopPixelsProof
  import opened TopPixelsRun
  import opened TopRequest
  import opened TopRequestProof

  // ---- the same comparisons, the same selection ---------------------------

  predicate Agree(list: seq<Pixel>, d: Dtype, t: Threshold) {
    forall i :: 0 <= i < |list| ==> (Above(AsDouble(list[i].value, d), t) <==> Above(list[i].value, t))
  }

  lemma GatherNext(list: seq<Pixel>, keep: seq<Pixel>, p: Pixel)
    requires p.adr < |list|
    ensures Gather(list, keep + [p]) == Gather(list, keep) + [list[p.adr]]
  {
  }

  /** Pixel n of either list is kept, or of neither. */
  lemma GatherStep(list: seq<Pixel>, doubles: seq<Pixel>, t: Threshold, n: nat)
    requires n < |list| == |doubles| && doubles[n].adr == n
    requires Above(doubles[n].value, t) <==> Above(list[n].value, t)
    requires Gather(list, Keep(doubles[..n], t)) == Keep(list[..n], t)
    ensures Gather(list, Keep(doubles[..n + 1], t)) == Keep(list[..n + 1], t)
  {
    KeepNext(doubles, n, t);
    KeepNext(list, n, t);
    if Above(list[n].value, t) { GatherNext(list, Keep(doubles[..n], t), doubles[n]); }
  }

  lemma {:induction false} GatherKept(list: seq<Pixel>, d: Dtype, t: Threshold, n: nat)
    requires n <= |list| && Agree(list, d, t)
    ensures Gather(list, Keep(Doubles(list, d)[..n], t)) == Keep(list[..n], t)
  {
    if n > 0 {
      GatherKept(list, d, t, n - 1);
      GatherStep(list, Doubles(list, d), t, n - 1);
    }
  }

  lemma GatherAll(list: seq<Pixel>, d: Dtype, t: Threshold)
    requires Agree(list, d, t)
    ensures Gather(list, Keep(Doubles(list, d), t)) == Keep(list, t)
    ensures |Keep(Doubles(list, d), t)| == |Keep(list, t)|
  {
    GatherKept(list, d, t, |list|);
    assert list[..|list|] == list && Doubles(list, d)[..|list|] == Doubles(list, d);
  }

  lemma GatherFirst(list: seq<Pixel>, keep: seq<Pixel>, n: nat)
    ensures Gather(list, First(keep, n)) == First(Gather(list, keep), n)
  {
  }

  lemma {:induction false} FirstBelowSame(a: seq<Pixel>, b: seq<Pixel>, howmany: nat, thr: seq<Threshold>, k: nat)
    requires k < |thr| && forall i :: 0 <= i < |thr| ==> |Keep(a, thr[i])| == |Keep(b, thr[i])|
    ensures FirstBelow(a, howmany, thr, k) == FirstBelow(b, howmany, thr, k)
    decreases |thr| - k
  {
    if k + 1 < |thr| { FirstBelowSame(a, b, howmany, thr, k + 1); }
  }

  lemma GatherDoubles(list: seq<Pixel>, d: Dtype)
    ensures Gather(list, Doubles(list, d)) == list
  {
  }

  /** Where every comparison agrees, numpy selects what C selects. */
  lemma NumpyIsSelect(list: seq<Pixel>, howmany: nat, thr: seq<Threshold>, d: Dtype)
    requires forall k :: 0 <= k < |thr| ==> Agree(list, d, thr[k])
    ensures NumpySelect(list, howmany, thr, d) == Select(list, howmany, thr)
  {
    var doubles := Doubles(list, d);
    GatherDoubles(list, d);
    if |list| > howmany && thr == [] {
      assert Gather(list, doubles[..howmany]) == list[..howmany];
    } else if |list| > howmany {
      forall k | 0 <= k < |thr| ensures |Keep(doubles, thr[k])| == |Keep(list, thr[k])| { GatherAll(list, d, thr[k]); }
      FirstBelowSame(doubles, list, howmany, thr, 0);
      var level := FirstBelow(list, howmany, thr, 0);
      GatherAll(list, d, thr[level]);
      GatherFirst(list, Keep(doubles, thr[level]), howmany);
    }
  }

  // ---- when they agree ----------------------------------------------------

  /** A faithful pixel compares alike at every float64 threshold, also a fractional one. */
  lemma FaithfulAgrees(v: real, t: Threshold, d: Dtype)
    requires IsInteger(d) && v >= 0.0 && v == v.Floor as real && Faithful(v.Floor)
    requires IsFloat(t) && !t.PosInf? && (t.Fin? ==> t.t.Floor <= BIG)
    ensures Above(AsDouble(v, d), t) <==> Above(v, t)
  {
    if t.Fin? && t.t >= 0.0 {
      AlikeExactly(v.Floor);
      assert ComparesAlike(v.Floor, t.t.Floor);
    }
  }

  /** A pixel of at most 2^53 compares alike at every threshold. */
  lemma SmallAgrees(v: real, t: Threshold, d: Dtype)
    requires IsInteger(d) ==> v == v.Floor as real && 0 <= v.Floor <= 0x20_0000_0000_0000
    ensures AsDouble(v, d) == v && (Above(AsDouble(v, d), t) <==> Above(v, t))
  {
    if IsInteger(d) { SmallIsExact(v.Floor); }
  }

  lemma {:induction false} KeepsNoMore(list: seq<Pixel>, doubles: seq<Pixel>, t: Threshold, n: nat)
    requires n <= |list| == |doubles|
    requires forall i :: 0 <= i < |list| ==> (Above(doubles[i].value, t) ==> Above(list[i].value, t))
    ensures |Keep(doubles[..n], t)| <= |Keep(list[..n], t)|
  {
    if n > 0 {
      KeepsNoMore(list, doubles, t, n - 1);
      KeepNext(doubles, n - 1, t);
      KeepNext(list, n - 1, t);
    }
  }

  lemma {:induction false} KeepsFewer(list: seq<Pixel>, doubles: seq<Pixel>, t: Threshold, n: nat, i: nat)
    requires i < n <= |list| == |doubles| && Above(list[i].value, t) && !Above(doubles[i].value, t)
    requires forall k :: 0 <= k < |list| ==> (Above(doubles[k].value, t) ==> Above(list[k].value, t))
    ensures |Keep(doubles[..n], t)| < |Keep(list[..n], t)|
  {
    KeepNext(doubles, n - 1, t);
    KeepNext(list, n - 1, t);
    if i < n - 1 { KeepsFewer(list, doubles, t, n - 1, i); } else { KeepsNoMore(list, doubles, t, n - 1); }
  }

  /** numpy never counts a pixel above a float64 threshold that is not. */
  lemma NeverMore(v: real, t: nat, d: Dtype)
    requires IsInteger(d) && v >= 0.0 && v == v.Floor as real && IsDouble(t) && AsDouble(v, d) > t as real
    ensures v > t as real
  {
    if v.Floor <= t { RoundsBelow(v.Floor, t); }
  }

  /** A pixel that float64 rounds down makes a threshold and a limit for which numpy
      counts fewer pixels than C. */
  lemma UnfaithfulDiffers(list: seq<Pixel>, d: Dtype, i: nat, t: nat)
    requires IsInteger(d) && Whole(list) && i < |list| && !Faithful(list[i].value.Floor) && t == ToDouble(list[i].value.Floor)
    ensures IsDouble(t) && t <= BIG
    ensures NumpySelect(list, |list| - 1, [Fin(t as real)], d).nabove < Select(list, |list| - 1, [Fin(t as real)]).nabove
  {
    var v := list[i].value.Floor;
    DownBounds(v);
    DownIsDouble(v);
    var cut: Threshold := Fin(t as real);
    forall j | 0 <= j < |list| && Above(AsDouble(list[j].value, d), cut) ensures Above(list[j].value, cut) {
      NeverMore(list[j].value, t, d);
    }
    KeepsFewer(list, Doubles(list, d), cut, |list|, i);
    assert list[..|list|] == list && Doubles(list, d)[..|list|] == Doubles(list, d);
  }

  /** For integer pixels, of 64 bits as well: numpy and C select alike, whatever the
      limit and the thresholds C is given, if and only if float64 rounds no pixel of the
      list down (or rounds it above 2^62). */
  lemma SelectsAlikeExactly(list: seq<Pixel>, d: Dtype)
    requires IsInteger(d) && Whole(list)
    ensures SelectsAlike(list, d) <==> AllFaithful(list, d)
  {
    if AllFaithful(list, d) {
      forall howmany: nat, thr: seq<Threshold> | Sorted(thr) && Wired(thr)
        ensures NumpySelect(list, howmany, thr, d) == Select(list, howmany, thr) {
        WiredAgrees(list, thr, d);
        NumpyIsSelect(list, howmany, thr, d);
      }
    } else {
      var i :| 0 <= i < |list| && !(list[i].value < 0.0 || Faithful(list[i].value.Floor));
      var t := ToDouble(list[i].value.Floor);
      UnfaithfulDiffers(list, d, i, t);
      var thr: seq<Threshold> := [Fin(t as real)];
      assert (t as real).Floor == t && Sorted(thr) && Wired(thr);
      assert NumpySelect(list, |list| - 1, thr, d) != Select(list, |list| - 1, thr);
    }
  }

  lemma WiredAgrees(list: seq<Pixel>, thr: seq<Threshold>, d: Dtype)
    requires IsInteger(d) && Whole(list) && AllFaithful(list, d) && Wired(thr)
    ensures forall k :: 0 <= k < |thr| ==> Agree(list, d, thr[k])
  {
    forall k | 0 <= k < |thr| ensures Agree(list, d, thr[k]) {
      forall i | 0 <= i < |list| ensures Above(AsDouble(list[i].value, d), thr[k]) <==> Above(list[i].value, thr[k]) {
        FaithfulAgrees(list[i].value, thr[k], d);
      }
    }
  }

  // ---- end to end ---------------------------------------------------------

  /** The pixels of a type that numpy and C compare alike: of at most 53 bits, or faithful,
      or of a float type. */
  predicate Comparable(list: seq<Pixel>, thr: seq<Threshold>, d: Dtype) {
    IsInteger(d) ==>
      && Whole(list)
      && (if ItemSize(d) <= 4 then true
          else AllFaithful(list, d) && forall k :: 0 <= k < |thr| ==> IsFloat(thr[k]))
  }

  lemma ComparableAgrees(list: seq<Pixel>, thr: seq<Threshold>, cut: Threshold, d: Dtype, k: nat)
    requires EffectiveAll(thr, cut, d).Some? && Collected(list, cut.t, d) && Comparable(list, thr, d) && k < |thr|
    ensures Agree(list, d, thr[k])
  {
    EffectiveAt(thr, cut.t.Floor, d, k);
    forall i | 0 <= i < |list| ensures Above(AsDouble(list[i].value, d), thr[k]) <==> Above(list[i].value, thr[k]) {
      if IsInteger(d) && ItemSize(d) > 4 {
        FaithfulAgrees(list[i].value, thr[k], d);
      } else {
        SmallAgrees(list[i].value, thr[k], d);
      }
    }
  }

  /** What C does with a request, block by block, is what numpy selects afterwards with
      its float64 comparisons: for every integer type of at most 32 bits, for float
      pixels, and for 64-bit pixels that float64 does not round down. */
  lemma NativeIsNumpy(blocks: seq<seq<Pixel>>, howmany: nat, thr: seq<Threshold>, cut: Threshold, d: Dtype)
    requires EffectiveAll(thr, cut, d).Some? && Sorted(thr) && |Concat(blocks)| <= INT32_MAX
    requires IsInteger(d) ==> cut.t == cut.t.Floor as real && cut.t <= MaxValue(d) as real
    requires forall i :: 0 <= i < |Concat(blocks)| ==> HasType(Concat(blocks)[i].value, d)
    requires Comparable(Keep(Concat(blocks), cut), thr, d)
    ensures var t := TopFromArgs(Encode(howmany, EffectiveAll(thr, cut, d).value));
            && t.Top?
            && Finish(AddBlocks(blocks, t.howmany, cut.t, Fins(t.thr)), t.howmany, Fins(t.thr)) ==
               NumpySelect(Keep(Concat(blocks), cut), howmany, thr, d)
  {
    var list := Keep(Concat(blocks), cut);
    NativeIsSelect(blocks, howmany, thr, cut, d);
    forall i | 0 <= i < |list| ensures list[i].value > cut.t && HasType(list[i].value, d) { KeepsAbove(Concat(blocks), cut, i); }
    forall k | 0 <= k < |thr| ensures Agree(list, d, thr[k]) { ComparableAgrees(list, thr, cut, d, k); }
    NumpyIsSelect(list, howmany, thr, d);
  }
}
