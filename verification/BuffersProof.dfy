/** What contiguity means, and the bounds of the products the checks form. */
module BuffersProof {
  import opened Buffers
  import opened Division

  lemma {:induction false} RankBelow(index: seq<nat>, shape: seq<nat>)
    requires InBox(index, shape)
    ensures Rank(index, shape) < Prod(shape)
  {
    if index != [] {
      var n := |index| - 1;
      var p := Prod(shape[..n]);
      RankBelow(index[..n], shape[..n]);
      RankStep(Rank(index[..n], shape[..n]), index[n], p, shape[n]);
    }
  }

  lemma RankStep(r: nat, i: nat, p: nat, m: nat)
    requires r < p && i < m
    ensures r + i * p < p * m
  {
    TimesGrows(i + 1, m, p);
    assert (i + 1) * p == i * p + p;
  }

  lemma {:induction false} RankInjective(index: seq<nat>, other: seq<nat>, shape: seq<nat>)
    requires InBox(index, shape) && InBox(other, shape) && Rank(index, shape) == Rank(other, shape)
    ensures index == other
  {
    if index != [] {
      var n := |index| - 1;
      var p := Prod(shape[..n]);
      RankBelow(index[..n], shape[..n]);
      RankBelow(other[..n], shape[..n]);
      var a, b := Rank(index[..n], shape[..n]), Rank(other[..n], shape[..n]);
      DivUnique(Rank(index, shape), p, index[n], a);
      DivUnique(Rank(other, shape), p, other[n], b);
      RankInjective(index[..n], other[..n], shape[..n]);
      assert index == index[..n] + [index[n]] && other == other[..n] + [other[n]];
    }
  }

  lemma {:induction false} RankOnto(k: nat, shape: seq<nat>) returns (index: seq<nat>)
    requires k < Prod(shape)
    ensures InBox(index, shape) && Rank(index, shape) == k
  {
    if shape == [] {
      index := [];
    } else {
      var n := |shape| - 1;
      var p := Prod(shape[..n]);
      QuotientBelow(k, p, shape[n]);
      var low := RankOnto(k % p, shape[..n]);
      index := low + [k / p];
      assert index[..n] == low;
    }
  }

  lemma QuotientBelow(k: nat, p: nat, m: nat)
    requires k < p * m
    ensures p >= 1 && 0 <= k / p < m && 0 <= k % p < p && k % p + k / p * p == k
  {
    var q := k / p;
    assert k == q * p + k % p;
    if q >= m { TimesGrows(m, q, p); }
    if q < 0 { TimesGrows(q, -1, p); }
  }

  /** In F order the byte offset is the item size times the place. */
  lemma {:induction false} FOffset(index: seq<nat>, shape: seq<nat>, strides: seq<int>, itemsize: nat)
    requires FOrder(shape, strides, itemsize) && InBox(index, shape)
    ensures Offset(index, strides) == itemsize * Rank(index, shape)
  {
    if index != [] {
      var n := |index| - 1;
      var p := Prod(shape[..n]);
      assert forall d :: 0 <= d < n ==> shape[..n][..d] == shape[..d];
      FOffset(index[..n], shape[..n], strides[..n], itemsize);
      OffsetStep(itemsize, Rank(index[..n], shape[..n]), index[n], p, strides[n]);
    }
  }

  lemma OffsetStep(u: nat, r: nat, i: nat, p: nat, stride: int)
    requires i == 0 || stride == u * p
    ensures u * r + i * stride == u * (r + i * p)
  {
    if i != 0 {
      assert i * (u * p) == u * (i * p);
      assert u * (r + i * p) == u * r + u * (i * p);
    }
  }

  lemma FOneToOne(shape: seq<nat>, strides: seq<int>, itemsize: nat)
    requires FOrder(shape, strides, itemsize) && itemsize >= 1
    ensures OneToOne(shape, strides, itemsize)
  {
    forall index: seq<nat> | InBox(index, shape)
      ensures 0 <= Offset(index, strides) < itemsize * Prod(shape) && Offset(index, strides) % itemsize == 0 {
      FPlace(index, shape, strides, itemsize);
    }
    forall index: seq<nat>, other: seq<nat> | InBox(index, shape) && InBox(other, shape) && Offset(index, strides) == Offset(other, strides)
      ensures index == other {
      FPlace(index, shape, strides, itemsize);
      FPlace(other, shape, strides, itemsize);
      RankInjective(index, other, shape);
    }
    forall k: nat | k < Prod(shape) ensures Held(shape, strides, itemsize * k) {
      var index := RankOnto(k, shape);
      FOffset(index, shape, strides, itemsize);
    }
  }

  lemma FPlace(index: seq<nat>, shape: seq<nat>, strides: seq<int>, itemsize: nat)
    requires FOrder(shape, strides, itemsize) && itemsize >= 1 && InBox(index, shape)
    ensures 0 <= Offset(index, strides) < itemsize * Prod(shape) && Offset(index, strides) % itemsize == 0
    ensures Offset(index, strides) / itemsize == Rank(index, shape)
  {
    FOffset(index, shape, strides, itemsize);
    RankBelow(index, shape);
    MultipleDivides(itemsize, Rank(index, shape));
    Below(itemsize, Rank(index, shape), Prod(shape));
  }

  lemma Below(u: nat, a: nat, b: nat)
    requires u >= 1 && a < b
    ensures 0 <= u * a < u * b
  {
    TimesGrows(a + 1, b, u);
  }

  // ---- C order is F order of the axes reversed ----------------------------

  lemma {:induction false} ProdFirst(s: seq<nat>)
    requires |s| >= 1
    ensures Prod(s) == s[0] * Prod(s[1..])
  {
    if |s| > 1 {
      var n := |s| - 1;
      ProdFirst(s[..n]);
      assert s[..n][1..] == s[1..][..n - 1];
      assert s[0] * Prod(s[1..][..n - 1]) * s[n] == s[0] * (Prod(s[1..][..n - 1]) * s[n]);
    }
  }

  lemma {:induction false} ProdReverse(s: seq<nat>)
    ensures Prod(Reverse(s)) == Prod(s)
  {
    if s != [] {
      var n := |s| - 1;
      ProdFirst(Reverse(s));
      assert Reverse(s)[1..] == Reverse(s[..n]);
      ProdReverse(s[..n]);
    }
  }

  lemma {:induction false} OffsetFirst(index: seq<nat>, strides: seq<int>)
    requires |index| == |strides| >= 1
    ensures Offset(index, strides) == index[0] * strides[0] + Offset(index[1..], strides[1..])
  {
    if |index| > 1 {
      var n := |index| - 1;
      OffsetFirst(index[..n], strides[..n]);
      assert index[..n][1..] == index[1..][..n - 1] && strides[..n][1..] == strides[1..][..n - 1];
    }
  }

  lemma {:induction false} OffsetReverse(index: seq<nat>, strides: seq<int>)
    requires |index| == |strides|
    ensures Offset(Reverse(index), Reverse(strides)) == Offset(index, strides)
  {
    if index != [] {
      var n := |index| - 1;
      OffsetFirst(Reverse(index), Reverse(strides));
      assert Reverse(index)[1..] == Reverse(index[..n]) && Reverse(strides)[1..] == Reverse(strides[..n]);
      OffsetReverse(index[..n], strides[..n]);
    }
  }

  lemma CIsFReversed(shape: seq<nat>, strides: seq<int>, itemsize: nat)
    requires COrder(shape, strides, itemsize)
    ensures FOrder(Reverse(shape), Reverse(strides), itemsize)
  {
    var n := |shape|;
    forall d | 0 <= d < n && Reverse(shape)[d] != 1 ensures Reverse(strides)[d] == itemsize * Prod(Reverse(shape)[..d]) {
      assert Reverse(shape)[..d] == Reverse(shape[n - d..]);
      ProdReverse(shape[n - d..]);
    }
  }

  lemma COneToOne(shape: seq<nat>, strides: seq<int>, itemsize: nat)
    requires COrder(shape, strides, itemsize) && itemsize >= 1
    ensures OneToOne(shape, strides, itemsize)
  {
    CIsFReversed(shape, strides, itemsize);
    FOneToOne(Reverse(shape), Reverse(strides), itemsize);
    ReversedPlaced(shape, strides, itemsize);
    ReversedApart(shape, strides);
    ReversedFilled(shape, strides, itemsize);
  }

  lemma ReversedPlaced(shape: seq<nat>, strides: seq<int>, itemsize: nat)
    requires |strides| == |shape| && itemsize >= 1 && Placed(Reverse(shape), Reverse(strides), itemsize)
    ensures Placed(shape, strides, itemsize)
  {
    ProdReverse(shape);
    forall index: seq<nat> | InBox(index, shape)
      ensures 0 <= Offset(index, strides) < itemsize * Prod(shape) && Offset(index, strides) % itemsize == 0 {
      OffsetReverse(index, strides);
      assert InBox(Reverse(index), Reverse(shape));
    }
  }

  lemma ReverseTwice<T>(s: seq<T>)
    ensures Reverse(Reverse(s)) == s
  {
  }

  lemma MirroredBox(index: seq<nat>, shape: seq<nat>)
    requires InBox(index, shape)
    ensures InBox(Reverse(index), Reverse(shape))
  {
  }

  lemma ReversedPair(shape: seq<nat>, strides: seq<int>, index: seq<nat>, other: seq<nat>)
    requires |strides| == |shape| && Apart(Reverse(shape), Reverse(strides))
    requires InBox(index, shape) && InBox(other, shape) && Offset(index, strides) == Offset(other, strides)
    ensures index == other
  {
    OffsetReverse(index, strides);
    OffsetReverse(other, strides);
    MirroredBox(index, shape);
    MirroredBox(other, shape);
    assert Reverse(index) == Reverse(other);
    ReverseTwice(index);
    ReverseTwice(other);
  }

  lemma ReversedApart(shape: seq<nat>, strides: seq<int>)
    requires |strides| == |shape| && Apart(Reverse(shape), Reverse(strides))
    ensures Apart(shape, strides)
  {
    forall index: seq<nat>, other: seq<nat> | InBox(index, shape) && InBox(other, shape) && Offset(index, strides) == Offset(other, strides)
      ensures index == other {
      ReversedPair(shape, strides, index, other);
    }
  }

  lemma ReversedReached(shape: seq<nat>, strides: seq<int>, itemsize: nat, k: nat) returns (index: seq<nat>)
    requires |strides| == |shape| && Filled(Reverse(shape), Reverse(strides), itemsize) && k < Prod(shape)
    ensures InBox(index, shape) && Offset(index, strides) == itemsize * k
  {
    ProdReverse(shape);
    assert Held(Reverse(shape), Reverse(strides), itemsize * k);
    var r: seq<nat> :| InBox(r, Reverse(shape)) && Offset(r, Reverse(strides)) == itemsize * k;
    index := Reverse(r);
    ReverseTwice(r);
    ReverseTwice(shape);
    MirroredBox(r, Reverse(shape));
    OffsetReverse(index, strides);
  }

  lemma ReversedFilled(shape: seq<nat>, strides: seq<int>, itemsize: nat)
    requires |strides| == |shape| && Filled(Reverse(shape), Reverse(strides), itemsize)
    ensures Filled(shape, strides, itemsize)
  {
    forall k: nat | k < Prod(shape) ensures Held(shape, strides, itemsize * k) {
      var index := ReversedReached(shape, strides, itemsize, k);
    }
  }

  /** An accepted non-empty buffer with strides holds every element once, at the places
      of its len bytes, and leaves no place empty. */
  lemma ContiguousIsOneToOne(info: Info)
    requires Consistent(info) && info.strides.Some? && info.len != 0 && Accepted(info)
    ensures OneToOne(info.shape, info.strides.value, info.itemsize) && info.len == info.itemsize * Prod(info.shape)
  {
    if COrder(info.shape, info.strides.value, info.itemsize) {
      COneToOne(info.shape, info.strides.value, info.itemsize);
    } else {
      FOneToOne(info.shape, info.strides.value, info.itemsize);
    }
  }

  // ---- partial products ---------------------------------------------------

  lemma {:induction false} SuffixWithin(s: seq<nat>, d: nat)
    requires d <= |s| && Prod(s) != 0
    ensures Prod(s[d..]) != 0 && Prod(s[d..]) <= Prod(s)
    decreases d
  {
    if d == 0 {
      assert s[0..] == s;
    } else {
      SuffixWithin(s, d - 1);
      ProdFirst(s[d - 1..]);
      assert s[d - 1..][1..] == s[d..];
      NoZeroFactor(s[d - 1], Prod(s[d..]));
      TimesGrows(1, s[d - 1], Prod(s[d..]));
    }
  }

  lemma {:induction false} PrefixWithin(s: seq<nat>, d: nat)
    requires d <= |s| && Prod(s) != 0
    ensures Prod(s[..d]) != 0 && Prod(s[..d]) <= Prod(s)
    decreases |s|
  {
    if d == |s| {
      assert s[..d] == s;
    } else {
      var n := |s| - 1;
      NoZeroFactor(Prod(s[..n]), s[n]);
      PrefixWithin(s[..n], d);
      assert s[..n][..d] == s[..d];
      TimesGrows(1, s[n], Prod(s[..n]));
    }
  }

  lemma NoZeroFactor(a: nat, b: nat)
    requires a * b != 0
    ensures a != 0 && b != 0
  {
  }

  lemma {:induction false} ProdZero(s: seq<nat>)
    ensures Prod(s) == 0 <==> 0 in s
  {
    if s != [] {
      var n := |s| - 1;
      ProdZero(s[..n]);
      assert s == s[..n] + [s[n]];
      if Prod(s[..n]) != 0 && s[n] != 0 { TimesGrows(1, Prod(s[..n]), s[n]); }
    }
  }

  /** No product the checks form exceeds the bytes of the buffer, so none overflows. */
  lemma ExpectedWithin(shape: seq<nat>, itemsize: nat, d: nat)
    requires d <= |shape| && Prod(shape) != 0
    ensures itemsize * Prod(shape[d..]) <= itemsize * Prod(shape)
    ensures itemsize * Prod(shape[..d]) <= itemsize * Prod(shape)
  {
    SuffixWithin(shape, d);
    PrefixWithin(shape, d);
    TimesGrows(Prod(shape[d..]), Prod(shape), itemsize);
    TimesGrows(Prod(shape[..d]), Prod(shape), itemsize);
  }

  /** Along the fastest axis of an accepted strided buffer lie neighbouring items, and the
      slowest one spans the whole buffer. */
  lemma AxesMean(info: Info, was: (int, int))
    requires Consistent(info) && info.strides.Some? && Accepted(info) && info.len > 0 && |info.shape| > 0
    ensures var (slow, fast) := Axes(info, was);
            && 0 <= slow < |info.shape| && 0 <= fast < |info.shape| && slow + fast == |info.shape| - 1
            && (info.shape[fast] != 1 ==> info.strides.value[fast] == info.itemsize)
            && (info.shape[slow] != 1 ==> info.strides.value[slow] * info.shape[slow] == info.len)
  {
    var s := info.shape;
    if COrder(s, info.strides.value, info.itemsize) {
      CEnds(s, info.strides.value, info.itemsize);
    } else {
      FEnds(s, info.strides.value, info.itemsize);
    }
  }

  lemma CEnds(s: seq<nat>, strides: seq<int>, itemsize: nat)
    requires COrder(s, strides, itemsize) && |s| > 0
    ensures s[|s| - 1] != 1 ==> strides[|s| - 1] == itemsize
    ensures s[0] != 1 ==> strides[0] * s[0] == itemsize * Prod(s)
  {
    assert s[|s|..] == [] && Prod([]) == 1;
    CSlowest(s, itemsize);
  }

  lemma CSlowest(s: seq<nat>, itemsize: nat)
    requires |s| > 0
    ensures itemsize * Prod(s[1..]) * s[0] == itemsize * Prod(s)
  {
    ProdFirst(s);
    SpansFirst(itemsize, Prod(s[1..]), s[0], Prod(s));
  }

  lemma SpansFirst(itemsize: nat, inner: nat, length: nat, all: nat)
    requires all == length * inner
    ensures itemsize * inner * length == itemsize * all
  {
    Spans(itemsize, inner, length, inner * length);
  }

  lemma FEnds(s: seq<nat>, strides: seq<int>, itemsize: nat)
    requires FOrder(s, strides, itemsize) && |s| > 0
    ensures s[0] != 1 ==> strides[0] == itemsize
    ensures s[|s| - 1] != 1 ==> strides[|s| - 1] * s[|s| - 1] == itemsize * Prod(s)
  {
    assert s[..0] == [] && Prod([]) == 1;
    Spans(itemsize, Prod(s[..|s| - 1]), s[|s| - 1], Prod(s));
  }

  lemma Spans(itemsize: nat, inner: nat, length: nat, all: nat)
    requires all == inner * length
    ensures itemsize * inner * length == itemsize * all
  {
  }

  // ---- DLPack -------------------------------------------------------------

  /** A non-empty tensor with a NULL stride pointer is rejected for its size exactly when
      an axis or its bytes are out of range. */
  lemma NonEmptyExactly(t: Tensor, max: nat)
    requires t.itemsize >= 1 && t.strides.None? && 0 !in t.shape
    ensures Takes(t, max) <==> Sizes(t.shape, max) && t.itemsize * Prod(AsNats(t.shape)) <= max
  {
    if Sizes(t.shape, max) && t.itemsize * Prod(AsNats(t.shape)) <= max {
      var s := AsNats(t.shape);
      ProdZero(s);
      assert forall d :: 0 <= d < |s| ==> s[d] == t.shape[d];
      forall d | 0 <= d <= |s| ensures t.itemsize * Prod(s[d..]) <= max {
        ExpectedWithin(s, t.itemsize, d);
      }
    }
  }

  /** An empty one is rejected, in spite of its no bytes, when the axes after its last
      empty one are too large: here a shape of (0, 2**62, 2) of bytes. */
  lemma EmptyTooLarge(t: Tensor)
    requires t == Tensor([0, 0x4000_0000_0000_0000, 2], None, 1)
    ensures !Takes(t, 0x7FFF_FFFF_FFFF_FFFF)
  {
    var s := AsNats(t.shape);
    var tail := s[1..];
    assert |tail| == 2 && tail[0] == 0x4000_0000_0000_0000 && tail[1] == 2;
    ProdFirst(tail);
    ProdFirst(tail[1..]);
    assert tail[1..][1..] == [];
    assert t.itemsize * Prod(s[1..]) > 0x7FFF_FFFF_FFFF_FFFF;
  }

  lemma MadeStride(t: Tensor, d: nat)
    requires t.itemsize >= 1 && t.strides.None? && (forall i :: 0 <= i < |t.shape| ==> 0 <= t.shape[i]) && d < |t.shape|
    ensures ByteStrides(t)[d] == t.itemsize * Prod(AsNats(t.shape)[d + 1..])
  {
  }

  lemma MadeInOrder(t: Tensor)
    requires t.itemsize >= 1 && t.strides.None? && forall i :: 0 <= i < |t.shape| ==> 0 <= t.shape[i]
    ensures COrder(AsNats(t.shape), ByteStrides(t), t.itemsize)
  {
    forall d | 0 <= d < |t.shape| ensures ByteStrides(t)[d] == t.itemsize * Prod(AsNats(t.shape)[d + 1..]) {
      MadeStride(t, d);
    }
  }

  lemma CIsAccepted(info: Info, was: (int, int))
    requires info.strides.Some? && COrder(info.shape, info.strides.value, info.itemsize) && |info.shape| > 0
    ensures Accepted(info) && Axes(info, was) == (0, |info.shape| - 1)
  {
  }

  /** The strides made for a NULL pointer are accepted as C order. */
  lemma NullStridesAreC(t: Tensor, max: nat, was: (int, int), info: Info)
    requires t.itemsize >= 1 && t.strides.None? && Takes(t, max) && |t.shape| > 0
    requires info == Info(AsNats(t.shape), Some(ByteStrides(t)), t.itemsize, t.itemsize * Prod(AsNats(t.shape)))
    ensures COrder(info.shape, info.strides.value, info.itemsize)
    ensures Accepted(info) && Axes(info, was) == (0, |t.shape| - 1)
  {
    MadeInOrder(t);
    CIsAccepted(info, was);
  }
}
