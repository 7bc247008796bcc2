/** The checks as the header runs them. */
module BuffersRun {
  import opened Buffers
  import opened BuffersProof
  import opened Division

  /** step holds the bytes of the axes after each, which is what its stride has to be. */
  method CheckC(shape: seq<nat>, strides: seq<int>, itemsize: nat, ghost step: seq<nat>, ghost len: nat) returns (ok: bool)
    requires |strides| == |shape| && |step| == |shape| + 1 && step[|shape|] == itemsize
    requires forall d :: 0 <= d < |shape| ==> step[d] == step[d + 1] * shape[d]
    requires forall d :: 0 <= d <= |shape| ==> step[d] <= len
    ensures ok <==> forall d :: 0 <= d < |shape| && shape[d] != 1 ==> strides[d] == step[d + 1]
  {
    var n := |shape|;
    var d, expected := n, itemsize;
    while d > 0
      invariant 0 <= d <= n && expected == step[d] <= len
      invariant forall e :: d <= e < n && shape[e] != 1 ==> strides[e] == step[e + 1]
    {
      d := d - 1;
      if shape[d] == 1 { continue; }
      if strides[d] < 0 || strides[d] != expected { return false; }
      expected := expected * shape[d];
    }
    return true;
  }

  method CheckF(shape: seq<nat>, strides: seq<int>, itemsize: nat, ghost step: seq<nat>, ghost len: nat) returns (ok: bool)
    requires |strides| == |shape| && |step| == |shape| + 1 && step[0] == itemsize
    requires forall d :: 0 <= d < |shape| ==> step[d + 1] == step[d] * shape[d]
    requires forall d :: 0 <= d <= |shape| ==> step[d] <= len
    ensures ok <==> forall d :: 0 <= d < |shape| && shape[d] != 1 ==> strides[d] == step[d]
  {
    var n := |shape|;
    var d, expected := 0, itemsize;
    while d < n
      invariant 0 <= d <= n && expected == step[d] <= len
      invariant forall e :: 0 <= e < d && shape[e] != 1 ==> strides[e] == step[e]
    {
      if shape[d] != 1 {
        if strides[d] < 0 || strides[d] != expected { return false; }
        expected := expected * shape[d];
      }
      d := d + 1;
    }
    return true;
  }

  /** The bytes of the axes from each on: never more than those of the buffer. */
  lemma SuffixBytes(s: seq<nat>, itemsize: nat) returns (step: seq<nat>)
    requires Prod(s) != 0
    ensures |step| == |s| + 1 && step[|s|] == itemsize
    ensures forall d :: 0 <= d <= |s| ==> step[d] == itemsize * Prod(s[d..])
    ensures forall d :: 0 <= d < |s| ==> step[d] == step[d + 1] * s[d]
    ensures forall d :: 0 <= d <= |s| ==> step[d] <= itemsize * Prod(s)
  {
    step := seq(|s| + 1, d requires 0 <= d <= |s| => itemsize * Prod(s[d..]));
    forall d | 0 <= d < |s| ensures step[d] == step[d + 1] * s[d] {
      NextSuffix(s, itemsize, d);
    }
    forall d | 0 <= d <= |s| ensures step[d] <= itemsize * Prod(s) {
      ExpectedWithin(s, itemsize, d);
    }
  }

  lemma PrefixBytes(s: seq<nat>, itemsize: nat) returns (step: seq<nat>)
    requires Prod(s) != 0
    ensures |step| == |s| + 1 && step[0] == itemsize
    ensures forall d :: 0 <= d <= |s| ==> step[d] == itemsize * Prod(s[..d])
    ensures forall d :: 0 <= d < |s| ==> step[d + 1] == step[d] * s[d]
    ensures forall d :: 0 <= d <= |s| ==> step[d] <= itemsize * Prod(s)
  {
    step := seq(|s| + 1, d requires 0 <= d <= |s| => itemsize * Prod(s[..d]));
    forall d | 0 <= d < |s| ensures step[d + 1] == step[d] * s[d] {
      NextPrefix(s, itemsize, d);
    }
    forall d | 0 <= d <= |s| ensures step[d] <= itemsize * Prod(s) {
      ExpectedWithin(s, itemsize, d);
    }
  }

  method IsC(info: Info) returns (ok: bool)
    requires Consistent(info) && info.strides.Some? && info.len != 0
    ensures ok <==> COrder(info.shape, info.strides.value, info.itemsize)
  {
    NoZeroFactor(info.itemsize, Prod(info.shape));
    ghost var step := SuffixBytes(info.shape, info.itemsize);
    ok := CheckC(info.shape, info.strides.value, info.itemsize, step, info.len);
  }

  method IsF(info: Info) returns (ok: bool)
    requires Consistent(info) && info.strides.Some? && info.len != 0
    ensures ok <==> FOrder(info.shape, info.strides.value, info.itemsize)
  {
    NoZeroFactor(info.itemsize, Prod(info.shape));
    ghost var step := PrefixBytes(info.shape, info.itemsize);
    ok := CheckF(info.shape, info.strides.value, info.itemsize, step, info.len);
  }

  method CheckContiguity(info: Info, slow0: int, fast0: int) returns (ok: bool, slow: int, fast: int)
    requires Consistent(info)
    requires info.strides.None? ==> |info.shape| <= 1 || info.len == 0
    ensures ok <==> Accepted(info)
    ensures ok ==> (slow, fast) == Axes(info, (slow0, fast0))
  {
    ok, slow, fast := true, slow0, fast0;
    var n := |info.shape|;
    if info.strides.None? && n <= 1 { return true, 0, n - 1; }
    if info.len == 0 { return true, 0, n - 1; }
    if n >= 1 {
      ok := IsC(info);
      if ok { return true, 0, n - 1; }
      ok := IsF(info);
      if ok { return true, n - 1, 0; }
    }
  }

  // ---- DLPack -------------------------------------------------------------

  lemma DivBound(a: nat, m: nat, max: nat)
    requires m >= 1
    ensures a > max / m <==> a * m > max
  {
    var q := max / m;
    assert max == q * m + max % m;
    if a > q { TimesGrows(q + 1, a, m); } else { TimesGrows(a, q, m); }
  }

  /** The number of elements, or too large. */
  method CountElements(shape: seq<nat>, itemsize: nat, max: nat) returns (ok: bool, nelem: nat)
    requires itemsize >= 1 && 1 <= max
    ensures ok <==> (0 !in shape ==> itemsize * Prod(shape) <= max)
    ensures ok ==> nelem == Prod(shape)
  {
    ok, nelem := true, 1;
    ProdZero(shape);
    for d := 0 to |shape|
      invariant nelem == if 0 in shape[..d] then 0 else 1
    {
      if shape[d] == 0 { nelem := 0; }
      assert shape[..d + 1] == shape[..d] + [shape[d]];
    }
    assert shape[..|shape|] == shape;
    if nelem == 0 { return; }
    for d := 0 to |shape|
      invariant nelem == Prod(shape[..d]) && nelem >= 1
    {
      assert shape[..d + 1][..d] == shape[..d];
      assert shape[d] >= 1;
      DivBound(nelem, shape[d], max);
      if nelem > max / shape[d] {
        PrefixWithin(shape, d + 1);
        TimesGrows(1, itemsize, Prod(shape));
        ok := false;
        return;
      }
      TimesGrows(1, shape[d], nelem);
      nelem := nelem * shape[d];
    }
    DivBound(nelem, itemsize, max);
    ok := nelem <= max / itemsize;
  }

  /** Strides for a NULL pointer, from the last axis back. */
  method FillStrides(shape: seq<nat>, itemsize: nat, max: nat, strideBuf: array<int>) returns (ok: bool)
    requires 1 <= itemsize <= max && |shape| <= strideBuf.Length
    modifies strideBuf
    ensures ok <==> SuffixesFit(shape, itemsize, max)
    ensures ok ==> forall d :: 0 <= d < |shape| ==> strideBuf[d] == itemsize * Prod(shape[d + 1..])
  {
    ghost var n := |shape|;
    var st, d := itemsize, |shape|;
    while d > 0
      invariant 0 <= d <= n && st == itemsize * Prod(shape[d..])
      invariant forall e :: d <= e <= n ==> itemsize * Prod(shape[e..]) <= max
      invariant forall e :: d <= e < n ==> strideBuf[e] == itemsize * Prod(shape[e + 1..])
    {
      d := d - 1;
      NextSuffix(shape, itemsize, d);
      strideBuf[d] := st;
      if shape[d] != 0 {
        DivBound(st, shape[d], max);
        if st > max / shape[d] { return false; }
      }
      st := st * shape[d];
    }
    return true;
  }

  method CopyShape(shape: seq<int>, max: nat, shapeBuf: array<int>) returns (ok: bool)
    requires |shape| <= shapeBuf.Length
    modifies shapeBuf
    ensures ok <==> Sizes(shape, max)
    ensures ok ==> shapeBuf[..|shape|] == shape
  {
    for d := 0 to |shape|
      invariant forall e :: 0 <= e < d ==> 0 <= shape[e] <= max && shapeBuf[e] == shape[e]
    {
      if shape[d] < 0 || shape[d] > max { return false; }
      shapeBuf[d] := shape[d];
    }
    return true;
  }

  /** Strides in elements, to bytes. */
  method ScaleStrides(strides: seq<int>, itemsize: nat, max: nat, strideBuf: array<int>) returns (ok: bool)
    requires itemsize >= 1 && |strides| <= strideBuf.Length
    modifies strideBuf
    ensures ok <==> forall d :: 0 <= d < |strides| ==> -(max / itemsize) <= strides[d] <= max / itemsize
    ensures ok ==> forall d :: 0 <= d < |strides| ==> strideBuf[d] == strides[d] * itemsize
  {
    var lim := max / itemsize;
    for d := 0 to |strides|
      invariant forall e :: 0 <= e < d ==> -lim <= strides[e] <= lim && strideBuf[e] == strides[e] * itemsize
    {
      if strides[d] > lim || strides[d] < -lim { return false; }
      strideBuf[d] := strides[d] * itemsize;
    }
    return true;
  }

  /** The shape and stride part of c2py_pin_dlpack, into the buffers of the pin. */
  method PinShape(t: Tensor, max: nat, shapeBuf: array<int>, strideBuf: array<int>) returns (ok: bool, len: nat)
    requires 1 <= t.itemsize <= max && (t.strides.Some? ==> |t.strides.value| == |t.shape|)
    requires |t.shape| <= MAX_NDIM <= shapeBuf.Length && MAX_NDIM <= strideBuf.Length && shapeBuf != strideBuf
    modifies shapeBuf, strideBuf
    ensures ok <==> Takes(t, max)
    ensures ok ==> shapeBuf[..|t.shape|] == t.shape && strideBuf[..|t.shape|] == ByteStrides(t)
    ensures ok ==> len == t.itemsize * Prod(AsNats(t.shape))
  {
    len := 0;
    ok := CopyShape(t.shape, max, shapeBuf);
    if !ok { return; }
    var shape := AsNats(t.shape);
    SameZero(t.shape);
    var nelem;
    ok, nelem := CountElements(shape, t.itemsize, max);
    if !ok { return; }
    if t.strides.Some? {
      ok := ScaleStrides(t.strides.value, t.itemsize, max, strideBuf);
    } else {
      ok := FillStrides(shape, t.itemsize, max, strideBuf);
    }
    if !ok { return; }
    assert strideBuf[..|t.shape|] == ByteStrides(t);
    len := nelem * t.itemsize;
  }

  lemma SameZero(shape: seq<int>)
    requires forall d :: 0 <= d < |shape| ==> 0 <= shape[d]
    ensures 0 in AsNats(shape) <==> 0 in shape
  {
    assert forall d :: 0 <= d < |shape| ==> AsNats(shape)[d] == shape[d];
  }

  lemma NextSuffix(shape: seq<nat>, itemsize: nat, d: nat)
    requires d < |shape|
    ensures itemsize * Prod(shape[d..]) == itemsize * Prod(shape[d + 1..]) * shape[d]
  {
    ProdFirst(shape[d..]);
    assert shape[d..][1..] == shape[d + 1..];
    Reorder(itemsize, shape[d], Prod(shape[d + 1..]));
  }

  lemma NextPrefix(shape: seq<nat>, itemsize: nat, d: nat)
    requires d < |shape|
    ensures itemsize * Prod(shape[..d + 1]) == itemsize * Prod(shape[..d]) * shape[d]
  {
    assert shape[..d + 1][..d] == shape[..d];
    Reorder(itemsize, shape[d], Prod(shape[..d]));
  }

  lemma Reorder(a: nat, b: nat, c: nat)
    ensures a * (b * c) == a * c * b && a * (c * b) == a * c * b
  {
  }
}
