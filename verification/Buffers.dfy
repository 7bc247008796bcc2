/**
  Strided buffers: which layouts are contiguous (`c2py_check_contiguity`), and the
  shapes and strides taken from a DLPack tensor (`c2py_pin_dlpack`).
*/
module Buffers {
  /** A pinned buffer: strides in bytes, None for a NULL pointer; len in bytes. */
  datatype Info = Info(shape: seq<nat>, strides: Option<seq<int>>, itemsize: nat, len: nat)

  datatype Option<+T> = None | Some(value: T)

  function Prod(s: seq<nat>): nat {
    if s == [] then 1 else Prod(s[..|s| - 1]) * s[|s| - 1]
  }

  ghost predicate Consistent(info: Info) {
    && info.itemsize >= 1 && info.len == info.itemsize * Prod(info.shape)
    && (info.strides.Some? ==> |info.strides.value| == |info.shape|)
  }

  /** The last axis varies fastest; an axis of length 1 may have any stride. */
  predicate COrder(shape: seq<nat>, strides: seq<int>, itemsize: nat) {
    |strides| == |shape| &&
    forall d :: 0 <= d < |shape| && shape[d] != 1 ==> strides[d] == itemsize * Prod(shape[d + 1..])
  }

  /** The first axis varies fastest. */
  predicate FOrder(shape: seq<nat>, strides: seq<int>, itemsize: nat) {
    |strides| == |shape| &&
    forall d :: 0 <= d < |shape| && shape[d] != 1 ==> strides[d] == itemsize * Prod(shape[..d])
  }

  // ---- the index box ------------------------------------------------------

  predicate InBox(index: seq<nat>, shape: seq<nat>) {
    |index| == |shape| && forall d :: 0 <= d < |shape| ==> index[d] < shape[d]
  }

  /** The byte offset of an element: sum of index * stride. */
  function Offset(index: seq<nat>, strides: seq<int>): int
    requires |index| == |strides|
  {
    if index == [] then 0
    else
      var n := |index| - 1;
      Offset(index[..n], strides[..n]) + index[n] * strides[n]
  }

  /** Elements are at item-sized places of the buffer. */
  ghost predicate Placed(shape: seq<nat>, strides: seq<int>, itemsize: nat)
    requires |strides| == |shape| && itemsize >= 1
  {
    forall index: seq<nat> | InBox(index, shape) ::
      0 <= Offset(index, strides) < itemsize * Prod(shape) && Offset(index, strides) % itemsize == 0
  }

  /** No two elements share a place. */
  ghost predicate Apart(shape: seq<nat>, strides: seq<int>)
    requires |strides| == |shape|
  {
    forall index: seq<nat>, other: seq<nat> | InBox(index, shape) && InBox(other, shape) ::
      Offset(index, strides) == Offset(other, strides) ==> index == other
  }

  /** Every item-sized place holds an element. */
  ghost predicate Filled(shape: seq<nat>, strides: seq<int>, itemsize: nat)
    requires |strides| == |shape|
  {
    forall k: nat | k < Prod(shape) :: Held(shape, strides, itemsize * k)
  }

  /** Some element is at a place. */
  ghost predicate Held(shape: seq<nat>, strides: seq<int>, place: int)
    requires |strides| == |shape|
  {
    exists index: seq<nat> :: InBox(index, shape) && Offset(index, strides) == place
  }

  /** Elements and the item-sized places of the buffer match one to one. */
  ghost predicate OneToOne(shape: seq<nat>, strides: seq<int>, itemsize: nat)
    requires |strides| == |shape| && itemsize >= 1
  {
    Placed(shape, strides, itemsize) && Apart(shape, strides) && Filled(shape, strides, itemsize)
  }

  function Reverse<T>(s: seq<T>): (r: seq<T>)
    ensures |r| == |s| && forall i :: 0 <= i < |s| ==> r[i] == s[|s| - 1 - i]
  {
    seq(|s|, i requires 0 <= i < |s| => s[|s| - 1 - i])
  }

  /** The place of an element when the first axis varies fastest. */
  function Rank(index: seq<nat>, shape: seq<nat>): nat
    requires |index| == |shape|
  {
    if index == [] then 0
    else
      var n := |index| - 1;
      Rank(index[..n], shape[..n]) + index[n] * Prod(shape[..n])
  }

  // ---- contiguity ---------------------------------------------------------

  /** What is accepted as contiguous. */
  predicate Accepted(info: Info) {
    info.strides.None? || info.len == 0 || COrder(info.shape, info.strides.value, info.itemsize)
      || FOrder(info.shape, info.strides.value, info.itemsize)
  }

  /** The slowest and the fastest axis of an accepted buffer; without axes they are left
      as they were. */
  function Axes(info: Info, was: (int, int)): (int, int) {
    var n := |info.shape|;
    if info.strides.None? || info.len == 0 then (0, n - 1)
    else if n == 0 then was
    else if COrder(info.shape, info.strides.value, info.itemsize) then (0, n - 1)
    else (n - 1, 0)
  }

  // ---- DLPack -------------------------------------------------------------

  const MAX_NDIM: nat := 32

  /** A tensor's shape and strides (in elements), its item size in bytes. */
  datatype Tensor = Tensor(shape: seq<int>, strides: Option<seq<int>>, itemsize: nat)

  predicate Sizes(shape: seq<int>, max: nat) {
    forall d :: 0 <= d < |shape| ==> 0 <= shape[d] <= max
  }

  function AsNats(shape: seq<int>): (r: seq<nat>)
    requires forall d :: 0 <= d < |shape| ==> 0 <= shape[d]
    ensures |r| == |shape| && forall d :: 0 <= d < |r| ==> r[d] == shape[d]
  {
    seq(|shape|, d requires 0 <= d < |shape| => shape[d])
  }

  /** The strides of a tensor stay in range as bytes; those of a NULL pointer are the
      bytes of the trailing axes. */
  predicate StridesFit(t: Tensor, max: nat)
    requires Sizes(t.shape, max) && t.itemsize >= 1
  {
    match t.strides
    case Some(strides) => forall d :: 0 <= d < |strides| ==> -(max / t.itemsize) <= strides[d] <= max / t.itemsize
    case None => SuffixesFit(AsNats(t.shape), t.itemsize, max)
  }

  /** The bytes of every trailing block of axes are in range. */
  predicate SuffixesFit(shape: seq<nat>, itemsize: nat, max: nat) {
    forall d :: 0 <= d <= |shape| ==> itemsize * Prod(shape[d..]) <= max
  }

  /** The size guards of c2py_pin_dlpack. */
  predicate Takes(t: Tensor, max: nat)
    requires t.itemsize >= 1
  {
    Sizes(t.shape, max) && (0 !in t.shape ==> t.itemsize * Prod(AsNats(t.shape)) <= max) && StridesFit(t, max)
  }

  function ByteStrides(t: Tensor): (r: seq<int>)
    requires (forall d :: 0 <= d < |t.shape| ==> 0 <= t.shape[d]) && (t.strides.Some? ==> |t.strides.value| == |t.shape|)
    ensures |r| == |t.shape|
  {
    if t.strides.Some? then seq(|t.shape|, d requires 0 <= d < |t.shape| => t.strides.value[d] * t.itemsize)
    else seq(|t.shape|, d requires 0 <= d < |t.shape| => t.itemsize * Prod(AsNats(t.shape)[d + 1..]))
  }
}
