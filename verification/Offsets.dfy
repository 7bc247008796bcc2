/** Chunk offsets to addresses (`bslz4_offsets_to_pointers`): all or nothing. */
module Offsets {
  /** The chunk lies inside the len bytes of the base. */
  predicate Inside(offset: int, length: int, len: nat) {
    0 <= offset <= len && 0 <= length <= len - offset
  }

  /** Every chunk is checked before any offset is replaced. */
  method OffsetsToPointers(base: nat, len: nat, offsets: array<int>, lengths: array<int>) returns (ok: bool)
    requires offsets.Length == lengths.Length && offsets != lengths
    modifies offsets
    ensures ok <==> forall f :: 0 <= f < offsets.Length ==> Inside(old(offsets[f]), lengths[f], len)
    ensures ok ==> forall f :: 0 <= f < offsets.Length ==>
                     offsets[f] == base + old(offsets[f]) && base <= offsets[f] && offsets[f] + lengths[f] <= base + len
    ensures !ok ==> offsets[..] == old(offsets[..])
  {
    for f := 0 to offsets.Length
      invariant forall g :: 0 <= g < f ==> Inside(offsets[g], lengths[g], len)
    {
      if offsets[f] < 0 || lengths[f] < 0 || offsets[f] > len || lengths[f] > len - offsets[f] { return false; }
    }
    for f := 0 to offsets.Length
      invariant forall g :: 0 <= g < f ==> offsets[g] == base + old(offsets[g])
      invariant forall g :: f <= g < offsets.Length ==> offsets[g] == old(offsets[g])
    {
      offsets[f] := base + offsets[f];
    }
    return true;
  }
}
