/** Whether a writable buffer shares memory with another (`c2py_check_no_overlap`). */
module Overlap {
  /** uintptr_t */
  const SPACE: nat := 0x1_0000_0000_0000_0000

  /** The bytes of a buffer: its address and its length. */
  datatype Span = Span(at: nat, len: nat)

  /** A byte of both. */
  ghost predicate Share(a: Span, b: Span) {
    exists x: nat :: In(a, x) && In(b, x)
  }

  predicate In(a: Span, x: nat) {
    a.at <= x < a.at + a.len
  }

  /** One past the end is an address as well, as it is of every object (section 6.5.6 of
      C11). */
  predicate Ends(a: Span) {
    a.at + a.len < SPACE
  }

  /** The comparison of the header, in uintptr_t. */
  predicate Crosses(a: Span, b: Span) {
    a.at < (b.at + b.len) % SPACE && b.at < (a.at + a.len) % SPACE
  }

  /** No writable buffer, which come first, shares a byte with another. */
  ghost predicate Apart(spans: seq<Span>, writable: nat) {
    forall i, j :: 0 <= i < writable && i < |spans| && 0 <= j < |spans| && i != j ==> !Share(spans[i], spans[j])
  }

  /** Two buffers that are not empty cross exactly when they share a byte. */
  lemma CrossesIsShare(a: Span, b: Span)
    requires Ends(a) && Ends(b) && a.len > 0 && b.len > 0
    ensures Crosses(a, b) <==> Share(a, b)
  {
    if Crosses(a, b) {
      var x := if a.at < b.at then b.at else a.at;
      assert In(a, x) && In(b, x);
    }
  }

  method CheckNoOverlap(spans: seq<Span>, writable: nat) returns (ok: bool)
    requires writable <= |spans| && forall i :: 0 <= i < |spans| ==> Ends(spans[i])
    ensures ok <==> Apart(spans, writable)
  {
    for i := 0 to writable
      invariant forall k, j :: 0 <= k < i && 0 <= j < |spans| && k != j ==> !Share(spans[k], spans[j])
    {
      if spans[i].len == 0 { continue; }
      for j := 0 to |spans|
        invariant forall k :: 0 <= k < j && k != i ==> !Share(spans[i], spans[k])
      {
        if i == j || spans[j].len == 0 { continue; }
        CrossesIsShare(spans[i], spans[j]);
        if Crosses(spans[i], spans[j]) { return false; }
      }
    }
    return true;
  }
}
