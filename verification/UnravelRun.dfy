/** The loop over a frame's indices. */
module UnravelRun {
  import opened Unravel
  import UnravelProof

  /** One index of the fast path. */
  method DivideFast(index: nat, nfast: nat) returns (row: int, col: int)
    requires 1 <= nfast < MAX_FAST && index < MAX_INDEX
    ensures row == Row(index, nfast) && col == Col(index, nfast)
  {
    var r := Wrap(index * Magic(nfast));
    r := r / TWO_40;
    UnravelProof.FastPathDivides(index, nfast, r);
    row := r % TWO_16;
    r := Wrap(r * nfast);
    var t := Wrap(index - r);
    col := t % TWO_16;
  }

  method UnravelIndices(indices: array<nat>, nfast: nat, row: array<int>, col: array<int>)
    requires nfast >= 1 && row.Length == col.Length == indices.Length && row != col
    modifies row, col
    ensures forall k :: 0 <= k < indices.Length ==> row[k] == Row(indices[k], nfast) && col[k] == Col(indices[k], nfast)
  {
    var n := indices.Length;
    if n == 0 { return; }
    var largest := indices[0];
    for k := 1 to n
      invariant forall j :: 0 <= j < k ==> indices[j] <= largest
    {
      if indices[k] > largest { largest := indices[k]; }
    }
    var fast := !(nfast >= MAX_FAST || largest >= MAX_INDEX);
    for k := 0 to n
      invariant forall j :: 0 <= j < k ==> row[j] == Row(indices[j], nfast) && col[j] == Col(indices[j], nfast)
    {
      if fast {
        var r, c := DivideFast(indices[k], nfast);
        row[k], col[k] := r, c;
      } else {
        row[k], col[k] := Row(indices[k], nfast), Col(indices[k], nfast);
      }
    }
  }
}
