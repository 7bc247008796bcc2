/**
  Matrices of 64-bit pixels whose integer sums overflow int64, although their bits
  were chosen for those pixels.
*/
module FixedPointOverflow {
  import opened Csc
  import opened FixedPoint
  import opened FixedPointProof
  import opened FixedPointSums
  import opened Numpy
  import opened Product

  /** One pixel shared equally by three bins, each a quarter after scaling. */
  const SHARE: real := 1.0 / 4398046511104.0
  const SHARED: Matrix := Matrix([SHARE, SHARE, SHARE], [0, 1, 2], [0, 3], 3)
  const U64_MAX: nat := 0xFFFF_FFFF_FFFF_FFFF
  const U32_MAX: nat := 0xFFFF_FFFF

  lemma Pow2Forty()
    ensures Pow2(40) == 1099511627776.0
  {
    assert Pow2(3) == 8.0;
    assert Pow2(5) == 32.0;
    Pow2Adds(5, 5);
    Pow2Adds(10, 10);
    Pow2Adds(20, 20);
  }

  lemma SharedFit()
    ensures FitBits(U32_MAX, SHARE) >= 40
  {
    Pow2Forty();
    var fit := U32_MAX as real / SHARE;
    assert MaxReal(SHARE, TINY) == SHARE;
    assert fit >= 1099511627776.0;
    if FloorLog2(fit) < 40 { Pow2Ascends(FloorLog2(fit) + 1, 40); }
  }

  lemma SharedBudget()
    ensures SumBits(U64_MAX, SHARE) == 40
  {
    Pow2Forty();
    assert MaxReal(SHARE, TINY) == SHARE;
    assert Budget(U64_MAX, SHARE) == 1099511627776.0;
    assert Pow2(41) == 2.0 * Pow2(40);
    FloorLog2Unique(Budget(U64_MAX, SHARE), 40);
  }

  lemma SharedMagnitude()
    ensures MaxAbs([SHARE, SHARE, SHARE]) == SHARE
  {
    var s := [SHARE, SHARE, SHARE];
    assert s[..2] == [SHARE, SHARE] && s[..2][..1] == [SHARE] && s[..2][..1][..0] == [];
    assert MaxAbs([SHARE]) == SHARE;
    assert MaxAbs(s[..2]) == SHARE;
  }

  lemma SharedBits()
    ensures SHARED.Valid() && Bits(SHARED, U64_MAX, U32_MAX) == Success(40)
  {
    SharedMagnitude();
    SharedRows();
    SharedFit();
    SharedBudget();
  }

  lemma SharedRows()
    ensures SHARED.Valid() && MaxRowSum(SHARED, 3) == SHARE
  {
    var s, bins := Magnitudes(SHARED.data), SHARED.indices;
    assert s == SHARED.data;
    forall b: nat | b < 3 ensures PartReal(s, bins, b, 0, 3) == SHARE {
      assert PartReal(s, bins, b, 0, 1) == if b == 0 then SHARE else 0.0;
      assert PartReal(s, bins, b, 0, 2) == if b < 2 then SHARE else 0.0;
    }
    assert MaxRowSum(SHARED, 1) == SHARE;
    assert MaxRowSum(SHARED, 2) == SHARE;
  }

  lemma SharedScaled()
    ensures Scaled([SHARE, SHARE, SHARE], 40) == [0.25, 0.25, 0.25]
  {
    ScaleIsProduct(SHARE, 40);
    Pow2Forty();
  }

  lemma SharedClamped()
    ensures Clamped(SHARED.data) == Success([SHARE, SHARE, SHARE])
  {
    var d := Clamped(SHARED.data).value;
    assert d == [SHARE, SHARE, SHARE];
  }

  lemma SharedWeights()
    ensures SHARED.Valid() && Quantise(SHARED, 40, U32_MAX) == Success([1, 0, 0])
  {
    SharedClamped();
    SharedScaled();
    SharedAdjusted([0.25, 0.25, 0.25]);
  }

  lemma SharedAdjusted(w: seq<real>)
    requires w == [0.25, 0.25, 0.25]
    ensures SHARED.Valid() && AllAdjusted(SHARED, w) == [1, 0, 0]
  {
    QuartersColumn(SHARED, w, AllAdjusted(SHARED, w), 0, 0);
  }

  /** "Exact sums" do not hold for every integer pixel type: a uint64 pixel at its
      maximum, shared by three bins, overflows int64 although the bits were chosen for
      uint64 pixels.  The three quarters round to nothing and the residual puts a
      whole unit on the first bin. */
  lemma WidePixelOverflows()
    ensures SHARED.Valid()
    ensures Bits(SHARED, U64_MAX, U32_MAX) == Success(40) && Quantise(SHARED, 40, U32_MAX) == Success([1, 0, 0])
    ensures InRange([U64_MAX], U64_MAX) && BinSum(SHARED, [1, 0, 0], [U64_MAX], 0) >= TWO_63
  {
    SharedBits();
    SharedWeights();
    var q, x := [1, 0, 0], [U64_MAX];
    TraceAt(SHARED);
    PixOfColumn(SHARED, 0, 0);
    var p := Products(q, Pix(SHARED), x);
    assert p[0] == U64_MAX;
    assert PartInt(p, SHARED.indices, 0, 0, 1) == U64_MAX;
    assert PartInt(p, SHARED.indices, 0, 0, 2) == U64_MAX;
  }

  // ---- signed pixels ------------------------------------------------------

  /** Two pixels, each shared by the same three bins. */
  const PAIRED: Matrix :=
    Matrix([SHARE, SHARE, SHARE, SHARE, SHARE, SHARE], [0, 1, 2, 0, 1, 2], [0, 3, 6], 3)
  const I64_MAX: nat := 0x7FFF_FFFF_FFFF_FFFF

  lemma {:induction false} UniformMagnitude(s: seq<real>)
    requires |s| >= 1 && forall k :: 0 <= k < |s| ==> s[k] == SHARE
    ensures MaxAbs(s) == SHARE
  {
    if |s| > 1 { UniformMagnitude(s[..|s| - 1]); } else { assert s[..0] == []; }
  }

  lemma PairedRow(s: seq<real>, bins: seq<nat>, b: nat)
    requires s == PAIRED.data && bins == PAIRED.indices && b < 3
    ensures PartReal(s, bins, b, 0, 6) == 2.0 * SHARE
  {
    assert PartReal(s, bins, b, 0, 1) == if b == 0 then SHARE else 0.0;
    assert PartReal(s, bins, b, 0, 2) == if b < 2 then SHARE else 0.0;
    assert PartReal(s, bins, b, 0, 3) == SHARE;
    assert PartReal(s, bins, b, 0, 4) == if b == 0 then 2.0 * SHARE else SHARE;
    assert PartReal(s, bins, b, 0, 5) == if b < 2 then 2.0 * SHARE else SHARE;
  }

  lemma PairedRows()
    ensures PAIRED.Valid() && MaxRowSum(PAIRED, 3) == 2.0 * SHARE
  {
    var s := Magnitudes(PAIRED.data);
    assert s == PAIRED.data;
    PairedRow(s, PAIRED.indices, 0);
    PairedRow(s, PAIRED.indices, 1);
    PairedRow(s, PAIRED.indices, 2);
    assert MaxRowSum(PAIRED, 1) == 2.0 * SHARE;
    assert MaxRowSum(PAIRED, 2) == 2.0 * SHARE;
  }

  lemma PairedBudget()
    ensures SumBits(I64_MAX, 2.0 * SHARE) == 40
  {
    Pow2Forty();
    assert MaxReal(2.0 * SHARE, TINY) == 2.0 * SHARE;
    assert Budget(I64_MAX, 2.0 * SHARE) == 1099511627776.0;
    assert Pow2(41) == 2.0 * Pow2(40);
    FloorLog2Unique(Budget(I64_MAX, 2.0 * SHARE), 40);
  }

  lemma PairedBits()
    ensures PAIRED.Valid() && Bits(PAIRED, I64_MAX, U32_MAX) == Success(40)
  {
    UniformMagnitude(PAIRED.data);
    PairedRows();
    SharedFit();
    PairedBudget();
  }

  lemma PairedScaled()
    ensures Clamped(PAIRED.data) == Success(PAIRED.data)
    ensures Scaled(PAIRED.data, 40) == [0.25, 0.25, 0.25, 0.25, 0.25, 0.25]
  {
    ScaleIsProduct(SHARE, 40);
    Pow2Forty();
    assert Clamped(PAIRED.data).value == PAIRED.data;
  }

  lemma QuartersResidual(w: seq<real>, lo: nat)
    requires lo + 3 <= |w| && forall k :: lo <= k < lo + 3 ==> w[k] == 0.25
    ensures Residual(w, lo, lo + 3) == 1 && FirstMax(w, lo, lo + 3) == lo
  {
    assert SumReal(w, lo, lo) == 0.0 && SumReal(w, lo, lo + 1) == 0.25 && SumReal(w, lo, lo + 2) == 0.5;
    var r := Rounded(w);
    assert SumInt(r, lo, lo) == 0 && SumInt(r, lo, lo + 1) == 0 && SumInt(r, lo, lo + 2) == 0;
  }

  lemma QuartersColumn(m: Matrix, w: seq<real>, q: seq<int>, p: nat, lo: nat)
    requires m.Valid() && |w| == |m.indices| && p < m.Npix() && m.indptr[p] == lo && m.indptr[p + 1] == lo + 3
    requires lo + 3 <= |w| && (forall k :: lo <= k < lo + 3 ==> w[k] == 0.25) && q == AllAdjusted(m, w)
    ensures q[lo] == 1 && q[lo + 1] == 0 && q[lo + 2] == 0
  {
    QuartersResidual(w, lo);
    AdjustedColumn(m, w, p);
  }

  lemma PairedAdjusted(w: seq<real>)
    requires w == [0.25, 0.25, 0.25, 0.25, 0.25, 0.25]
    ensures PAIRED.Valid() && AllAdjusted(PAIRED, w) == [1, 0, 0, 1, 0, 0]
  {
    var q := AllAdjusted(PAIRED, w);
    QuartersColumn(PAIRED, w, q, 0, 0);
    QuartersColumn(PAIRED, w, q, 1, 3);
  }

  lemma PairedWeights()
    ensures PAIRED.Valid() && Quantise(PAIRED, 40, U32_MAX) == Success([1, 0, 0, 1, 0, 0])
  {
    PairedScaled();
    PairedAdjusted([0.25, 0.25, 0.25, 0.25, 0.25, 0.25]);
  }

  /** Nor do they hold for int64: two pixels at their maximum, shared by three bins. */
  lemma SignedPixelOverflows()
    ensures PAIRED.Valid()
    ensures Bits(PAIRED, I64_MAX, U32_MAX) == Success(40) && Quantise(PAIRED, 40, U32_MAX) == Success([1, 0, 0, 1, 0, 0])
    ensures !(forall x :: InRange(x, I64_MAX) ==> -TWO_63 <= BinSum(PAIRED, [1, 0, 0, 1, 0, 0], x, 0) < TWO_63)
  {
    PairedBits();
    PairedWeights();
    var q := [1, 0, 0, 1, 0, 0];
    var bins := PAIRED.indices;
    assert PartInt(q, bins, 0, 0, 3) == 1 && PartInt(q, bins, 0, 0, 6) == 2;
    SignedSumsFitExactly(PAIRED, q, I64_MAX, 0);
  }
}
