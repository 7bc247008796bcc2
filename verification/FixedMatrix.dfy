/**
  A matrix prepared for exact integer sums (`fixed_point_matrix`), from the folded float
  matrix to the powder: how far the integer sums, divided by the scale, can be from the
  product of the matrix.
*/
module FixedMatrix {
  import opened Csc
  import opened Division
  import opened Dtypes
  import opened FixedPoint
  import opened FixedPointBits
  import opened Layouts
  import opened Numpy
  import opened Product

  /** The most fractional bits that fit, from 4 to 40. */
  ghost predicate MostBits(m: Matrix, maxval: nat, wlimit: nat, b: nat)
    requires m.Valid()
  {
    4 <= b <= 40 && BitsFit(m, maxval, wlimit, b) && (b == 40 || !BitsFit(m, maxval, wlimit, b + 1))
  }

  /** The weights quantise with the most bits that fit. */
  ghost predicate MostBitsQuantise(m: Matrix, maxval: nat, wlimit: nat)
    requires m.Valid()
  {
    exists b :: MostBits(m, maxval, wlimit, b) && Quantise(m, b, wlimit).Success?
  }

  /** The largest weight of so many bits. */
  function WeightLimit(wbits: nat): (r: nat)
    requires wbits >= 1
    ensures r >= 1
  {
    2 * Shifted(wbits - 1) - 1
  }

  /** The largest pixel: the type's unless given. */
  function TopPixel(dtype: Dtype, maxval: Option<nat>): nat {
    if maxval.Some? then maxval.value else if IsInteger(dtype) then MaxValue(dtype) else 0
  }

  /** fixed_point_matrix on a folded matrix. */
  function Make(m: Matrix, dtype: Dtype, maxval: Option<nat>, wbits: nat): Result<Fixed>
    requires m.Valid()
  {
    if wbits != 16 && wbits != 32 then Refused(WeightWidth)
    else if !IsInteger(dtype) then Refused(FloatPixels)
    else match Bits(m, TopPixel(dtype, maxval), WeightLimit(wbits))
      case Refused(e) => Refused(e)
      case Success(b) =>
        match Quantise(m, b, WeightLimit(wbits))
        case Refused(e) => Refused(e)
        case Success(q) => Success(Fixed(q, wbits, Shifted(b)))
  }

  /** The weights that the integer ones stand for: negative noise taken as 0. */
  function Weights(m: Matrix): seq<real>
    requires m.Valid()
  {
    if Clamped(m.data).Success? && |Clamped(m.data).value| == |m.data| then Clamped(m.data).value else m.data
  }

  /** The matrix with other weights. */
  function With(m: Matrix, data: seq<real>): (r: Matrix)
    requires m.Valid() && |data| == |m.data|
    ensures r.Valid() && r.Npix() == m.Npix()
  {
    m.(data := data)
  }

  /** limit * n / 2: what n rounded entries can be off by, in pixels of at most limit. */
  function Half(limit: real, n: nat): real {
    if n == 0 then 0.0 else Half(limit, n - 1) + limit / 2.0
  }

  /** n * r */
  function Times(n: nat, r: real): real {
    if n == 0 then 0.0 else Times(n - 1, r) + r
  }

  predicate IsTimes(total: real, v: real, a: real) {
    total == v * a
  }

  predicate Near(a: real, b: real, bound: real) {
    -bound <= a - b <= bound
  }

  /** The weights of a column in a bin. */
  function Part(m: Matrix, p: nat, b: nat): real
    requires m.Valid() && p < m.Npix()
  {
    assert m.indptr[p + 1] <= m.indptr[m.Npix()];
    PartReal(m.data, m.indices, b, m.indptr[p], m.indptr[p + 1])
  }

  /** Each column adds to bin b as much in both matrices, give or take its rounding. */
  ghost predicate ColumnsNear(mi: Matrix, mw: Matrix, x: seq<real>, b: nat, limit: real)
    requires mi.Valid() && mw.Valid() && mi.Npix() == mw.Npix()
  {
    forall p :: 0 <= p < mi.Npix() ==> ColumnNearBy(mi, mw, p, x, b, limit)
  }

  predicate ColumnNearBy(mi: Matrix, mw: Matrix, p: nat, x: seq<real>, b: nat, limit: real)
    requires mi.Valid() && mw.Valid() && p < mi.Npix() == mw.Npix()
  {
    Near(Powder(Column(mi, p), x, b), Powder(Column(mw, p), x, b), Half(limit, mi.Count(p)))
  }

  predicate AllUpTo(x: seq<real>, limit: real) {
    forall p :: 0 <= p < |x| ==> Near(x[p], 0.0, limit)
  }

  /** Pixels between -limit and limit. */
  predicate UpTo(x: seq<int>, limit: nat) {
    forall p :: 0 <= p < |x| ==> -(limit as int) <= x[p] <= limit
  }
}
