/**
  What a matrix is (`analyse`), which dot it gets (`auto_dot`) and the arrays the
  dot reads (`build`).
*/
module Layouts {
  import BlockCsr
  import Columns
  import opened Csc
  import opened Dtypes
  import Padded

  datatype Option<+T> = None | Some(value: T)

  datatype Dot =
    | CscDot | PaddedDot | PaddedAvx2 | CscRun | CscNosplit | BsbCsr | BsbCsrNosplit | CscPermute
    | CscInt | CscRunInt | CscRunInt16 | CscNosplitInt

  /** The C entry a dot is reached through. */
  datatype Entry = CscEntry | PaddedEntry | BsbEntry

  predicate IsIntDot(d: Dot) {
    d == CscInt || d == CscRunInt || d == CscRunInt16
  }

  /** _BLOCK_DOTS: the layouts that depend on the block size. */
  predicate IsBlockDot(d: Dot) {
    d == PaddedDot || d == PaddedAvx2 || d == BsbCsr || d == BsbCsrNosplit
  }

  // ---- analyse and auto_dot -----------------------------------------------

  datatype Info = Info(maxBins: nat, occupancy: real, unitWeights: bool, nosplit: bool, runs: bool)

  function Occupancy(occupied: nat, npix: nat): real {
    if npix == 0 then 0.0 else occupied as real / npix as real
  }

  function Analyse(m: Matrix): Info
    requires m.Valid()
  {
    var maxBins := Padded.MaxOf(Counts(m));
    var unit := forall k :: 0 <= k < |m.data| ==> m.data[k] == 1.0;
    Info(maxBins, Occupancy(|Padded.RowPixels(m, true, m.Npix())|, m.Npix()), unit,
         maxBins <= 1 && unit, Columns.RunStarts(m).Success?)
  }

  function AutoDot(info: Info, paddedAvx2: bool, be: Option<nat>, intPixels: bool): Dot {
    var bsb := be.None? || be.value <= BlockCsr.MAX_BLOCK_ELEMS;
    if info.nosplit then
      if intPixels then CscNosplitInt else if bsb then BsbCsrNosplit else CscNosplit
    else if info.runs && info.maxBins <= 8 then
      if paddedAvx2 then PaddedAvx2 else PaddedDot
    else if info.occupancy < 0.5 && bsb then BsbCsr
    else if info.runs && info.maxBins <= Padded.MAX_WIDTH && (be.None? || be.value <= 8192) then PaddedDot
    else CscDot
  }

  // ---- build --------------------------------------------------------------

  /** A FixedPointMatrix: the integer weights, the bits of their type, and scale. */
  datatype Fixed = Fixed(data: seq<int>, wbits: nat, scale: nat)

  datatype Args =
    | CscArgs(data: seq<real>, indices: seq<nat>, indptr: seq<nat>)
    | IntArgs(weights: seq<int>, indices: seq<nat>, indptr: seq<nat>)
    | PaddedArgs(rows: Padded.Layout)
    | BsbArgs(blocks: BlockCsr.Layout, data: seq<real>, indices: seq<nat>, indptr: seq<nat>)

  datatype PowderType = Float64 | Int64 | PixelType(dtype: Dtype)

  datatype Layout = Layout(
    dot: Dot, entry: Entry, args: Args, nout: nat, powder: PowderType, scale: Option<nat>, blockElems: Option<nat>)

  function FloatLayout(dot: Dot, m: Matrix, indices: seq<nat>): Layout {
    Layout(dot, CscEntry, CscArgs(m.data, indices, m.indptr), m.nbins, Float64, None, None)
  }

  function BuildHistogram(dot: Dot, m: Matrix): Result<Layout>
    requires m.Valid()
  {
    match Columns.NosplitBins(m)
    case Refused(e) => Refused(e)
    case Success(bins) => Success(FloatLayout(dot, m, bins))
  }

  function BuildPermute(m: Matrix, dtype: Dtype): Result<Layout>
    requires m.Valid()
  {
    match Columns.PermuteBins(m)
    case Refused(e) => Refused(e)
    case Success(bins) => Success(FloatLayout(CscPermute, m, bins).(powder := PixelType(dtype)))
  }

  function BuildInt(dot: Dot, m: Matrix, fixed: Option<Fixed>): Result<Layout>
    requires m.Valid()
  {
    if fixed.None? then Refused(NotFixed)
    else if fixed.value.wbits != (if dot == CscRunInt16 then 16 else 32) then Refused(WeightWidth)
    else if dot == CscInt then Success(IntLayout(dot, m, fixed.value, m.indices))
    else match Columns.RunStarts(m)
      case Refused(e) => Refused(e)
      case Success(starts) => Success(IntLayout(dot, m, fixed.value, starts))
  }

  function IntLayout(dot: Dot, m: Matrix, fixed: Fixed, indices: seq<nat>): Layout {
    Layout(dot, CscEntry, IntArgs(fixed.data, indices, m.indptr), m.nbins, Int64, Some(fixed.scale), None)
  }

  /** The checks of _padded_from_csc come before the first division by the block size. */
  function BuildPadded(dot: Dot, m: Matrix, be: nat): Result<Layout>
    requires m.Valid()
  {
    if be == 0 then
      if Padded.Width(m) > Padded.MAX_WIDTH then Refused(TooWide)
      else if Columns.RunStarts(m).Refused? then Refused(NotRuns)
      else Refused(ZeroBlock)
    else match Padded.FromCsc(m, be)
      case Refused(e) => Refused(e)
      case Success(p) => Success(Layout(dot, PaddedEntry, PaddedArgs(p), m.nbins, Float64, None, Some(be)))
  }

  function BuildBsb(dot: Dot, m: Matrix, be: nat): Result<Layout>
    requires m.Valid()
  {
    if be > BlockCsr.MAX_BLOCK_ELEMS then Refused(BlockTooLarge)
    else if be == 0 then Refused(ZeroBlock)
    else
      var q := BlockCsr.FromCsc(m, be);
      if dot == BsbCsr then
        Success(Layout(dot, BsbEntry, BsbArgs(q, m.data, m.indices, m.indptr), m.nbins, Float64, None, Some(be)))
      else match Columns.NosplitBins(m)
        case Refused(e) => Refused(e)
        case Success(bins) =>
          Success(Layout(dot, BsbEntry, BsbArgs(q, seq(|bins|, _ => 1.0), bins, m.indptr), m.nbins, Float64, None, Some(be)))
  }

  function Build(dot: Dot, m: Matrix, be: nat, dtype: Dtype, fixed: Option<Fixed>): Result<Layout>
    requires m.Valid()
  {
    if fixed.Some? && !IsIntDot(dot) then Refused(NotFixed)
    else match dot
      case CscDot => Success(FloatLayout(dot, m, m.indices))
      case CscRun =>
        (match Columns.RunStarts(m)
         case Refused(e) => Refused(e)
         case Success(starts) => Success(FloatLayout(dot, m, starts)))
      case CscNosplit | CscNosplitInt => BuildHistogram(dot, m)
      case CscPermute => BuildPermute(m, dtype)
      case CscInt | CscRunInt | CscRunInt16 => BuildInt(dot, m, fixed)
      case PaddedDot | PaddedAvx2 => BuildPadded(dot, m, be)
      case BsbCsr | BsbCsrNosplit => BuildBsb(dot, m, be)
  }

  // ---- the mark for no bin ------------------------------------------------

  /** The dots that mark an empty pixel with the bin number NO_BIN. */
  predicate MarksEmpty(d: Dot) {
    d == CscNosplit || d == CscNosplitInt || d == BsbCsrNosplit || d == CscPermute
  }

  /** The dot, the C entry, the length and the block size of a layout. */
  predicate NamedFor(l: Layout, dot: Dot, nbins: nat, be: nat) {
    && l.dot == dot && l.nout == nbins
    && l.blockElems == (if IsBlockDot(dot) then Some(be) else None)
    && l.entry == (if dot == PaddedDot || dot == PaddedAvx2 then PaddedEntry else if IsBlockDot(dot) then BsbEntry else CscEntry)
  }

  /** The scale and the type of the powder: the scale of the fixed-point matrix and int64
      sums for the integer dots, the pixel type for a permutation, else float64. */
  predicate MeasuredAs(l: Layout, dot: Dot, dtype: Dtype, fixed: Option<Fixed>) {
    && (if IsIntDot(dot) then fixed.Some? && l.scale == Some(fixed.value.scale) else l.scale == None)
    && l.powder == (if IsIntDot(dot) then Int64 else if dot == CscPermute then PixelType(dtype) else Float64)
  }

  /** At most n bins per pixel. */
  ghost predicate AtMostBins(m: Matrix, n: nat)
    requires m.Valid()
  {
    forall p :: 0 <= p < m.Npix() ==> m.Count(p) <= n
  }

  /** What a matrix, a block size and fixed-point weights have to be for a dot. */
  ghost predicate Representable(dot: Dot, m: Matrix, be: nat, fixed: Option<Fixed>)
    requires m.Valid()
  {
    && (IsIntDot(dot) <==> fixed.Some?)
    && (IsIntDot(dot) ==> fixed.value.wbits == if dot == CscRunInt16 then 16 else 32)
    && (dot == CscRun || dot == CscRunInt || dot == CscRunInt16 ==> Columns.IsRuns(m))
    && (dot == PaddedDot || dot == PaddedAvx2 ==> Columns.IsRuns(m) && AtMostBins(m, 64) && be >= 1)
    && (dot == BsbCsr || dot == BsbCsrNosplit ==> 1 <= be <= 65536)
    && (MarksEmpty(dot) ==> Columns.IsHistogram(m))
    && (dot == CscPermute ==> Columns.Distinct(m))
  }

  /** The pixels that reach a bin. */
  function OccupiedSet(m: Matrix): set<nat>
    requires m.Valid()
  {
    set p: nat | p < m.Npix() && m.Count(p) > 0
  }

  /** The choice of auto_dot, in terms of the matrix. */
  ghost predicate IsChoice(m: Matrix, avx2: bool, be: nat, intPixels: bool, dot: Dot)
    requires m.Valid()
  {
    if Columns.IsHistogram(m) then
      dot == (if intPixels then CscNosplitInt else if be <= 65536 then BsbCsrNosplit else CscNosplit)
    else if Columns.IsRuns(m) && AtMostBins(m, 8) then dot == (if avx2 then PaddedAvx2 else PaddedDot)
    else if 2 * |OccupiedSet(m)| < m.Npix() && be <= 65536 then dot == BsbCsr
    else if Columns.IsRuns(m) && AtMostBins(m, 64) && be <= 8192 then dot == PaddedDot
    else dot == CscDot
  }

  /** What auto_dot needs of a matrix for each dot it names. */
  predicate Suits(info: Info, be: nat, dot: Dot) {
    && !IsIntDot(dot) && dot != CscPermute && dot != CscRun
    && (MarksEmpty(dot) ==> info.nosplit)
    && (dot == PaddedDot || dot == PaddedAvx2 ==> info.runs && info.maxBins <= Padded.MAX_WIDTH)
    && (dot == BsbCsr || dot == BsbCsrNosplit ==> be <= BlockCsr.MAX_BLOCK_ELEMS)
  }

  /** No pixel reaches the bin whose number is the mark; so it is for any matrix of
      fewer than 2^32 bins. */
  ghost predicate Unmarked(m: Matrix) {
    forall k :: 0 <= k < |m.indices| ==> m.indices[k] != Columns.NO_BIN
  }
}
