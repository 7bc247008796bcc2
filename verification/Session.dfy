/**
  The state of one decoding object with a matrix (`chunk2sparseCSC`) over any sequence
  of calls: what the first chunk settles, how the layout and the automatic dot follow
  the block size, and the buffers that only grow.
*/
module Session {
  import BlockCsr
  import opened Csc
  import opened Dtypes
  import opened Layouts
  import opened Numpy
  import opened Pipeline

  const DEFAULT_BLOCK_BYTES: nat := 8192
  /** BSLZ4_MASKPLANE_MAX_ELEMS */
  const PLANES_MAX_ELEMS: nat := 8192

  type ValidMatrix = m: Matrix | m.Valid() witness Matrix([], [], [0], 0)

  /** What an object is made with and never changes; masked counts the masked pixels. */
  datatype Setup = Setup(m: ValidMatrix, fixed: Option<Fixed>, dtype: Dtype, cpu: Cpu, spec: Spec, masked: nat)
  {
    predicate AllValid() {
      masked == 0
    }

    ghost predicate Valid() {
      Registry(cpu)
    }

    function Info(): Info
    {
      Analyse(m)
    }

    function IntPixels(): bool {
      IsInteger(dtype) && ItemSize(dtype) <= 4
    }

    predicate Avx2() {
      Usable(cpu, DOT, DotNumber(PaddedAvx2))
    }

    function DefaultElems(): nat {
      DEFAULT_BLOCK_BYTES / ItemSize(dtype)
    }

    function Auto(be: nat): Dot
    {
      AutoDot(Info(), Avx2(), Some(be), IntPixels())
    }

    /** The object as resolve sees it, with the codec it has. */
    function For(codec: Codec): Setting
    {
      Setting(dtype, codec, AllValid(), true, Auto(DefaultElems()))
    }

    predicate DotIsAuto() {
      Parse(spec).Ok? && Parse(spec).value[DOT] == 0
    }
  }

  /** A value for each of the six steps. */
  type Values = p: seq<nat> | |p| == NSTEPS witness [0, 0, 0, 0, 0, 0]

  /** powder is the shape and type of the powder buffer; capacity counts frames. */
  datatype State = State(
    pipeline: Values, dot: Dot, layout: Layout, codec: Codec, codecPending: bool, maskPending: bool,
    capacity: nat, powder: Option<(nat, nat, PowderType)>, workspace: nat)

  /** Pixels in a block of so many bytes. */
  function Elems(u: Setup, blocksize: nat): nat {
    blocksize / ItemSize(u.dtype)
  }

  datatype Failure = Pipe(error: Error) | Build(dot: Dot, reason: Reason)

  datatype Reply<+T> = Fine(value: T) | Raised(failure: Failure)

  function DotOf(n: nat): (d: Dot)
    ensures 1 <= n < |Names(DOT)| ==> DotNumber(d) == n
  {
    match n
    case 2 => PaddedDot
    case 3 => PaddedAvx2
    case 4 => CscRun
    case 5 => CscNosplit
    case 6 => BsbCsr
    case 7 => BsbCsrNosplit
    case 8 => CscPermute
    case 9 => CscInt
    case 10 => CscRunInt
    case 11 => CscRunInt16
    case 12 => CscNosplitInt
    case _ => CscDot
  }

  // ---- making an object ---------------------------------------------------

  /** _codec_from_pipeline: a named decode step fixes the codec, automatic leaves it open. */
  function CodecOfSpec(spec: Spec): Option<Codec> {
    match Parse(spec)
    case Err(_) => None
    case Ok(vals) => if vals[DECODE] == ZSTD then Some(Zstd) else if vals[DECODE] == 0 then None else Some(Lz4)
  }

  /** A fixed-point matrix takes a dict, and puts its own dot in when the user names none. */
  function WithDot(spec: Spec, fixed: Option<Fixed>): Option<Spec> {
    if fixed.None? then Some(spec)
    else
      var own := Name(if fixed.value.wbits == 16 then "csc-run-int16" else "csc-int");
      match spec
      case NoSpec => Some(Dict(map["dot" := own]))
      case Dict(values) => Some(if "dot" in values then spec else Dict(values["dot" := own]))
      case _ => None
  }

  function Create(u: Setup, codecArg: Option<Codec>): Reply<State> {
    var known := if codecArg.Some? then codecArg else CodecOfSpec(u.spec);
    var codec := if known.Some? then known.value else Lz4;
    match Resolve(u.cpu, u.For(codec), u.spec)
    case Err(e) => Raised(Pipe(e))
    case Ok(pipeline) =>
      var dot := DotOf(pipeline[DOT]);
      match Layouts.Build(dot, u.m, u.DefaultElems(), u.dtype, u.fixed)
      case Refused(e) => Raised(Build(dot, e))
      case Success(layout) =>
        var maskAuto := Parse(u.spec).Ok? && Parse(u.spec).value[MASK] == 0;
        Fine(State(pipeline, dot, layout, codec, known.None?, maskAuto && u.dtype == U16 && !u.AllValid(), 0, None, 0))
  }

  // ---- one call -----------------------------------------------------------

  /** A call: compressed chunks, with what the first one holds, or uncompressed frames.
      Of the first chunk: the block size in its header (none when it is shorter than a
      header), whether its first block is zstd, and how many masked pixels hold 65535
      when it is decoded without a mask (none when that fails). */
  datatype Call =
    | Compressed(nframes: nat, header: Option<nat>, zstd: bool, trial: Option<nat>)
    | Frames(nframes: nat)

  /** _blocksize_bytes, or the default for frames. */
  function BlockBytes(call: Call): nat {
    if call.Compressed? && call.header.Some? && call.header.value != 0 then call.header.value else DEFAULT_BLOCK_BYTES
  }

  /** The first chunk decides the codec; the pipeline is resolved again if it differs. */
  function SettleCodec(u: Setup, s: State, call: Call): (State, Option<Failure>) {
    if !(call.Compressed? && s.codecPending) then (s, None)
    else
      var codec := if call.zstd then Zstd else Lz4;
      if codec == s.codec then (s.(codecPending := false), None)
      else match Resolve(u.cpu, u.For(codec), u.spec)
        case Err(e) => (s.(codecPending := false, codec := codec), Some(Pipe(e)))
        case Ok(pipeline) => (s.(codecPending := false, codec := codec, pipeline := pipeline), None)
  }

  /** The first chunk decides between 'pixel' and 'planes' for an automatic mask. */
  function SettleMask(u: Setup, s: State, call: Call): State {
    if !(call.Compressed? && s.maskPending) then s
    else
      var elems := BlockBytes(call) / 2;
      var planes := elems <= PLANES_MAX_ELEMS && elems % 64 == 0 && call.trial.Some? && 2 * call.trial.value >= u.masked;
      s.(maskPending := false, pipeline := if planes then s.pipeline[MASK := MASK_PLANES] else s.pipeline)
  }

  function Larger(a: nat, b: nat): nat {
    if a < b then b else a
  }

  /** A block-dependent layout of another block size is built again, for the automatic
      dot of the new size. */
  function FollowBlock(u: Setup, s: State, be: nat): (State, Option<Failure>) {
    if s.layout.blockElems.None? || s.layout.blockElems.value == be then (s, None)
    else
      var dot := if u.DotIsAuto() then u.Auto(be) else s.dot;
      var moved := if dot == s.dot then s else s.(dot := dot, pipeline := s.pipeline[DOT := DotNumber(dot)]);
      match Layouts.Build(dot, u.m, be, u.dtype, u.fixed)
      case Refused(e) => (moved, Some(Build(dot, e)))
      case Success(layout) => (moved.(layout := layout), None)
  }

  /** The workspace of a call: raw planes, scratch, pixels, and the pixel list. */
  function Need(u: Setup, blocksize: nat): nat {
    3 * blocksize + Elems(u, blocksize) * (4 + ItemSize(u.dtype))
  }

  function EnsureCapacity(u: Setup, s: State, nframes: nat, blocksize: nat): (State, Option<Failure>) {
    var grown := s.(capacity := Larger(s.capacity, nframes));
    var (moved, failed) := FollowBlock(u, grown, Elems(u, blocksize));
    if failed.Some? then (moved, failed)
    else
      (moved.(powder := Some((moved.capacity, moved.layout.nout, moved.layout.powder)),
              workspace := Larger(moved.workspace, Need(u, blocksize))), None)
  }

  /** What the C entry is given. */
  datatype Sent = Sent(
    pipe: Values, layout: Layout, nframes: nat, blocksize: nat, rows: nat, powder: (nat, nat, PowderType), workspace: nat)

  function PowderOf(s: State): (nat, nat, PowderType) {
    if s.powder.Some? then s.powder.value else (0, 0, Float64)
  }

  /** One call of _run, up to the C entry.  The pixel path copies the pipeline before
      the layout is made to follow the block size. */
  function Step(u: Setup, s: State, call: Call): (State, Reply<Sent>) {
    var (coded, codecFailed) := SettleCodec(u, s, call);
    if codecFailed.Some? then (coded, Raised(codecFailed.value))
    else
      var settled := SettleMask(u, coded, call);
      var (ready, failed) := EnsureCapacity(u, settled, call.nframes, BlockBytes(call));
      if failed.Some? then (ready, Raised(failed.value))
      else
        var pipe := if call.Frames? then settled.pipeline[DECODE := PIXELS] else ready.pipeline;
        (ready, Fine(Sent(pipe, ready.layout, call.nframes, BlockBytes(call), ready.capacity, PowderOf(ready), ready.workspace)))
  }

  /** The state after a sequence of calls; a call that raises leaves its state behind. */
  function After(u: Setup, s: State, calls: seq<Call>): State {
    if calls == [] then s
    else Step(u, After(u, s, calls[..|calls| - 1]), calls[|calls| - 1]).0
  }

  // ---- the invariant ------------------------------------------------------

  /** The block size a layout was built for; any when it does not depend on it. */
  function BuiltFor(s: State): nat {
    if s.layout.blockElems.Some? then s.layout.blockElems.value else 0
  }

  /** The pipeline names the dot, the dot's layout is what build gives, and the values
      satisfy every constraint for the codec of the data. */
  ghost predicate Inv(u: Setup, s: State) {
    && s.pipeline[DOT] == DotNumber(s.dot)
    && Layouts.Build(s.dot, u.m, BuiltFor(s), u.dtype, u.fixed) == Success(s.layout)
    && Satisfies(u.cpu, u.For(s.codec), s.pipeline)
    && (u.DotIsAuto() ==> u.fixed.None? && (IsBlockDot(s.dot) ==> s.dot == u.Auto(u.DefaultElems())))
    && (s.codecPending ==> Unsettled(u, s))
  }

  /** Before the first chunk: an automatic decode step, the pipeline as resolved for lz4
      and the layout of the default block size. */
  ghost predicate Unsettled(u: Setup, s: State) {
    && s.codec == Lz4 && Parse(u.spec).Ok? && Parse(u.spec).value[DECODE] == 0
    && Resolve(u.cpu, u.For(Lz4), u.spec) == Ok(s.pipeline)
    && (s.layout.blockElems.Some? ==> s.layout.blockElems.value == u.DefaultElems())
  }

  /** A block size the current layout does not follow to: zero, or, when the dot is the
      user's, too large for bsb-csr. */
  ghost predicate Refuses(u: Setup, s: State, be: nat) {
    be == 0 || (!u.DotIsAuto() && (s.dot == BsbCsr || s.dot == BsbCsrNosplit) && be > BlockCsr.MAX_BLOCK_ELEMS)
  }

  // ---- what the C side checks ---------------------------------------------

  /** The pointer arrays of a layout have an entry per block and one more. */
  ghost predicate CoversBlocks(l: Layout, npix: nat, be: nat) {
    match l.args
    case PaddedArgs(rows) => be >= 1 && rows.blockElems == be && |rows.rowPtr| >= Blocks(npix, be) + 1
    case BsbArgs(blocks, _, _, _) => be >= 1 && blocks.blockElems == be && |blocks.blkPtr| >= Blocks(npix, be) + 1
    case _ => true
  }

  /** The block size C finds for a call: that of the header, 8192 for none and for frames. */
  predicate InBlocksOf(call: Call, blocksize: nat) {
    match call
    case Frames(_) => blocksize == 8192
    case Compressed(_, None, _, _) => blocksize == 8192
    case Compressed(_, Some(n), _, _) => blocksize == if n == 0 then 8192 else n
  }

  function PowderBytes(t: PowderType): nat {
    match t
    case Int64 => 8
    case Float64 => 8
    case PixelType(d) => ItemSize(d)
  }

  /** bslz4_dot_out_size: packed output has the size of a pixel. */
  function OutBytes(d: Dtype, dot: nat): nat {
    if dot == 8 then ItemSize(d) else 8
  }

  /** No check of bslz4_resolve or of bslz4_driver_run on the pipeline, the layout or
      the workspace of the call can fail, and every output buffer holds the frames of the
      call, in elements of the size C writes. */
  ghost predicate CAccepts(u: Setup, call: Call, sent: Sent) {
    var be := sent.blocksize / ItemSize(u.dtype);
    && sent.nframes == call.nframes && InBlocksOf(call, sent.blocksize)
    && (sent.pipe[DECODE] == PIXELS <==> call.Frames?)
    && sent.pipe[DOT] == DotNumber(sent.layout.dot)
    && CResolve(u.cpu, u.dtype, sent.pipe, Some(sent.layout.entry)) == COk
    && (sent.layout.blockElems.Some? ==> sent.layout.blockElems.value == be)
    && CoversBlocks(sent.layout, u.m.Npix(), be)
    && sent.workspace >= 3 * sent.blocksize + be * (4 + ItemSize(u.dtype))
    && sent.rows >= sent.nframes
    && sent.powder.0 >= sent.nframes && sent.powder.1 == sent.layout.nout && sent.layout.nout == u.m.nbins
    && PowderBytes(sent.powder.2) == OutBytes(u.dtype, sent.pipe[DOT])
  }
}
