/**
  What a decoding object has settled after any sequence of calls, told from the user's
  choices and the calls alone: the codec, every step of the pipeline, the dot and the
  room for frames.
*/
module History {
  import opened Dtypes
  import opened Layouts
  import opened Numpy
  import opened Pipeline
  import opened Session

  /** What calls leave behind: the first one with compressed chunks, the automatic dot,
      and the most frames of one. */
  datatype Past = Past(first: Option<Call>, auto: Dot, frames: nat)

  function PastOf(u: Setup, calls: seq<Call>): Past {
    if calls == [] then Past(None, AutoFor(u, 8192), 0) else Next(u, PastOf(u, calls[..|calls| - 1]), calls[|calls| - 1])
  }

  /** One more call.  An automatic dot is chosen for the default block size, and again for
      every block size of at least one pixel for as long as it depends on it. */
  function Next(u: Setup, past: Past, call: Call): Past {
    Past(if past.first.None? && call.Compressed? then Some(call) else past.first,
         if IsBlockDot(past.auto) && BlockBytes(call) / ItemSize(u.dtype) >= 1 then AutoFor(u, BlockBytes(call)) else past.auto,
         if past.frames < call.nframes then call.nframes else past.frames)
  }

  /** The call k is the first with compressed chunks. */
  ghost predicate FirstChunk(calls: seq<Call>, k: nat) {
    k < |calls| && calls[k].Compressed? && forall j :: 0 <= j < k ==> calls[j].Frames?
  }

  /** The user's value of a step, 0 when it is left automatic. */
  function Chosen(u: Setup, step: nat): (v: nat)
    requires step < NSTEPS
    ensures v < |Names(step)|
  {
    if Parse(u.spec).Ok? then
      ParsedValues(u.spec);
      Parse(u.spec).value[step]
    else 0
  }

  /** The codec: the one the object was given, else that of the decode step it was given,
      else that of the first chunk, and lz4 until there is one. */
  function CodecAfter(u: Setup, given: Option<Codec>, past: Past): Codec {
    if given.Some? then given.value
    else if Chosen(u, DECODE) != 0 then if Names(DECODE)[Chosen(u, DECODE)] == "zstd" then Zstd else Lz4
    else if past.first.Some? && past.first.value.Compressed? && past.first.value.zstd then Zstd
    else Lz4
  }

  predicate CodecOpen(u: Setup, given: Option<Codec>) {
    given.None? && Chosen(u, DECODE) == 0
  }

  /** An automatic mask step that the first chunk decides. */
  predicate MaskOpen(u: Setup) {
    Chosen(u, MASK) == 0 && u.dtype == U16 && u.masked > 0
  }

  /** Masking in the bit planes wins: the blocks fit it, and no more masked pixels hold
      something else than hold 65535. */
  predicate PlanesWin(u: Setup, call: Call) {
    && call.Compressed?
    && BlockBytes(call) / 2 <= 8192 && BlockBytes(call) / 2 % 64 == 0
    && call.trial.Some? && u.masked - call.trial.value <= call.trial.value
  }

  function MaskAfter(u: Setup, past: Past): nat {
    if Chosen(u, MASK) != 0 then Chosen(u, MASK)
    else if u.masked == 0 then MASK_NONE
    else if u.dtype == U16 && past.first.Some? && PlanesWin(u, past.first.value) then MASK_PLANES
    else MASK_PIXEL
  }

  /** The automatic dot for blocks of so many bytes. */
  function AutoFor(u: Setup, bytes: nat): Dot {
    AutoDot(Analyse(u.m), (DOT, 3) in u.cpu.usable, Some(bytes / ItemSize(u.dtype)), IsInteger(u.dtype) && ItemSize(u.dtype) <= 4)
  }

  predicate DotAfter(u: Setup, past: Past, dot: Dot) {
    if Chosen(u, DOT) != 0 then DotNumber(dot) == Chosen(u, DOT) else dot == past.auto
  }

  /** The value of a step: the user's, or the automatic one for the codec. */
  ghost predicate StepAfter(u: Setup, codec: Codec, step: nat, v: nat)
    requires step < DOT
  {
    if Chosen(u, step) != 0 then v == Chosen(u, step)
    else IsAuto(u.cpu, Setting(u.dtype, codec, u.masked == 0, true, CscDot), step, v)
  }

  /** The mask step and the back half of a pipeline. */
  ghost predicate BackHalf(u: Setup, codec: Codec, past: Past, vals: Values) {
    && vals[MASK] == MaskAfter(u, past)
    && StepAfter(u, codec, UNTRANSPOSE, vals[UNTRANSPOSE])
    && StepAfter(u, codec, COLLECT, vals[COLLECT])
    && StepAfter(u, codec, ROUTE, vals[ROUTE])
  }

  /** The pipeline of an object after the calls. */
  ghost predicate PipelineAfter(u: Setup, given: Option<Codec>, past: Past, vals: Values) {
    BackHalf(u, CodecAfter(u, given, past), past, vals) && StepAfter(u, CodecAfter(u, given, past), DECODE, vals[DECODE])
  }

  /** An object after the calls. */
  ghost predicate Settles(u: Setup, given: Option<Codec>, past: Past, s: State) {
    && s.codec == CodecAfter(u, given, past)
    && (s.codecPending <==> CodecOpen(u, given) && past.first.None?)
    && (s.maskPending <==> MaskOpen(u) && past.first.None?)
    && PipelineAfter(u, given, past, s.pipeline)
    && DotAfter(u, past, s.dot)
    && s.capacity == past.frames
  }

  /** A block-dependent automatic dot is the one for the block size of its layout. */
  ghost predicate DotOfLayout(u: Setup, s: State) {
    Chosen(u, DOT) == 0 && s.layout.blockElems.Some? ==> s.dot == u.Auto(s.layout.blockElems.value)
  }

  /** What making room for a call changes. */
  ghost predicate Moved(u: Setup, s: State, nframes: nat, blocksize: nat, t: State) {
    && t.dot == (if Chosen(u, DOT) == 0 && IsBlockDot(s.dot) && blocksize / ItemSize(u.dtype) >= 1
                 then u.Auto(blocksize / ItemSize(u.dtype)) else s.dot)
    && t.pipeline == s.pipeline[DOT := DotNumber(t.dot)]
    && t.codec == s.codec && t.codecPending == s.codecPending && t.maskPending == s.maskPending
    && t.capacity == Larger(s.capacity, nframes)
  }

  /** The invariant with the history. */
  ghost predicate Told(u: Setup, given: Option<Codec>, past: Past, s: State) {
    Inv(u, s) && Settles(u, given, past, s) && Parse(u.spec).Ok? && DotOfLayout(u, s)
  }

  /** What a call sends, it being the last of the past: the decode step is that of
      uncompressed pixels, or the one for the codec, zstd exactly for zstd; the other steps
      are settled by all the calls. */
  ghost predicate SendsFor(u: Setup, given: Option<Codec>, past: Past, call: Call, sent: Sent) {
    var codec := CodecAfter(u, given, past);
    && BackHalf(u, codec, past, sent.pipe)
    && (call.Compressed? ==> StepAfter(u, codec, DECODE, sent.pipe[DECODE]) && (sent.pipe[DECODE] == ZSTD <==> codec == Zstd))
    && (call.Frames? ==> sent.pipe[DECODE] == PIXELS)
    && DotAfter(u, past, sent.layout.dot)
    && sent.rows == sent.powder.0 == past.frames
  }
}
