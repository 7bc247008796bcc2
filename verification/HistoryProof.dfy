/** An object is what its calls make of it. */
module HistoryProof {
  import Columns
  import opened Dtypes
  import opened History
  import opened Layouts
  import LayoutsProof
  import opened Numpy
  import opened Pipeline
  import PipelineProof
  import opened Session
  import opened SessionProof

  // ---- a new object -------------------------------------------------------

  lemma OnlyZstd(v: nat)
    requires v < |Names(DECODE)|
    ensures Names(DECODE)[v] == "zstd" <==> v == ZSTD
  {
    if v < 4 { PipelineProof.NamesDistinct(DECODE, v, 4); } else if v > 4 { PipelineProof.NamesDistinct(DECODE, 4, v); }
  }

  lemma KnownCodec(u: Setup, given: Option<Codec>, past: Past)
    requires Parse(u.spec).Ok? && past.first.None?
    ensures var known := if given.Some? then given else CodecOfSpec(u.spec);
            && (known.None? <==> CodecOpen(u, given))
            && (if known.Some? then known.value else Lz4) == CodecAfter(u, given, past)
  {
    OnlyZstd(Chosen(u, DECODE));
  }

  lemma AutoIs(u: Setup, bytes: nat)
    ensures u.Auto(bytes / ItemSize(u.dtype)) == AutoFor(u, bytes)
  {
  }

  /** A value that resolve gave a step below the dot. */
  lemma ResolvedStep(u: Setup, codec: Codec, vals: Values, step: nat)
    requires Resolve(u.cpu, u.For(codec), u.spec) == Ok(vals) && step < DOT
    ensures Parse(u.spec).Ok? && StepAfter(u, codec, step, vals[step])
  {
    PipelineProof.ResolveSatisfies(u.cpu, u.For(codec), u.spec);
    PipelineProof.ResolvedAuto(u.cpu, u.For(codec), u.spec);
    assert Looped(u.For(codec), step);
  }

  lemma ResolvedPipeline(u: Setup, given: Option<Codec>, codec: Codec, past: Past, vals: Values)
    requires Resolve(u.cpu, u.For(codec), u.spec) == Ok(vals) && codec == CodecAfter(u, given, past) && past.first.None?
    ensures PipelineAfter(u, given, past, vals)
  {
    ResolvedStep(u, codec, vals, DECODE);
    ResolvedStep(u, codec, vals, MASK);
    ResolvedStep(u, codec, vals, UNTRANSPOSE);
    ResolvedStep(u, codec, vals, COLLECT);
    ResolvedStep(u, codec, vals, ROUTE);
  }

  lemma CreateSettles(u: Setup, given: Option<Codec>, past: Past)
    requires u.Valid() && Create(u, given).Fine? && past == Past(None, AutoFor(u, 8192), 0)
    ensures Settles(u, given, past, Create(u, given).value) && DotOfLayout(u, Create(u, given).value)
  {
    var s := Create(u, given).value;
    ResolvedDot(u, s.codec, s.pipeline);
    KnownCodec(u, given, past);
    ResolvedPipeline(u, given, s.codec, past, s.pipeline);
    AutoIs(u, 8192);
    BuiltForItself(u, s.dot, u.DefaultElems(), s.layout);
  }

  /** An object can be made exactly when its pipeline resolves for the codec and the dot of
      it can represent the matrix in blocks of the default size. */
  lemma CreatesExactly(u: Setup, given: Option<Codec>, codec: Codec)
    requires u.Valid() && codec == CodecAfter(u, given, PastOf(u, []))
    ensures Create(u, given).Fine? <==>
              && Resolve(u.cpu, u.For(codec), u.spec).Ok?
              && Representable(DotOf(Resolve(u.cpu, u.For(codec), u.spec).value[DOT]), u.m, 8192 / ItemSize(u.dtype), u.fixed)
  {
    CreateCodec(u, given, codec);
    var r := Resolve(u.cpu, u.For(codec), u.spec);
    if r.Ok? { LayoutsProof.BuildExactly(DotOf(r.value[DOT]), u.m, u.DefaultElems(), u.dtype, u.fixed); }
  }

  lemma CreateCodec(u: Setup, given: Option<Codec>, codec: Codec)
    requires codec == CodecAfter(u, given, PastOf(u, []))
    ensures codec == if given.Some? then given.value else if CodecOfSpec(u.spec).Some? then CodecOfSpec(u.spec).value else Lz4
  {
    if Parse(u.spec).Ok? { KnownCodec(u, given, PastOf(u, [])); }
  }

  // ---- one call -----------------------------------------------------------

  /** Only the decode step depends on the codec. */
  lemma CodecApart(u: Setup, codec: Codec, other: Codec, step: nat, v: nat)
    requires 1 <= step < DOT && StepAfter(u, codec, step, v)
    ensures StepAfter(u, other, step, v)
  {
  }

  lemma CodecNext(u: Setup, given: Option<Codec>, past: Past, call: Call)
    ensures CodecAfter(u, given, Next(u, past, call)) ==
              if CodecOpen(u, given) && past.first.None? && call.Compressed? then if call.zstd then Zstd else Lz4
              else CodecAfter(u, given, past)
  {
  }

  /** The codec of the data; the pipeline changes in its decode step. */
  lemma CodecSet(u: Setup, s: State, call: Call)
    requires u.Valid() && Inv(u, s)
    ensures var t := SettleCodec(u, s, call).0;
            && t.codec == (if s.codecPending && call.Compressed? then if call.zstd then Zstd else Lz4 else s.codec)
            && t.codecPending == (s.codecPending && call.Frames?)
            && t.pipeline == s.pipeline[DECODE := t.pipeline[DECODE]]
            && (t.codec == s.codec ==> t.pipeline == s.pipeline)
            && (t.codec != s.codec ==> Resolve(u.cpu, u.For(t.codec), u.spec) == Ok(t.pipeline))
            && t == s.(codec := t.codec, codecPending := t.codecPending, pipeline := t.pipeline)
  {
    if call.Compressed? && s.codecPending && call.zstd { CodecSettles(u); }
    SameDecode(s.pipeline);
  }

  lemma SameDecode(vals: Values)
    ensures vals[DECODE := vals[DECODE]] == vals
  {
  }

  /** An open codec becomes that of the first chunk, and the decode step with it. */
  lemma CodecSettled(u: Setup, given: Option<Codec>, past: Past, s: State, call: Call)
    requires u.Valid() && Inv(u, s) && Settles(u, given, past, s)
    ensures var t := SettleCodec(u, s, call).0;
            && t.codec == CodecAfter(u, given, Next(u, past, call))
            && (t.codecPending <==> CodecOpen(u, given) && Next(u, past, call).first.None?)
            && StepAfter(u, t.codec, DECODE, t.pipeline[DECODE])
            && t.pipeline == s.pipeline[DECODE := t.pipeline[DECODE]]
            && t == s.(codec := t.codec, codecPending := t.codecPending, pipeline := t.pipeline)
  {
    CodecNext(u, given, past, call);
    CodecSet(u, s, call);
    var t := SettleCodec(u, s, call).0;
    if t.codec != s.codec { ResolvedStep(u, t.codec, t.pipeline, DECODE); }
  }

  lemma MaskSettled(u: Setup, past: Past, s: State, call: Call)
    requires s.pipeline[MASK] == MaskAfter(u, past) && (s.maskPending <==> MaskOpen(u) && past.first.None?)
    ensures var t := SettleMask(u, s, call);
            && t.pipeline[MASK] == MaskAfter(u, Next(u, past, call))
            && (t.maskPending <==> MaskOpen(u) && Next(u, past, call).first.None?)
            && t == s.(maskPending := t.maskPending, pipeline := s.pipeline[MASK := t.pipeline[MASK]])
  {
    assert s.pipeline[MASK := s.pipeline[MASK]] == s.pipeline;
  }

  lemma BothSettled(u: Setup, given: Option<Codec>, past: Past, s: State, call: Call)
    requires u.Valid() && Inv(u, s) && Settles(u, given, past, s)
    ensures var t, next := Settled(u, s, call), Next(u, past, call);
            && t.codec == CodecAfter(u, given, next)
            && (t.codecPending <==> CodecOpen(u, given) && next.first.None?)
            && (t.maskPending <==> MaskOpen(u) && next.first.None?)
            && PipelineAfter(u, given, next, t.pipeline)
            && t.dot == s.dot && t.layout == s.layout && t.capacity == s.capacity
  {
    CodecSettled(u, given, past, s, call);
    MaskSettled(u, past, SettleCodec(u, s, call).0, call);
    var codec := CodecAfter(u, given, Next(u, past, call));
    CodecApart(u, s.codec, codec, UNTRANSPOSE, s.pipeline[UNTRANSPOSE]);
    CodecApart(u, s.codec, codec, COLLECT, s.pipeline[COLLECT]);
    CodecApart(u, s.codec, codec, ROUTE, s.pipeline[ROUTE]);
  }

  lemma AutoIsChosen(u: Setup)
    requires Parse(u.spec).Ok?
    ensures u.DotIsAuto() <==> Chosen(u, DOT) == 0
  {
  }

  /** Following a block size moves the dot alone, and only an automatic one. */
  lemma FollowSettles(u: Setup, s: State, be: nat)
    requires u.Valid() && Inv(u, s) && (s.codecPending ==> be == u.DefaultElems()) && Parse(u.spec).Ok? && DotOfLayout(u, s)
    ensures var t := FollowBlock(u, s, be).0;
            && t.dot == (if Chosen(u, DOT) == 0 && IsBlockDot(s.dot) && be >= 1 then u.Auto(be) else s.dot)
            && t.pipeline == s.pipeline[DOT := DotNumber(t.dot)]
            && t == s.(dot := t.dot, pipeline := t.pipeline, layout := t.layout)
            && DotOfLayout(u, t)
  {
    BlockLayout(u, s);
    AutoIsChosen(u);
    SameDot(s.pipeline, s.dot);
    if Follows(s, be) {
      if Refuses(u, s, be) {
        FollowStays(u, s, be);
      } else {
        FollowMoves(u, s, be);
        BuiltForItself(u, Wanted(u, s, be), be, Layouts.Build(Wanted(u, s, be), u.m, be, u.dtype, u.fixed).value);
      }
    }
  }

  lemma ReserveSettles(u: Setup, s: State, nframes: nat, blocksize: nat)
    requires u.Valid() && Inv(u, s) && Parse(u.spec).Ok? && DotOfLayout(u, s)
    requires s.codecPending ==> blocksize == DEFAULT_BLOCK_BYTES
    ensures Moved(u, s, nframes, blocksize, EnsureCapacity(u, s, nframes, blocksize).0)
    ensures DotOfLayout(u, EnsureCapacity(u, s, nframes, blocksize).0)
  {
    var grown := s.(capacity := Larger(s.capacity, nframes));
    BuffersApart(u, s, grown);
    FollowSettles(u, grown, Elems(u, blocksize));
    ReserveIs(u, s, nframes, blocksize);
  }

  /** Apart from its buffers the state is that of following the block size. */
  lemma ReserveIs(u: Setup, s: State, nframes: nat, blocksize: nat)
    ensures var e := EnsureCapacity(u, s, nframes, blocksize).0;
            FollowBlock(u, s.(capacity := Larger(s.capacity, nframes)), Elems(u, blocksize)).0.(powder := e.powder, workspace := e.workspace) == e
  {
  }

  lemma PipelineMoves(u: Setup, given: Option<Codec>, past: Past, vals: Values, dot: nat)
    requires PipelineAfter(u, given, past, vals)
    ensures PipelineAfter(u, given, past, vals[DOT := dot])
  {
  }

  lemma DotMoves(u: Setup, past: Past, call: Call, was: Dot, dot: Dot)
    requires DotAfter(u, past, was)
    requires dot == if Chosen(u, DOT) == 0 && IsBlockDot(was) && BlockBytes(call) / ItemSize(u.dtype) >= 1
                    then u.Auto(BlockBytes(call) / ItemSize(u.dtype)) else was
    ensures DotAfter(u, Next(u, past, call), dot)
  {
    AutoIs(u, BlockBytes(call));
  }

  lemma StepIsReserve(u: Setup, s: State, call: Call)
    requires u.Valid() && Inv(u, s)
    ensures Step(u, s, call).0 == EnsureCapacity(u, Settled(u, s, call), call.nframes, BlockBytes(call)).0
  {
    SettledKeeps(u, s, call);
  }

  lemma StepMoves(u: Setup, s: State, call: Call)
    requires u.Valid() && Inv(u, s) && Parse(u.spec).Ok? && DotOfLayout(u, s)
    ensures Moved(u, Settled(u, s, call), call.nframes, BlockBytes(call), Step(u, s, call).0) && DotOfLayout(u, Step(u, s, call).0)
  {
    SettledKeeps(u, s, call);
    StepIsReserve(u, s, call);
    ReserveSettles(u, Settled(u, s, call), call.nframes, BlockBytes(call));
  }

  /** Every call keeps the object what its history says it is. */
  lemma StepSettles(u: Setup, given: Option<Codec>, past: Past, s: State, call: Call)
    requires u.Valid() && Inv(u, s) && Settles(u, given, past, s) && Parse(u.spec).Ok? && DotOfLayout(u, s)
    ensures Settles(u, given, Next(u, past, call), Step(u, s, call).0) && DotOfLayout(u, Step(u, s, call).0)
  {
    var t, e := Settled(u, s, call), Step(u, s, call).0;
    BothSettled(u, given, past, s, call);
    StepMoves(u, s, call);
    PipelineMoves(u, given, Next(u, past, call), t.pipeline, DotNumber(e.dot));
    DotMoves(u, past, call, s.dot, e.dot);
  }

  lemma StepTold(u: Setup, given: Option<Codec>, past: Past, s: State, call: Call)
    requires u.Valid() && Told(u, given, past, s)
    ensures Told(u, given, Next(u, past, call), Step(u, s, call).0)
  {
    StepKeeps(u, s, call);
    StepSettles(u, given, past, s, call);
  }

  // ---- every sequence of calls --------------------------------------------

  lemma {:induction false} CallsTold(u: Setup, given: Option<Codec>, s: State, calls: seq<Call>)
    requires u.Valid() && Told(u, given, PastOf(u, []), s)
    ensures Told(u, given, PastOf(u, calls), After(u, s, calls))
  {
    if calls != [] {
      var n := |calls| - 1;
      CallsTold(u, given, s, calls[..n]);
      StepTold(u, given, PastOf(u, calls[..n]), After(u, s, calls[..n]), calls[n]);
    }
  }

  lemma CreatedParses(u: Setup, given: Option<Codec>)
    requires Create(u, given).Fine?
    ensures Parse(u.spec).Ok?
  {
  }

  /** Of an object that could be made, after any calls: what it has settled. */
  lemma AfterSettles(u: Setup, given: Option<Codec>, calls: seq<Call>)
    requires u.Valid() && Create(u, given).Fine?
    ensures Told(u, given, PastOf(u, calls), After(u, Create(u, given).value, calls))
  {
    CreateInv(u, given);
    CreatedParses(u, given);
    CreateSettles(u, given, PastOf(u, []));
    CallsTold(u, given, Create(u, given).value, calls);
  }

  lemma ToldSends(u: Setup, given: Option<Codec>, past: Past, s: State, call: Call)
    requires u.Valid() && Told(u, given, past, s) && Step(u, s, call).1.Fine?
    ensures SendsFor(u, given, Next(u, past, call), call, Step(u, s, call).1.value)
  {
    StepTold(u, given, past, s, call);
    StepSends(u, s, call);
    BlockLayout(u, Step(u, s, call).0);
  }

  /** Of an object that could be made, after any calls: the codec, the pipeline and the dot
      of what the next call sends are those of the user's choices and of all the calls. */
  lemma EverySent(u: Setup, given: Option<Codec>, calls: seq<Call>, call: Call)
    requires u.Valid() && Create(u, given).Fine?
    requires Step(u, After(u, Create(u, given).value, calls), call).1.Fine?
    ensures SendsFor(u, given, PastOf(u, calls + [call]), call, Step(u, After(u, Create(u, given).value, calls), call).1.value)
  {
    AfterSettles(u, given, calls);
    ToldSends(u, given, PastOf(u, calls), After(u, Create(u, given).value, calls), call);
    assert (calls + [call])[..|calls|] == calls;
  }

  /** The past holds the first compressed call. */
  lemma {:induction false} PastFirst(u: Setup, calls: seq<Call>)
    ensures PastOf(u, calls).first.None? <==> forall k :: 0 <= k < |calls| ==> calls[k].Frames?
    ensures forall k: nat :: FirstChunk(calls, k) ==> PastOf(u, calls).first == Some(calls[k])
  {
    if calls != [] {
      var n := |calls| - 1;
      PastFirst(u, calls[..n]);
      forall k: nat | FirstChunk(calls, k) ensures PastOf(u, calls).first == Some(calls[k]) {
        if k < n { assert FirstChunk(calls[..n], k); }
      }
    }
  }

  /** And the most frames of a call. */
  lemma {:induction false} PastMost(u: Setup, calls: seq<Call>)
    ensures forall k :: 0 <= k < |calls| ==> calls[k].nframes <= PastOf(u, calls).frames
    ensures PastOf(u, calls).frames == 0 || exists k :: 0 <= k < |calls| && calls[k].nframes == PastOf(u, calls).frames
  {
    if calls != [] {
      var n := |calls| - 1;
      var before, most := calls[..n], PastOf(u, calls[..n]).frames;
      PastMost(u, before);
      assert PastOf(u, calls).frames == if most < calls[n].nframes then calls[n].nframes else most;
      if most != 0 {
        var k :| 0 <= k < n && before[k].nframes == most;
        assert calls[k].nframes == most;
      }
    }
  }

  /** An object whose codec was left open decodes as its first chunk says, whatever calls
      came before and come after. */
  lemma FirstChunkDecides(u: Setup, calls: seq<Call>, k: nat)
    requires u.Valid() && Create(u, None).Fine? && Chosen(u, DECODE) == 0 && FirstChunk(calls, k)
    ensures After(u, Create(u, None).value, calls).codec == if calls[k].zstd then Zstd else Lz4
  {
    AfterSettles(u, None, calls);
    PastFirst(u, calls);
  }

  // ---- fixed-point matrices -----------------------------------------------

  /** What a fixed-point matrix takes besides a dict, and that it changes no choice of the
      user's. */
  lemma OwnDotYields(spec: Spec, fixed: Option<Fixed>)
    ensures WithDot(spec, fixed).None? <==> fixed.Some? && !spec.NoSpec? && !spec.Dict?
    ensures WithDot(spec, fixed).Some? ==>
              && (forall s :: 0 <= s < DOT ==> PipelineProof.Given(WithDot(spec, fixed).value, s) == PipelineProof.Given(spec, s))
              && (fixed.None? || (spec.Dict? && "dot" in spec.values) ==>
                    PipelineProof.Given(WithDot(spec, fixed).value, DOT) == PipelineProof.Given(spec, DOT))
  {
    PipelineProof.StepNames();
    assert STEPS[DOT] == "dot";
    forall s | 0 <= s < DOT ensures STEPS[s] != "dot" { assert |STEPS[s]| != |"dot"|; }
  }

  lemma OnlyDot(s: nat)
    requires s < NSTEPS
    ensures STEPS[s] == "dot" <==> s == DOT
  {
    PipelineProof.StepNames();
    if s != DOT { assert |STEPS[s]| != |"dot"|; }
  }

  lemma OwnDotGiven(value: Value, s: nat)
    requires s < NSTEPS
    ensures PipelineProof.Given(Dict(map["dot" := value]), s) == if s == DOT then value else Absent
  {
    OnlyDot(s);
  }

  lemma OwnDotRead(name: string, n: nat, s: nat)
    requires n < |Names(DOT)| && Names(DOT)[n] == name && s < NSTEPS
    ensures ParseValue(s, PipelineProof.Given(Dict(map["dot" := Name(name)]), s)) == Ok(if s == DOT then n else 0)
  {
    OwnDotGiven(Name(name), s);
    PipelineProof.ParseValueExactly(s, PipelineProof.Given(Dict(map["dot" := Name(name)]), s));
  }

  lemma OwnDotParses(name: string, n: nat)
    requires n < |Names(DOT)| && Names(DOT)[n] == name
    ensures Parse(Dict(map["dot" := Name(name)])) == Ok([0, 0, 0, 0, 0, n])
  {
    var spec := Dict(map["dot" := Name(name)]);
    OnlyDot(DOT);
    PipelineProof.ParseExactly(spec);
    forall s | 0 <= s < NSTEPS ensures ParseValue(s, PipelineProof.Given(spec, s)) == Ok(if s == DOT then n else 0) {
      OwnDotRead(name, n, s);
    }
    assert Parse(spec).value == [0, 0, 0, 0, 0, n];
  }

  lemma OwnDotFills(cpu: Cpu, o: Setting, n: nat)
    requires n >= 1
    ensures AllFilled(cpu, o, [0, 0, 0, 0, 0, n]) == AllFilled(cpu, o, [0, 0, 0, 0, 0, 0])[DOT := n]
  {
  }

  lemma DotDecides(cpu: Cpu, o: Setting, vals: Values, n: nat)
    requires Satisfies(cpu, o, vals) && o.matrix
    ensures Satisfies(cpu, o, vals[DOT := n]) <==> DotError(cpu, o, n).None?
  {
    if DotError(cpu, o, n).None? { SatisfiesDot(cpu, o, vals, n); }
  }

  lemma OwnDotResolves(u: Setup, codec: Codec, n: nat)
    requires u.Valid() && n >= 1 && Parse(u.spec) == Ok([0, 0, 0, 0, 0, n])
    ensures Resolve(u.cpu, u.For(codec), u.spec).Ok? <==> DotError(u.cpu, u.For(codec), n).None?
    ensures Resolve(u.cpu, u.For(codec), u.spec).Ok? ==> Resolve(u.cpu, u.For(codec), u.spec).value[DOT] == n
  {
    AutoTaken(u, codec, u.DefaultElems());
    OwnDotChecks(u.cpu, u.For(codec), n);
  }

  lemma OwnDotChecks(cpu: Cpu, o: Setting, n: nat)
    requires PipelineProof.DotFits(cpu, o) && HasFallbacks(cpu) && o.matrix && n >= 1
    ensures Checked(cpu, o, [0, 0, 0, 0, 0, n]).Ok? <==> DotError(cpu, o, n).None?
    ensures Checked(cpu, o, [0, 0, 0, 0, 0, n]).Ok? ==> Checked(cpu, o, [0, 0, 0, 0, 0, n]).value[DOT] == n
  {
    PipelineProof.AutomaticResolves(cpu, o);
    PipelineProof.ResolveSatisfies(cpu, o, NoSpec);
    PipelineProof.CheckedExactly(cpu, o, [0, 0, 0, 0, 0, 0]);
    PipelineProof.CheckedExactly(cpu, o, [0, 0, 0, 0, 0, n]);
    OwnDotFills(cpu, o, n);
    DotDecides(cpu, o, AllFilled(cpu, o, [0, 0, 0, 0, 0, 0]), n);
  }

  lemma OwnDotTaken(cpu: Cpu, o: Setting, dot: Dot)
    requires Registry(cpu) && (dot == CscInt || dot == CscRunInt16)
    ensures DotError(cpu, o, DotNumber(dot)).None? <==> IsInteger(o.dtype)
  {
    assert Usable(cpu, DOT, DotNumber(dot));
  }

  /** With nothing chosen by the user an object can be made of a fixed-point matrix exactly
      for integer pixels, and, with 16-bit weights, of consecutive bins; its powder is the
      int64 sums of that matrix's scale. */
  lemma FixedCreates(u: Setup, given: Option<Codec>)
    requires u.Valid() && u.fixed.Some? && (u.fixed.value.wbits == 16 || u.fixed.value.wbits == 32)
    requires Some(u.spec) == WithDot(NoSpec, u.fixed)
    ensures Create(u, given).Fine? <==> IsInteger(u.dtype) && (u.fixed.value.wbits == 16 ==> Columns.IsRuns(u.m))
    ensures Create(u, given).Fine? ==>
              var l := Create(u, given).value.layout; l.powder == Int64 && l.scale == Some(u.fixed.value.scale)
  {
    var dot := if u.fixed.value.wbits == 16 then CscRunInt16 else CscInt;
    var codec := CodecAfter(u, given, PastOf(u, []));
    OwnResolved(u, codec, dot);
    CreatesExactly(u, given, codec);
    OwnRepresents(u.m, dot, 8192 / ItemSize(u.dtype), u.fixed);
    if Create(u, given).Fine? { CreatedMeasures(u, given); }
  }

  lemma OwnResolved(u: Setup, codec: Codec, dot: Dot)
    requires u.Valid() && u.fixed.Some? && Some(u.spec) == WithDot(NoSpec, u.fixed)
    requires dot == if u.fixed.value.wbits == 16 then CscRunInt16 else CscInt
    ensures var r := Resolve(u.cpu, u.For(codec), u.spec);
            (r.Ok? <==> IsInteger(u.dtype)) && (r.Ok? ==> DotOf(r.value[DOT]) == dot)
  {
    OwnSpecParses(u.spec, u.fixed, dot);
    OwnDotResolves(u, codec, DotNumber(dot));
    OwnDotTaken(u.cpu, u.For(codec), dot);
    DotBack(dot);
  }

  lemma OwnSpecParses(spec: Spec, fixed: Option<Fixed>, dot: Dot)
    requires fixed.Some? && Some(spec) == WithDot(NoSpec, fixed)
    requires dot == if fixed.value.wbits == 16 then CscRunInt16 else CscInt
    ensures Parse(spec) == Ok([0, 0, 0, 0, 0, DotNumber(dot)])
  {
    OwnSpecNames(spec, fixed, dot);
    OwnDotParsed(spec, dot);
  }

  lemma OwnSpecNames(spec: Spec, fixed: Option<Fixed>, dot: Dot)
    requires fixed.Some? && Some(spec) == WithDot(NoSpec, fixed)
    requires dot == if fixed.value.wbits == 16 then CscRunInt16 else CscInt
    ensures spec == Dict(map["dot" := Name(PipelineProof.DotName(dot))])
  {
  }

  lemma OwnDotParsed(spec: Spec, dot: Dot)
    requires spec == Dict(map["dot" := Name(PipelineProof.DotName(dot))])
    ensures Parse(spec) == Ok([0, 0, 0, 0, 0, DotNumber(dot)])
  {
    PipelineProof.NumbersNameDots(dot);
    OwnDotParses(PipelineProof.DotName(dot), DotNumber(dot));
  }

  lemma OwnRepresents(m: ValidMatrix, dot: Dot, be: nat, fixed: Option<Fixed>)
    requires fixed.Some? && (fixed.value.wbits == 16 || fixed.value.wbits == 32)
    requires dot == if fixed.value.wbits == 16 then CscRunInt16 else CscInt
    ensures Representable(dot, m, be, fixed) <==> (fixed.value.wbits == 16 ==> Columns.IsRuns(m))
  {
  }

  lemma CreatedMeasures(u: Setup, given: Option<Codec>)
    requires Create(u, given).Fine? && u.fixed.Some?
    ensures var l := Create(u, given).value.layout; l.powder == Int64 && l.scale == Some(u.fixed.value.scale)
  {
    var s := Create(u, given).value;
    LayoutsProof.BuildExactly(s.dot, u.m, u.DefaultElems(), u.dtype, u.fixed);
    LayoutsProof.BuildMeasures(s.dot, u.m, u.DefaultElems(), u.dtype, u.fixed, s.layout);
  }
}
