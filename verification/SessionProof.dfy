/**
  Over every sequence of calls the pipeline given to C names the dot of the layout
  given to C, and the layout fits the block size of the call.
*/
module SessionProof {
  import BlockCsr
  import BlockCsrProof
  import opened Csc
  import opened Dtypes
  import opened Layouts
  import LayoutsProof
  import opened Numpy
  import Padded
  import PaddedProof
  import opened Pipeline
  import PipelineProof
  import opened Session

  lemma DotBack(d: Dot)
    ensures DotOf(DotNumber(d)) == d
  {
  }

  /** What build is given beyond what the dot depends on does not matter. */
  lemma BuiltForItself(u: Setup, dot: Dot, be: nat, l: Layout)
    requires Layouts.Build(dot, u.m, be, u.dtype, u.fixed) == Success(l)
    ensures Layouts.Build(dot, u.m, if l.blockElems.Some? then l.blockElems.value else 0, u.dtype, u.fixed) == Success(l)
    ensures l.blockElems == if IsBlockDot(dot) then Some(be) else None
  {
    LayoutsProof.BuildNames(dot, u.m, be, u.dtype, u.fixed, l);
    LayoutsProof.BuildReadsItsKey(dot, u.m, be, if l.blockElems.Some? then l.blockElems.value else 0, u.dtype, u.dtype, u.fixed);
  }

  lemma ResolvedDot(u: Setup, codec: Codec, vals: seq<nat>)
    requires u.Valid() && Resolve(u.cpu, u.For(codec), u.spec) == Ok(vals)
    ensures Parse(u.spec).Ok? && Satisfies(u.cpu, u.For(codec), vals)
    ensures vals[DOT] == DotNumber(DotOf(vals[DOT]))
    ensures u.DotIsAuto() ==> DotOf(vals[DOT]) == u.Auto(u.DefaultElems())
    ensures vals[DOT] == if u.DotIsAuto() then DotNumber(u.Auto(u.DefaultElems())) else Parse(u.spec).value[DOT]
  {
    PipelineProof.ResolveSatisfies(u.cpu, u.For(codec), u.spec);
    PipelineProof.CheckedExactly(u.cpu, u.For(codec), Parse(u.spec).value);
    DotBack(u.Auto(u.DefaultElems()));
    assert (DOT, vals[DOT]) in u.cpu.usable;
  }

  lemma FixedNamesItsDot(u: Setup, be: nat, l: Layout)
    requires Layouts.Build(u.Auto(be), u.m, be, u.dtype, u.fixed) == Success(l)
    ensures u.fixed.None?
  {
    if u.fixed.Some? {
      LayoutsProof.AutoIsNotForFixed(u.m, u.Avx2(), be, u.IntPixels(), u.dtype, u.fixed.value);
    }
  }

  /** A new object satisfies the invariant. */
  lemma CreateInv(u: Setup, codec: Option<Codec>)
    requires u.Valid() && Create(u, codec).Fine?
    ensures Inv(u, Create(u, codec).value)
  {
    var s := Create(u, codec).value;
    ResolvedDot(u, s.codec, s.pipeline);
    BuiltForItself(u, s.dot, u.DefaultElems(), s.layout);
    if u.DotIsAuto() { FixedNamesItsDot(u, u.DefaultElems(), s.layout); }
  }

  // ---- the first chunk ----------------------------------------------------

  /** Resolving again for the codec of the data never fails: only the decode step
      depends on the codec, and it is automatic. */
  lemma CodecSettles(u: Setup)
    requires u.Valid() && Resolve(u.cpu, u.For(Lz4), u.spec).Ok? && Parse(u.spec).value[DECODE] == 0
    ensures Resolve(u.cpu, u.For(Zstd), u.spec) == Ok(Resolve(u.cpu, u.For(Lz4), u.spec).value[DECODE := ZSTD])
  {
    var vals := Parse(u.spec).value;
    var o, z := u.For(Lz4), u.For(Zstd);
    PipelineProof.CheckedExactly(u.cpu, o, vals);
    PipelineProof.CheckedExactly(u.cpu, z, vals);
    FilledForZstd(u.cpu, o, z, vals);
    SatisfiesZstd(u.cpu, o, z, AllFilled(u.cpu, o, vals));
  }

  lemma FilledForZstd(cpu: Cpu, o: Setting, z: Setting, vals: Values)
    requires o.codec == Lz4 && z == o.(codec := Zstd) && vals[DECODE] == 0
    ensures AllFilled(cpu, z, vals) == AllFilled(cpu, o, vals)[DECODE := ZSTD]
  {
  }

  lemma SatisfiesZstd(cpu: Cpu, o: Setting, z: Setting, vals: seq<nat>)
    requires o.codec == Lz4 && z == o.(codec := Zstd) && Satisfies(cpu, o, vals) && Usable(cpu, DECODE, ZSTD)
    ensures Satisfies(cpu, z, vals[DECODE := ZSTD])
  {
    var b := vals[DECODE := ZSTD];
    forall s | 0 <= s < DOT && Looped(z, s) ensures Usable(cpu, s, b[s]) {
      assert Looped(o, s);
      assert Usable(cpu, s, vals[s]);
    }
  }

  lemma SatisfiesPlanes(cpu: Cpu, o: Setting, vals: seq<nat>)
    requires Satisfies(cpu, o, vals) && Usable(cpu, MASK, MASK_PLANES)
    ensures Satisfies(cpu, o, vals[MASK := MASK_PLANES])
  {
    var b := vals[MASK := MASK_PLANES];
    forall s | 0 <= s < DOT && Looped(o, s) ensures Usable(cpu, s, b[s]) {
      assert Usable(cpu, s, vals[s]);
    }
  }

  lemma SettleCodecKeeps(u: Setup, s: State, call: Call)
    requires u.Valid() && Inv(u, s)
    ensures SettleCodec(u, s, call).1.None?
    ensures Inv(u, SettleCodec(u, s, call).0)
    ensures call.Compressed? ==> !SettleCodec(u, s, call).0.codecPending
    ensures var t := SettleCodec(u, s, call).0; t.layout == s.layout && t.dot == s.dot && (t != s ==> call.Compressed?)
  {
    if call.Compressed? && s.codecPending && call.zstd {
      CodecSettles(u);
      ResolvedDot(u, Zstd, Resolve(u.cpu, u.For(Zstd), u.spec).value);
    }
  }

  lemma SettleMaskKeeps(u: Setup, s: State, call: Call)
    requires u.Valid() && Inv(u, s) && (call.Compressed? ==> !s.codecPending)
    ensures Inv(u, SettleMask(u, s, call))
    ensures var t := SettleMask(u, s, call); t.layout == s.layout && t.dot == s.dot && t.codecPending == s.codecPending
  {
    SatisfiesPlanes(u.cpu, u.For(s.codec), s.pipeline);
  }

  // ---- following the block size -------------------------------------------

  /** An automatic dot that a block size makes the layout follow: a block dot only if it
      is the one of the default block size. */
  lemma OneWay(info: Info, avx2: bool, be: nat, small: nat, intPixels: bool, a: Dot, b: Dot)
    requires small <= 8192 && a == AutoDot(info, avx2, Some(be), intPixels) && b == AutoDot(info, avx2, Some(small), intPixels)
    ensures IsBlockDot(a) ==> b == a
    ensures be <= 8192 && IsBlockDot(b) ==> b == a
  {
    LayoutsProof.AutoIsOneWay(info, avx2, be, small, intPixels);
    if be <= 8192 { LayoutsProof.AutoIsOneWay(info, avx2, small, be, intPixels); }
  }

  lemma AutoFollows(u: Setup, be: nat)
    ensures IsBlockDot(u.Auto(be)) ==> u.Auto(be) == u.Auto(u.DefaultElems())
    ensures be <= 8192 && IsBlockDot(u.Auto(u.DefaultElems())) ==> u.Auto(be) == u.Auto(u.DefaultElems())
  {
    OneWay(u.Info(), u.Avx2(), be, u.DefaultElems(), u.IntPixels(), u.Auto(be), u.Auto(u.DefaultElems()));
  }

  lemma SatisfiesDot(cpu: Cpu, o: Setting, vals: seq<nat>, dot: nat)
    requires Satisfies(cpu, o, vals) && o.matrix && DotError(cpu, o, dot).None?
    ensures Satisfies(cpu, o, vals[DOT := dot])
  {
    var b := vals[DOT := dot];
    forall s | 0 <= s < DOT && Looped(o, s) ensures Usable(cpu, s, b[s]) {
      assert Usable(cpu, s, vals[s]);
    }
  }

  lemma AutoNeeds(info: Info, cpu: Cpu, o: Setting, avx2: bool, be: nat, ip: bool, dot: Dot)
    requires Registry(cpu) && dot == AutoDot(info, avx2, Some(be), ip)
    requires (avx2 ==> Usable(cpu, DOT, DotNumber(PaddedAvx2))) && (ip ==> IsInteger(o.dtype) && ItemSize(o.dtype) <= 4)
    ensures DotError(cpu, o, DotNumber(dot)).None?
  {
    LayoutsProof.AutoKnows(info, avx2, be, ip, dot);
    PipelineProof.DotTaken(cpu, o, dot);
  }

  lemma AutoTaken(u: Setup, codec: Codec, be: nat)
    requires u.Valid()
    ensures DotError(u.cpu, u.For(codec), DotNumber(u.Auto(be))).None?
  {
    AutoNeeds(u.Info(), u.cpu, u.For(codec), u.Avx2(), be, u.IntPixels(), u.Auto(be));
  }

  /** The dot of the layout a block size calls for. */
  function Wanted(u: Setup, s: State, be: nat): Dot
  {
    if u.DotIsAuto() then u.Auto(be) else s.dot
  }

  predicate Follows(s: State, be: nat) {
    s.layout.blockElems.Some? && s.layout.blockElems.value != be
  }

  lemma EntryOfDot(dot: Dot)
    ensures DotEntry(DotNumber(dot)) ==
              if dot == PaddedDot || dot == PaddedAvx2 then PaddedEntry else if IsBlockDot(dot) then BsbEntry else CscEntry
  {
  }

  lemma BlockLayout(u: Setup, s: State)
    requires u.Valid() && Inv(u, s)
    ensures s.layout.dot == s.dot
    ensures s.layout.entry == DotEntry(DotNumber(s.dot))
    ensures s.layout.blockElems == if IsBlockDot(s.dot) then Some(BuiltFor(s)) else None
  {
    var dot, l := s.dot, s.layout;
    EntryOfDot(dot);
    LayoutsProof.BuildNames(dot, u.m, BuiltFor(s), u.dtype, u.fixed, l);
    assert l.dot == dot;
    assert l.entry == DotEntry(DotNumber(dot));
  }

  /** When the layout of an automatic dot follows to a block size of zero, the dot stays. */
  lemma ZeroStays(u: Setup, s: State)
    requires u.Valid() && Inv(u, s) && u.DotIsAuto() && s.layout.blockElems.Some?
    ensures u.Auto(0) == s.dot
  {
    BlockLayout(u, s);
    AutoFollows(u, 0);
  }

  /** Whether the layout a block size calls for can be built. */
  lemma WantedBuilds(u: Setup, s: State, be: nat)
    requires u.Valid() && Inv(u, s) && s.layout.blockElems.Some?
    ensures Layouts.Build(Wanted(u, s, be), u.m, be, u.dtype, u.fixed).Refused? <==> Refuses(u, s, be)
  {
    BlockLayout(u, s);
    if u.DotIsAuto() {
      LayoutsProof.AutoIsAccepted(u.m, u.Avx2(), be, u.IntPixels(), u.dtype, u.Auto(be));
      if be == 0 { ZeroStays(u, s); }
    } else {
      RebuildRefused(s.dot, u.m, BuiltFor(s), be, u.dtype, u.fixed);
    }
  }

  /** A block layout that was built for one block size is refused for another exactly
      when that is zero or, for bsb-csr, too large. */
  lemma RebuildRefused(dot: Dot, m: Matrix, was: nat, be: nat, dtype: Dtype, fixed: Option<Fixed>)
    requires m.Valid() && IsBlockDot(dot) && Layouts.Build(dot, m, was, dtype, fixed).Success?
    ensures Layouts.Build(dot, m, be, dtype, fixed).Refused? <==>
              be == 0 || ((dot == BsbCsr || dot == BsbCsrNosplit) && be > BlockCsr.MAX_BLOCK_ELEMS)
  {
  }

  /** The state that results when the layout follows to a block size. */
  lemma FollowedInv(u: Setup, s: State, dot: Dot, be: nat, l: Layout)
    requires u.Valid() && Inv(u, s) && !s.codecPending && dot == Wanted(u, s, be)
    requires Layouts.Build(dot, u.m, be, u.dtype, u.fixed) == Success(l)
    ensures Inv(u, s.(dot := dot, pipeline := s.pipeline[DOT := DotNumber(dot)], layout := l))
  {
    BuiltForItself(u, dot, be, l);
    if u.DotIsAuto() {
      AutoTaken(u, s.codec, be);
      AutoFollows(u, be);
      SatisfiesDot(u.cpu, u.For(s.codec), s.pipeline, DotNumber(dot));
    } else {
      assert s.pipeline[DOT := DotNumber(dot)] == s.pipeline;
    }
  }

  /** A layout is never refused for the block size it was built for. */
  lemma OwnBlock(u: Setup, s: State)
    requires u.Valid() && Inv(u, s) && s.layout.blockElems.Some?
    ensures !Refuses(u, s, BuiltFor(s))
  {
    BlockLayout(u, s);
    LayoutsProof.BuildNames(s.dot, u.m, BuiltFor(s), u.dtype, u.fixed, s.layout);
    RebuildRefused(s.dot, u.m, BuiltFor(s), BuiltFor(s), u.dtype, u.fixed);
  }

  lemma FollowStays(u: Setup, s: State, be: nat)
    requires u.Valid() && Inv(u, s) && Follows(s, be) && Refuses(u, s, be)
    ensures FollowBlock(u, s, be).0 == s && FollowBlock(u, s, be).1.Some?
  {
    WantedBuilds(u, s, be);
    if u.DotIsAuto() { ZeroStays(u, s); }
  }

  lemma SameDot(vals: Values, dot: Dot)
    requires vals[DOT] == DotNumber(dot)
    ensures vals[DOT := DotNumber(dot)] == vals
  {
  }

  lemma FollowMoves(u: Setup, s: State, be: nat)
    requires u.Valid() && Inv(u, s) && Follows(s, be) && !Refuses(u, s, be)
    ensures Layouts.Build(Wanted(u, s, be), u.m, be, u.dtype, u.fixed).Success?
    ensures FollowBlock(u, s, be) ==
              (s.(dot := Wanted(u, s, be), pipeline := s.pipeline[DOT := DotNumber(Wanted(u, s, be))],
                  layout := Layouts.Build(Wanted(u, s, be), u.m, be, u.dtype, u.fixed).value), None)
  {
    WantedBuilds(u, s, be);
    SameDot(s.pipeline, s.dot);
  }

  /** At the default block size an automatic dot that depends on it does not change. */
  lemma DefaultStays(u: Setup, s: State)
    requires u.Valid() && Inv(u, s) && s.layout.blockElems.Some?
    ensures Wanted(u, s, u.DefaultElems()) == s.dot
  {
    BlockLayout(u, s);
  }

  lemma FollowBlockKeeps(u: Setup, s: State, be: nat)
    requires u.Valid() && Inv(u, s)
    requires s.codecPending ==> be == u.DefaultElems()
    ensures Inv(u, FollowBlock(u, s, be).0)
    ensures FollowBlock(u, s, be).1.Some? <==> s.layout.blockElems.Some? && Refuses(u, s, be)
    ensures var t := FollowBlock(u, s, be).0;
            && t.codec == s.codec && t.codecPending == s.codecPending && t.maskPending == s.maskPending
            && t.capacity == s.capacity && t.workspace == s.workspace && t.powder == s.powder
            && (be == u.DefaultElems() ==> t.pipeline == s.pipeline)
            && (FollowBlock(u, s, be).1.None? && t.layout.blockElems.Some? ==> t.layout.blockElems.value == be)
  {
    if Follows(s, be) {
      if Refuses(u, s, be) {
        FollowStays(u, s, be);
      } else {
        FollowMoves(u, s, be);
        var dot := Wanted(u, s, be);
        FollowedInv(u, s, dot, be, Layouts.Build(dot, u.m, be, u.dtype, u.fixed).value);
        BuiltForItself(u, dot, be, Layouts.Build(dot, u.m, be, u.dtype, u.fixed).value);
        if be == u.DefaultElems() { DefaultStays(u, s); }
      }
    } else if s.layout.blockElems.Some? {
      OwnBlock(u, s);
    }
  }

  // ---- one call -----------------------------------------------------------

  /** Buffers are no part of the invariant. */
  lemma BuffersApart(u: Setup, s: State, t: State)
    requires u.Valid() && Inv(u, s)
    requires t == s.(capacity := t.capacity, powder := t.powder, workspace := t.workspace)
    ensures Inv(u, t)
  {
  }

  predicate Ready(u: Setup, s: State, nframes: nat, blocksize: nat) {
    && (s.layout.blockElems.Some? ==> s.layout.blockElems.value == Elems(u, blocksize))
    && s.workspace >= Need(u, blocksize) && s.capacity >= nframes
    && s.powder == Some((s.capacity, s.layout.nout, s.layout.powder))
  }

  lemma EnsureCapacityKeeps(u: Setup, s: State, nframes: nat, blocksize: nat)
    requires u.Valid() && Inv(u, s)
    requires s.codecPending ==> blocksize == DEFAULT_BLOCK_BYTES
    ensures Inv(u, EnsureCapacity(u, s, nframes, blocksize).0)
    ensures EnsureCapacity(u, s, nframes, blocksize).1.Some? <==>
              s.layout.blockElems.Some? && Refuses(u, s, Elems(u, blocksize))
    ensures blocksize == DEFAULT_BLOCK_BYTES ==> EnsureCapacity(u, s, nframes, blocksize).0.pipeline == s.pipeline
    ensures EnsureCapacity(u, s, nframes, blocksize).1.None? ==>
              Ready(u, EnsureCapacity(u, s, nframes, blocksize).0, nframes, blocksize)
  {
    var grown := s.(capacity := Larger(s.capacity, nframes));
    BuffersApart(u, s, grown);
    FollowBlockKeeps(u, grown, Elems(u, blocksize));
    ReservedInv(u, FollowBlock(u, grown, Elems(u, blocksize)).0, blocksize);
  }

  lemma ReservedInv(u: Setup, s: State, blocksize: nat)
    requires u.Valid() && Inv(u, s)
    ensures Inv(u, s.(powder := Some((s.capacity, s.layout.nout, s.layout.powder)), workspace := Larger(s.workspace, Need(u, blocksize))))
  {
    BuffersApart(u, s, s.(powder := Some((s.capacity, s.layout.nout, s.layout.powder)), workspace := Larger(s.workspace, Need(u, blocksize))));
  }

  /** The state of a call after the first chunk has settled codec and mask. */
  function Settled(u: Setup, s: State, call: Call): State
  {
    SettleMask(u, SettleCodec(u, s, call).0, call)
  }

  lemma SettledKeeps(u: Setup, s: State, call: Call)
    requires u.Valid() && Inv(u, s)
    ensures Inv(u, Settled(u, s, call)) && SettleCodec(u, s, call).1.None?
    ensures Settled(u, s, call).layout == s.layout && Settled(u, s, call).dot == s.dot
    ensures Settled(u, s, call).codecPending ==> call.Frames?
  {
    SettleCodecKeeps(u, s, call);
    SettleMaskKeeps(u, SettleCodec(u, s, call).0, call);
  }

  /** Every call keeps the invariant, one that raises too; and a call raises exactly when
      the layout depends on the block size and cannot be built for the new one, which
      an automatic dot never does for a block of at least one pixel. */
  lemma StepKeeps(u: Setup, s: State, call: Call)
    requires u.Valid() && Inv(u, s)
    ensures Inv(u, Step(u, s, call).0)
    ensures Step(u, s, call).1.Raised? <==>
              s.layout.blockElems.Some? && Refuses(u, s, Elems(u, BlockBytes(call)))
  {
    SettledKeeps(u, s, call);
    EnsureCapacityKeeps(u, Settled(u, s, call), call.nframes, BlockBytes(call));
  }

  lemma PaddedCovers(l: Layout, m: ValidMatrix, be: nat, rows: Padded.Layout)
    requires be >= 1 && Padded.FromCsc(m, be) == Success(rows) && l.args == PaddedArgs(rows)
    ensures CoversBlocks(l, m.Npix(), be)
  {
    PaddedProof.FromCscWellFormed(m, be);
    assert Padded.BlocksSplit(rows, m.Npix());
  }

  lemma BsbCovers(l: Layout, m: ValidMatrix, be: nat)
    requires 1 <= be <= BlockCsr.MAX_BLOCK_ELEMS && l.args.BsbArgs? && l.args.blocks == BlockCsr.FromCsc(m, be)
    ensures CoversBlocks(l, m.Npix(), be)
  {
    BlockCsrProof.FromCscTrace(m, be);
    var q := BlockCsr.FromCsc(m, be);
    assert |q.blkPtr| == Blocks(m.Npix(), q.blockElems) + 1;
  }

  lemma LayoutCovers(dot: Dot, m: ValidMatrix, be: nat, dtype: Dtype, fixed: Option<Fixed>, l: Layout)
    requires Layouts.Build(dot, m, be, dtype, fixed) == Success(l)
    ensures CoversBlocks(l, m.Npix(), be)
  {
    if dot == PaddedDot || dot == PaddedAvx2 {
      PaddedCovers(l, m, be, l.args.rows);
    } else if dot == BsbCsr || dot == BsbCsrNosplit {
      BsbCovers(l, m, be);
    }
  }

  lemma CTakesValues(cpu: Cpu, o: Setting, vals: Values, pipe: Values)
    requires Registry(cpu) && o.matrix && Satisfies(cpu, o, vals)
    requires pipe == vals || pipe == vals[DECODE := PIXELS]
    ensures CResolve(cpu, o.dtype, pipe, Some(DotEntry(vals[DOT]))) == COk
  {
    assert pipe == vals[DECODE := pipe[DECODE]][MASK := vals[MASK]];
    PipelineProof.CAcceptsResolved(cpu, o, vals, pipe[DECODE], vals[MASK]);
  }

  lemma CTakes(u: Setup, s: State, pipe: Values)
    requires u.Valid() && Inv(u, s)
    requires pipe == s.pipeline || pipe == s.pipeline[DECODE := PIXELS]
    ensures pipe[DOT] == DotNumber(s.layout.dot)
    ensures CResolve(u.cpu, u.dtype, pipe, Some(s.layout.entry)) == COk
  {
    BlockLayout(u, s);
    CTakesValues(u.cpu, u.For(s.codec), s.pipeline, pipe);
  }

  /** The elements of the powder buffer have the size C writes. */
  lemma OutSized(u: Setup, s: State)
    requires u.Valid() && Inv(u, s)
    ensures PowderBytes(s.layout.powder) == OutBytes(u.dtype, s.pipeline[DOT]) && s.layout.nout == u.m.nbins
  {
    LayoutsProof.BuildNames(s.dot, u.m, BuiltFor(s), u.dtype, u.fixed, s.layout);
    LayoutsProof.BuildMeasures(s.dot, u.m, BuiltFor(s), u.dtype, u.fixed, s.layout);
    PermuteNumber(s.dot);
  }

  lemma PermuteNumber(dot: Dot)
    ensures DotNumber(dot) == 8 <==> dot == CscPermute
  {
  }

  /** What a call sends is the settled pipeline, with the decode step of its data, and the
      state's own layout and buffers. */
  lemma StepSends(u: Setup, s: State, call: Call)
    requires u.Valid() && Inv(u, s) && Step(u, s, call).1.Fine?
    ensures var t, sent := Step(u, s, call).0, Step(u, s, call).1.value;
            && Inv(u, t) && Ready(u, t, call.nframes, BlockBytes(call))
            && sent == Sent(if call.Frames? then t.pipeline[DECODE := PIXELS] else t.pipeline, t.layout, call.nframes,
                            BlockBytes(call), t.capacity, (t.capacity, t.layout.nout, t.layout.powder), t.workspace)
  {
    SettledKeeps(u, s, call);
    EnsureCapacityKeeps(u, Settled(u, s, call), call.nframes, BlockBytes(call));
  }

  lemma BlocksAre(call: Call)
    ensures InBlocksOf(call, BlockBytes(call))
  {
  }

  /** Whatever a call sends, every check of the C side passes: the pipeline names the
      dot of the layout, the layout is built for the block size of the call, and the
      buffers are large enough. */
  lemma StepSendsAccepted(u: Setup, s: State, call: Call)
    requires u.Valid() && Inv(u, s) && Step(u, s, call).1.Fine?
    ensures CAccepts(u, call, Step(u, s, call).1.value)
  {
    StepSends(u, s, call);
    BlocksAre(call);
    var t := Step(u, s, call).0;
    CTakes(u, t, Step(u, s, call).1.value.pipe);
    OutSized(u, t);
    LayoutCovers(t.dot, u.m, BuiltFor(t), u.dtype, u.fixed, t.layout);
  }

  // ---- every sequence of calls --------------------------------------------

  lemma {:induction false} AfterKeeps(u: Setup, s: State, calls: seq<Call>)
    requires u.Valid() && Inv(u, s)
    ensures Inv(u, After(u, s, calls))
  {
    if calls != [] {
      AfterKeeps(u, s, calls[..|calls| - 1]);
      StepKeeps(u, After(u, s, calls[..|calls| - 1]), calls[|calls| - 1]);
    }
  }

  /** Of an object that could be made, after any calls, the next call sends what C
      accepts or raises for its block size; with an automatic dot it never raises for
      blocks of at least one pixel. */
  lemma EveryCall(u: Setup, codec: Option<Codec>, calls: seq<Call>, call: Call)
    requires u.Valid() && Create(u, codec).Fine?
    ensures var s := After(u, Create(u, codec).value, calls);
            && (Step(u, s, call).1.Fine? ==> CAccepts(u, call, Step(u, s, call).1.value))
            && (Step(u, s, call).1.Raised? <==>
                  s.layout.blockElems.Some? && Refuses(u, s, Elems(u, BlockBytes(call))))
  {
    var s := After(u, Create(u, codec).value, calls);
    CreateInv(u, codec);
    AfterKeeps(u, Create(u, codec).value, calls);
    StepKeeps(u, s, call);
    if Step(u, s, call).1.Fine? { StepSendsAccepted(u, s, call); }
  }

  /** With nothing chosen by the user an object can always be made: the automatic
      pipeline resolves and the automatic dot has a layout. */
  lemma AutomaticCreates(u: Setup, codec: Option<Codec>)
    requires u.Valid() && u.spec == NoSpec && u.fixed.None?
    ensures Create(u, codec).Fine?
  {
    var c := if codec.Some? then codec.value else Lz4;
    AutoTaken(u, c, u.DefaultElems());
    PipelineProof.AutomaticResolves(u.cpu, u.For(c));
    ResolvedDot(u, c, Resolve(u.cpu, u.For(c), u.spec).value);
    LayoutsProof.AutoIsAccepted(u.m, u.Avx2(), u.DefaultElems(), u.IntPixels(), u.dtype, u.Auto(u.DefaultElems()));
    DefaultBlock(u);
  }

  lemma DefaultBlock(u: Setup)
    ensures 1 <= u.DefaultElems() <= 8192
  {
  }
}
