/** The decoding object as the source keeps it, updated in place call by call. */
module SessionRun {
  import opened Dtypes
  import opened Layouts
  import opened Pipeline
  import opened Session
  import SessionProof

  class Decoder {
    const u: Setup
    var pipeline: Values
    var dot: Dot
    var layout: Layout
    var codec: Codec
    var codecPending: bool
    var maskPending: bool
    var capacity: nat
    var powder: Option<(nat, nat, PowderType)>
    var workspace: nat

    function Now(): State
      reads this
    {
      State(pipeline, dot, layout, codec, codecPending, maskPending, capacity, powder, workspace)
    }

    ghost predicate Valid()
      reads this
    {
      u.Valid() && Inv(u, Now())
    }

    constructor (u: Setup, s: State)
      requires u.Valid() && Inv(u, s)
      ensures this.u == u && Now() == s && Valid()
    {
      this.u := u;
      pipeline, dot, layout, codec := s.pipeline, s.dot, s.layout, s.codec;
      codecPending, maskPending := s.codecPending, s.maskPending;
      capacity, powder, workspace := s.capacity, s.powder, s.workspace;
    }

    method SettleFirstCodec(call: Call) returns (failed: Option<Failure>)
      modifies this
      ensures (Now(), failed) == SettleCodec(u, old(Now()), call)
      ensures old(codecPending) && call.Compressed? ==> codec == (if call.zstd then Zstd else Lz4) && !codecPending
      ensures !(old(codecPending) && call.Compressed?) ==> Now() == old(Now()) && failed.None?
    {
      failed := None;
      if call.Compressed? && codecPending {
        codecPending := false;
        var c := if call.zstd then Zstd else Lz4;
        if c != codec {
          codec := c;
          var resolved := Resolve(u.cpu, u.For(codec), u.spec);
          if resolved.Err? { return Some(Pipe(resolved.error)); }
          pipeline := resolved.value;
        }
      }
    }

    method SettleFirstMask(call: Call)
      modifies this
      ensures Now() == SettleMask(u, old(Now()), call)
    {
      if call.Compressed? && maskPending {
        maskPending := false;
        var elems := BlockBytes(call) / 2;
        if elems > PLANES_MAX_ELEMS || elems % 64 != 0 { return; }
        if call.trial == None { return; }
        if 2 * call.trial.value >= u.masked { pipeline := pipeline[MASK := MASK_PLANES]; }
      }
    }

    method Rebuild(be: nat) returns (failed: Option<Failure>)
      modifies this
      ensures (Now(), failed) == FollowBlock(u, old(Now()), be)
    {
      failed := None;
      if layout.blockElems.Some? && layout.blockElems.value != be {
        if u.DotIsAuto() {
          var auto := u.Auto(be);
          if auto != dot {
            dot := auto;
            pipeline := pipeline[DOT := DotNumber(auto)];
          }
        }
        var built := Layouts.Build(dot, u.m, be, u.dtype, u.fixed);
        if built.Refused? { return Some(Build(dot, built.reason)); }
        layout := built.value;
      }
    }

    method Reserve(nframes: nat, blocksize: nat) returns (failed: Option<Failure>)
      modifies this
      ensures (Now(), failed) == EnsureCapacity(u, old(Now()), nframes, blocksize)
    {
      if capacity < nframes { capacity := nframes; }
      failed := Rebuild(Elems(u, blocksize));
      if failed.Some? { return; }
      var shape := (capacity, layout.nout, layout.powder);
      if powder != Some(shape) { powder := Some(shape); }
      var need := Need(u, blocksize);
      if workspace < need { workspace := need; }
    }

    method Run(call: Call) returns (r: Reply<Sent>)
      requires Valid()
      modifies this
      ensures (Now(), r) == Step(u, old(Now()), call)
      ensures Valid() && (r.Fine? ==> CAccepts(u, call, r.value))
    {
      SessionProof.StepKeeps(u, Now(), call);
      if Step(u, Now(), call).1.Fine? { SessionProof.StepSendsAccepted(u, Now(), call); }
      var pipe := pipeline;
      if call.Frames? {
        pipe := pipe[DECODE := PIXELS];
      } else {
        var failed := SettleFirstCodec(call);
        if failed.Some? { return Raised(failed.value); }
        SettleFirstMask(call);
      }
      var failed := Reserve(call.nframes, BlockBytes(call));
      if failed.Some? { return Raised(failed.value); }
      if call.Compressed? { pipe := pipeline; }
      r := Fine(Sent(pipe, layout, call.nframes, BlockBytes(call), capacity, PowderOf(Now()), workspace));
    }
  }
}
