/** The steps of resolve as the source takes them, one value after the other. */
module PipelineRun {
  import opened Dtypes
  import opened Layouts
  import opened Pipeline

  method ResolveLoop(cpu: Cpu, o: Setting, spec: Spec) returns (r: Outcome<seq<nat>>)
    ensures r == Resolve(cpu, o, spec)
  {
    var parsed := Parse(spec);
    if parsed.Err? { return Err(parsed.error); }
    var vals := parsed.value;
    if !o.matrix && vals[ROUTE] != 0 { return Err(NoMatrix(ROUTE)); }
    if !o.matrix && vals[DOT] != 0 { return Err(NoMatrix(DOT)); }
    ghost var filled := AllFilled(cpu, o, vals);
    for s := 0 to DOT
      invariant |vals| == NSTEPS
      invariant forall i :: 0 <= i < s ==> vals[i] == filled[i]
      invariant forall i :: s <= i < NSTEPS ==> vals[i] == parsed.value[i]
      invariant FirstUnavailable(cpu, o, filled, 0) == FirstUnavailable(cpu, o, filled, s)
    {
      if Looped(o, s) {
        if vals[s] == 0 { vals := vals[s := AutoStep(cpu, o, s)]; }
        assert vals[s] == filled[s];
        if !Usable(cpu, s, vals[s]) { return Err(Unavailable(s)); }
      }
    }
    var bad := DataError(o, vals);
    assert bad == DataError(o, filled);
    if bad.Some? { return Err(bad.value); }
    if o.matrix {
      if vals[DOT] == 0 { vals := vals[DOT := DotNumber(o.dotAuto)]; }
      var badDot := DotError(cpu, o, vals[DOT]);
      if badDot.Some? { return Err(badDot.value); }
    }
    assert vals == filled;
    return Ok(vals);
  }
}
