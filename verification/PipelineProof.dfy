/** What resolve, parse and describe promise of each other. */
module PipelineProof {
  import opened Dtypes
  import opened Layouts
  import LayoutsProof
  import opened Pipeline

  // ---- names --------------------------------------------------------------

  /** No two values of a step share a name, so a name means one number. */
  lemma NamesDistinct(step: nat, i: nat, j: nat)
    requires step < NSTEPS && i < j < |Names(step)|
    ensures Names(step)[i] != Names(step)[j]
  {
  }

  lemma IndexBack(names: seq<string>, v: nat)
    requires v < |names| && forall i :: 0 <= i < v ==> names[i] != names[v]
    ensures names[v] in names && IndexOf(names, names[v]) == v
  {
  }

  lemma NameBack(step: nat, v: nat)
    requires step < NSTEPS && v < |Names(step)|
    ensures ParseValue(step, DescribeValue(step, v)) == Ok(v)
  {
    forall i | 0 <= i < v ensures Names(step)[i] != Names(step)[v] { NamesDistinct(step, i, v); }
    IndexBack(Names(step), v);
  }

  lemma StepNames()
    ensures |STEPS| == NSTEPS && |STEPS[0]| == 6 && |STEPS[1]| == 4 && |STEPS[2]| == 11
    ensures |STEPS[3]| == 7 && |STEPS[4]| == 5 && |STEPS[5]| == 3
  {
  }

  /** No two steps share a name: their names differ in length. */
  lemma StepBack(s: nat)
    requires s < NSTEPS
    ensures STEPS[s] in STEPS && IndexOf(STEPS, STEPS[s]) == s
  {
    StepNames();
    forall i | 0 <= i < s ensures STEPS[i] != STEPS[s] { assert |STEPS[i]| != |STEPS[s]|; }
    IndexBack(STEPS, s);
  }

  lemma DescribedValue(vals: seq<nat>, s: nat)
    requires InTables(vals) && s < NSTEPS
    ensures Lookup(Describe(vals).values, s) == DescribeValue(s, vals[s])
  {
    StepBack(s);
  }

  /** A description names the value of every step that is set, and leaves the others open. */
  lemma DescribeNames(vals: seq<nat>, s: nat)
    requires InTables(vals) && s < NSTEPS
    ensures STEPS[s] in Describe(vals).values
    ensures Describe(vals).values[STEPS[s]] == if vals[s] == 0 then Absent else Name(Names(s)[vals[s]])
  {
    StepBack(s);
    DescribedValue(vals, s);
  }

  lemma GatherBack(values: seq<Value>, vals: seq<nat>)
    requires |values| == |vals| == NSTEPS
    requires forall s :: 0 <= s < NSTEPS ==> ParseValue(s, values[s]) == Ok(vals[s])
    ensures Gather(ParseEach(values)) == Ok(vals)
  {
    GatherAll(ParseEach(values));
    assert Gather(ParseEach(values)).value == vals;
  }

  lemma TableIsRefused()
    ensures Parse(DescribeSpec(NoSpec).value).Err?
  {
    var table := DescribeSpec(NoSpec).value.values;
    StepNames();
    assert Lookup(table, 0) == Other;
    assert ParseEach(Lookups(table))[0] == Err(NotANumber(0));
    GatherAll(ParseEach(Lookups(table)));
  }

  /** Reading back a description gives the pipeline that was described, exactly unless
      none was: then what comes is the table of all values, which parse refuses. */
  lemma DescribeRoundTrip(spec: Spec)
    requires Parse(spec).Ok?
    ensures DescribeSpec(spec).Ok?
    ensures Parse(DescribeSpec(spec).value) == Parse(spec) <==> spec != NoSpec
  {
    if spec == NoSpec {
      TableIsRefused();
    } else {
      ParsedValues(spec);
      DescribedBack(Parse(spec).value);
    }
  }

  lemma DescribedBack(vals: seq<nat>)
    requires InTables(vals)
    ensures Parse(Describe(vals)) == Ok(vals)
  {
    DictBack(Describe(vals).values, vals);
  }

  /** A dict whose values read back reads back. */
  lemma DictBack(values: map<string, Value>, vals: seq<nat>)
    requires InTables(vals) && forall k :: k in values ==> k in STEPS
    requires values == Describe(vals).values
    ensures Parse(Dict(values)) == Ok(vals)
  {
    var all := Lookups(values);
    forall s | 0 <= s < NSTEPS ensures ParseValue(s, all[s]) == Ok(vals[s]) {
      ValueBack(vals, s);
    }
    GatherBack(all, vals);
  }

  lemma ValueBack(vals: seq<nat>, s: nat)
    requires InTables(vals) && s < NSTEPS
    ensures ParseValue(s, Lookup(Describe(vals).values, s)) == Ok(vals[s])
  {
    DescribedValue(vals, s);
    NameBack(s, vals[s]);
  }

  // ---- parse, value by value ----------------------------------------------

  /** What one value is read as: absent is auto, a name its place in the table of the
      step, a number itself; unknown names, numbers out of the table and anything else
      are refused. */
  lemma ParseValueExactly(step: nat, v: Value)
    requires step < NSTEPS
    ensures v.Absent? ==> ParseValue(step, v) == Ok(0)
    ensures v.Name? && v.name !in Names(step) ==> ParseValue(step, v) == Err(UnknownName(step))
    ensures forall n :: 0 <= n < |Names(step)| && v == Name(Names(step)[n]) ==> ParseValue(step, v) == Ok(n)
    ensures v.Number? && 0 <= v.i < |Names(step)| ==> ParseValue(step, v) == Ok(v.i)
    ensures v.Number? && !(0 <= v.i < |Names(step)|) ==> ParseValue(step, v) == Err(OutOfRange(step))
    ensures v.Other? ==> ParseValue(step, v) == Err(NotANumber(step))
  {
    forall n | 0 <= n < |Names(step)| && v == Name(Names(step)[n]) ensures ParseValue(step, v) == Ok(n) {
      forall i | 0 <= i < n ensures Names(step)[i] != Names(step)[n] { NamesDistinct(step, i, n); }
      IndexBack(Names(step), n);
    }
  }

  /** The value of step s that a specification gives. */
  function Given(spec: Spec, s: nat): Value
    requires s < NSTEPS
  {
    match spec
    case Dict(values) => if STEPS[s] in values then values[STEPS[s]] else Absent
    case Sequence(items) => if s < |items| then items[s] else Absent
    case _ => Absent
  }

  /** What parses: nothing, zero, six values or a dict of known steps, every value of
      which is read; and it parses to those values. */
  lemma ParseExactly(spec: Spec)
    ensures Parse(spec).Ok? <==>
              && (spec.Scalar? ==> spec.i == 0)
              && (spec.Sequence? ==> |spec.items| == NSTEPS)
              && (spec.Dict? ==> forall k :: k in spec.values ==> k in STEPS)
              && forall s :: 0 <= s < NSTEPS ==> ParseValue(s, Given(spec, s)).Ok?
    ensures Parse(spec).Ok? ==> forall s :: 0 <= s < NSTEPS ==> ParseValue(s, Given(spec, s)) == Ok(Parse(spec).value[s])
    ensures spec.Dict? && (exists k :: k in spec.values && k !in STEPS) ==> Parse(spec) == Err(UnknownStep)
    ensures spec.Sequence? && |spec.items| != NSTEPS ==> Parse(spec) == Err(WrongLength)
  {
    match spec
    case Dict(values) => GatherExactly(Lookups(values), spec);
    case Sequence(items) => if |items| == NSTEPS { GatherExactly(items, spec); }
    case _ =>
  }

  lemma GatherExactly(values: seq<Value>, spec: Spec)
    requires |values| == NSTEPS && forall s :: 0 <= s < NSTEPS ==> values[s] == Given(spec, s)
    ensures Gather(ParseEach(values)).Ok? <==> forall s :: 0 <= s < NSTEPS ==> ParseValue(s, Given(spec, s)).Ok?
    ensures Gather(ParseEach(values)).Ok? ==>
              forall s :: 0 <= s < NSTEPS ==> ParseValue(s, Given(spec, s)) == Ok(Gather(ParseEach(values)).value[s])
  {
    GatherAll(ParseEach(values));
    assert forall s :: 0 <= s < NSTEPS ==> ParseEach(values)[s] == ParseValue(s, Given(spec, s));
  }

  /** The numbers that resolve and the objects use are those of the names they stand for. */
  lemma NumbersNameValues()
    ensures Names(DECODE)[LZ4_BAND] == "lz4-band" && Names(DECODE)[LZ4_ZERO] == "lz4-zero"
    ensures Names(DECODE)[ZSTD] == "zstd" && Names(DECODE)[PIXELS] == "pixels"
    ensures Names(MASK)[MASK_PIXEL] == "pixel" && Names(MASK)[MASK_PLANES] == "planes" && Names(MASK)[MASK_NONE] == "none"
    ensures Names(UNTRANSPOSE)[LOWPLANES_C] == "lowplanes-c" && Names(UNTRANSPOSE)[KCB] == "kcb"
    ensures Names(COLLECT)[COLLECT_SCALAR] == "scalar" && Names(ROUTE)[BPP] == "bpp"
  {
  }

  /** The name of a dot. */
  function DotName(dot: Dot): string {
    match dot
    case CscDot => "csc"
    case PaddedDot => "padded"
    case PaddedAvx2 => "padded-avx2"
    case CscRun => "csc-run"
    case CscNosplit => "csc-nosplit"
    case BsbCsr => "bsb-csr"
    case BsbCsrNosplit => "bsb-csr-nosplit"
    case CscPermute => "csc-permute"
    case CscInt => "csc-int"
    case CscRunInt => "csc-run-int"
    case CscRunInt16 => "csc-run-int16"
    case CscNosplitInt => "csc-nosplit-int"
  }

  lemma NumbersNameDots(dot: Dot)
    ensures Names(DOT)[DotNumber(dot)] == DotName(dot)
  {
  }

  // ---- resolve ------------------------------------------------------------

  /** A pipeline given as numbers parses to itself. */
  lemma NumbersBack(vals: seq<nat>)
    requires InTables(vals)
    ensures Parse(Numbers(vals)) == Ok(vals)
  {
    GatherBack(Numbers(vals).items, vals);
  }

  function Numbers(vals: seq<nat>): Spec {
    Sequence(seq(|vals|, s requires 0 <= s < |vals| => Number(vals[s])))
  }

  lemma {:induction false} UnavailableNone(cpu: Cpu, o: Setting, vals: seq<nat>, step: nat)
    requires |vals| == NSTEPS
    ensures FirstUnavailable(cpu, o, vals, step).None? <==>
              forall s :: step <= s < DOT && Looped(o, s) ==> Usable(cpu, s, vals[s])
    decreases NSTEPS - step
  {
    if step < DOT { UnavailableNone(cpu, o, vals, step + 1); }
  }

  /** Values that satisfy every constraint are kept, others never come out. */
  lemma CheckedExactly(cpu: Cpu, o: Setting, vals: seq<nat>)
    requires |vals| == NSTEPS && (!o.matrix ==> vals[ROUTE] == 0 && vals[DOT] == 0)
    ensures Checked(cpu, o, vals).Ok? <==> Satisfies(cpu, o, AllFilled(cpu, o, vals))
    ensures Checked(cpu, o, vals).Ok? ==> Checked(cpu, o, vals).value == AllFilled(cpu, o, vals)
  {
    UnavailableNone(cpu, o, AllFilled(cpu, o, vals), 0);
  }

  lemma {:induction false} FirstIsUnusable(cpu: Cpu, o: Setting, vals: seq<nat>, step: nat)
    requires |vals| == NSTEPS
    ensures FirstUnavailable(cpu, o, vals, step).Some? ==>
              var s := FirstUnavailable(cpu, o, vals, step).value;
              && step <= s < DOT && Looped(o, s) && !Usable(cpu, s, vals[s])
              && forall t :: step <= t < s && Looped(o, t) ==> Usable(cpu, t, vals[t])
    decreases NSTEPS - step
  {
    if step < DOT { FirstIsUnusable(cpu, o, vals, step + 1); }
  }

  /** The error of a refused pipeline is true of its values: the first step that cannot run
      here, or what it is of the data, the mask or the pixels that they do not suit. */
  lemma ErrorIsTrue(cpu: Cpu, o: Setting, vals: seq<nat>)
    requires |vals| == NSTEPS && Checked(cpu, o, vals).Err?
    ensures var filled := AllFilled(cpu, o, vals);
            match Checked(cpu, o, vals).error
            case Unavailable(s) =>
              s < NSTEPS && !Usable(cpu, s, filled[s]) && forall t :: 0 <= t < s && t < DOT && Looped(o, t) ==> Usable(cpu, t, filled[t])
            case PixelsDecode => filled[DECODE] == PIXELS
            case ZstdData => o.codec == Zstd && filled[DECODE] != ZSTD
            case Lz4Data => o.codec == Lz4 && filled[DECODE] == ZSTD
            case MaskedPixels => filled[MASK] == MASK_NONE && !o.allValid
            case LowplanesType => 1 <= filled[UNTRANSPOSE] <= LOWPLANES_C && o.dtype != U16
            case CollectType => filled[COLLECT] != COLLECT_SCALAR && o.dtype != U16 && o.dtype != U32
            case IntegerDotType => 9 <= filled[DOT] <= 11 && !IsInteger(o.dtype)
            case NarrowDotType => filled[DOT] == 12 && (!IsInteger(o.dtype) || ItemSize(o.dtype) > 4)
            case _ => false
  {
    FirstIsUnusable(cpu, o, AllFilled(cpu, o, vals), 0);
    UnavailableNone(cpu, o, AllFilled(cpu, o, vals), 0);
  }

  /** What resolve returns satisfies every constraint of the CPU, the data and the pixel
      type, and keeps every value the user set. */
  lemma ResolveSatisfies(cpu: Cpu, o: Setting, spec: Spec)
    requires Resolve(cpu, o, spec).Ok?
    ensures Satisfies(cpu, o, Resolve(cpu, o, spec).value) && Parse(spec).Ok?
    ensures forall s :: 0 <= s < NSTEPS && Parse(spec).value[s] != 0 ==>
              Resolve(cpu, o, spec).value[s] == Parse(spec).value[s]
  {
    CheckedExactly(cpu, o, Parse(spec).value);
  }

  lemma {:induction false} FirstIsLowest(cpu: Cpu, step: nat, v: nat, last: nat, fallback: nat, first: nat)
    requires first <= v && forall w :: first <= w < v ==> !Usable(cpu, step, w)
    ensures IsLowest(cpu, step, FirstUsable(cpu, step, v, last, fallback), first, last, fallback)
    decreases last + 1 - v
  {
    if v <= last && !Usable(cpu, step, v) { FirstIsLowest(cpu, step, v + 1, last, fallback, first); }
  }

  lemma AutoIsAuto(cpu: Cpu, o: Setting, step: nat)
    requires step < DOT
    ensures IsAuto(cpu, o, step, AutoStep(cpu, o, step))
  {
    if step == UNTRANSPOSE {
      FirstIsLowest(cpu, step, 1, 4, KCB, 1);
    } else if step == COLLECT {
      FirstIsLowest(cpu, step, 1, 5, COLLECT_SCALAR, 1);
    }
  }

  /** What resolve makes of the steps the user left automatic: the best each step has on
      this build for this data, and the automatic dot of the matrix. */
  lemma ResolvedAuto(cpu: Cpu, o: Setting, spec: Spec)
    requires Resolve(cpu, o, spec).Ok?
    ensures Parse(spec).Ok?
    ensures forall s :: 0 <= s < DOT && Looped(o, s) && Parse(spec).value[s] == 0 ==>
              IsAuto(cpu, o, s, Resolve(cpu, o, spec).value[s])
    ensures o.matrix && Parse(spec).value[DOT] == 0 ==> Resolve(cpu, o, spec).value[DOT] == DotNumber(o.dotAuto)
    ensures !o.matrix ==> Resolve(cpu, o, spec).value[ROUTE] == 0 && Resolve(cpu, o, spec).value[DOT] == 0
  {
    CheckedExactly(cpu, o, Parse(spec).value);
    var vals := Parse(spec).value;
    forall s | 0 <= s < DOT && Looped(o, s) && vals[s] == 0 ensures IsAuto(cpu, o, s, Resolve(cpu, o, spec).value[s]) {
      AutoIsAuto(cpu, o, s);
      assert AllFilled(cpu, o, vals)[s] == Filled(cpu, o, vals, s);
    }
  }

  /** A pipeline without automatic steps is accepted exactly when it satisfies the
      constraints, and is then returned as it is. */
  lemma ExplicitIsKept(cpu: Cpu, o: Setting, vals: seq<nat>)
    requires InTables(vals) && vals[DECODE] != 0 && vals[MASK] != 0 && vals[UNTRANSPOSE] != 0 && vals[COLLECT] != 0
    requires o.matrix ==> vals[ROUTE] != 0 && vals[DOT] != 0
    ensures Resolve(cpu, o, Numbers(vals)) == Ok(vals) <==> Satisfies(cpu, o, vals)
    ensures Resolve(cpu, o, Numbers(vals)).Ok? ==> Resolve(cpu, o, Numbers(vals)) == Ok(vals)
  {
    NumbersBack(vals);
    if !(!o.matrix && (vals[ROUTE] != 0 || vals[DOT] != 0)) {
      CheckedExactly(cpu, o, vals);
      assert AllFilled(cpu, o, vals) == vals;
    }
  }

  /** Resolving a resolved pipeline changes nothing, whatever dot is automatic then. */
  lemma ResolveIsIdempotent(cpu: Cpu, o: Setting, spec: Spec, dot: Dot)
    requires TablesOnly(cpu) && Resolve(cpu, o, spec).Ok?
    ensures Resolve(cpu, o.(dotAuto := dot), Numbers(Resolve(cpu, o, spec).value)) == Resolve(cpu, o, spec)
  {
    var vals := Resolve(cpu, o, spec).value;
    ResolveSatisfies(cpu, o, spec);
    SatisfyingInTables(cpu, o, vals);
    ExplicitIsKept(cpu, o.(dotAuto := dot), vals);
  }

  lemma SatisfyingInTables(cpu: Cpu, o: Setting, vals: seq<nat>)
    requires TablesOnly(cpu) && Satisfies(cpu, o, vals)
    ensures InTables(vals) && vals[DECODE] != 0 && vals[MASK] != 0 && vals[UNTRANSPOSE] != 0 && vals[COLLECT] != 0
    ensures o.matrix ==> vals[ROUTE] != 0 && vals[DOT] != 0
  {
    forall s | 0 <= s < NSTEPS ensures vals[s] < |Names(s)| {
      if s < DOT && Looped(o, s) { assert Usable(cpu, s, vals[s]); }
    }
    assert Usable(cpu, 0, vals[0]) && Usable(cpu, 1, vals[1]) && Usable(cpu, 2, vals[2]) && Usable(cpu, 3, vals[3]);
    if o.matrix { assert Usable(cpu, 4, vals[4]) && Usable(cpu, 5, vals[5]); }
  }

  /** A usable dot that takes the pixel type. */
  predicate DotFits(cpu: Cpu, o: Setting) {
    o.matrix ==> DotError(cpu, o, DotNumber(o.dotAuto)).None?
  }

  /** A fully automatic pipeline is never refused when the values auto falls back on run
      here and the automatic dot suits the pixels. */
  lemma AutomaticResolves(cpu: Cpu, o: Setting)
    requires HasFallbacks(cpu) && DotFits(cpu, o)
    ensures Resolve(cpu, o, NoSpec).Ok?
    ensures forall s :: 0 <= s < DOT && Looped(o, s) ==> IsAuto(cpu, o, s, Resolve(cpu, o, NoSpec).value[s])
    ensures o.matrix ==> Resolve(cpu, o, NoSpec).value[DOT] == DotNumber(o.dotAuto)
  {
    CheckedExactly(cpu, o, [0, 0, 0, 0, 0, 0]);
    ResolvedAuto(cpu, o, NoSpec);
  }

  /** A dot that is not one of the fixed-point dots runs on every build, padded-avx2 and
      the narrow one under their conditions. */
  lemma DotTaken(cpu: Cpu, o: Setting, dot: Dot)
    requires forall d :: d != PaddedAvx2 ==> Usable(cpu, DOT, DotNumber(d))
    requires !IsIntDot(dot) && (dot == PaddedAvx2 ==> Usable(cpu, DOT, DotNumber(PaddedAvx2)))
    requires dot == CscNosplitInt ==> IsInteger(o.dtype) && ItemSize(o.dtype) <= 4
    ensures DotError(cpu, o, DotNumber(dot)).None?
  {
    assert dot != PaddedAvx2 ==> Usable(cpu, DOT, DotNumber(dot));
  }

  /** The dot auto_dot names for this CPU and pixel type is one that resolve accepts. */
  lemma AutoDotFits(cpu: Cpu, o: Setting, info: Info, avx2: bool, be: nat)
    requires o.dotAuto == AutoDot(info, avx2, Some(be), IsInteger(o.dtype) && ItemSize(o.dtype) <= 4)
    requires avx2 ==> Usable(cpu, DOT, DotNumber(PaddedAvx2))
    requires forall d :: d != PaddedAvx2 ==> Usable(cpu, DOT, DotNumber(d))
    ensures DotFits(cpu, o)
  {
    LayoutsProof.AutoKnows(info, avx2, be, IsInteger(o.dtype) && ItemSize(o.dtype) <= 4, o.dotAuto);
    DotTaken(cpu, o, o.dotAuto);
  }

  // ---- the C side ---------------------------------------------------------

  /** There is such a build: one that runs every value of every table. */
  lemma FullBuild(x86: bool) returns (cpu: Cpu)
    ensures Registry(cpu) && cpu.x86 == x86
    ensures forall s: nat, v: nat :: Usable(cpu, s, v) <==> s < NSTEPS && 1 <= v < |Names(s)|
  {
    var usable := set s: nat, v: nat | s < NSTEPS && v < 20 && 1 <= v < |Names(s)| :: (s, v);
    cpu := Cpu(x86, usable);
    assert forall s: nat, v: nat :: (s, v) in usable <==> s < NSTEPS && 1 <= v < |Names(s)|;
  }

  lemma {:induction false} CStepsPass(cpu: Cpu, vals: seq<nat>, isDot: bool, step: nat)
    requires |vals| == NSTEPS && step <= NSTEPS && TablesOnly(cpu)
    requires forall s :: 0 <= s < NSTEPS && (isDot || s < ROUTE) ==> Usable(cpu, s, vals[s])
    requires !isDot ==> vals[ROUTE] == 0 && vals[DOT] == 0
    ensures CSteps(cpu, vals, isDot, step) == COk
    decreases NSTEPS - step
  {
    if step < NSTEPS {
      if isDot || step < ROUTE { assert Usable(cpu, step, vals[step]); }
      CStepsPass(cpu, vals, isDot, step + 1);
    }
  }

  lemma {:induction false} CStepsExactly(cpu: Cpu, vals: seq<nat>, isDot: bool, step: nat)
    requires |vals| == NSTEPS && step <= NSTEPS && TablesOnly(cpu)
    ensures CSteps(cpu, vals, isDot, step) == COk <==>
              forall s :: step <= s < NSTEPS ==> if isDot || s < ROUTE then Usable(cpu, s, vals[s]) else vals[s] == 0
    decreases NSTEPS - step
  {
    if step < NSTEPS { CStepsExactly(cpu, vals, isDot, step + 1); }
  }

  lemma DotFacts(n: nat, d: Dtype, dot: Dot)
    requires DotNumber(dot) == n
    ensures DotEntry(n) == EntryOf(dot) && (DotTakes(n, d) <==> Takes(dot, d))
  {
  }

  lemma SomeDot(n: nat) returns (dot: Dot)
    requires 1 <= n < |Names(DOT)|
    ensures DotNumber(dot) == n
  {
    dot := if n == 1 then CscDot else if n == 2 then PaddedDot else if n == 3 then PaddedAvx2 else if n == 4 then CscRun
           else if n == 5 then CscNosplit else if n == 6 then BsbCsr else if n == 7 then BsbCsrNosplit
           else if n == 8 then CscPermute else if n == 9 then CscInt else if n == 10 then CscRunInt
           else if n == 11 then CscRunInt16 else CscNosplitInt;
  }

  lemma LowplanesNames(v: nat)
    requires 1 <= v < |Names(UNTRANSPOSE)|
    ensures Names(UNTRANSPOSE)[v] in {"lowplanes-vbmi", "lowplanes-avx2", "lowplanes-vsx", "lowplanes-c"} <==> v <= LOWPLANES_C
  {
  }

  lemma ScalarName(v: nat)
    requires v < |Names(COLLECT)|
    ensures Names(COLLECT)[v] == "scalar" <==> v == COLLECT_SCALAR
  {
  }

  lemma DotOfEntry(d: Dtype, n: nat, entry: Entry)
    requires 1 <= n < |Names(DOT)|
    ensures DotEntry(n) == entry && DotTakes(n, d) <==> exists dot :: DotNumber(dot) == n && EntryOf(dot) == entry && Takes(dot, d)
  {
    var dot := SomeDot(n);
    DotFacts(n, d, dot);
    forall other | DotNumber(other) == n ensures EntryOf(other) == EntryOf(dot) && (Takes(other, d) <==> Takes(dot, d)) {
      DotFacts(n, d, other);
    }
  }

  /** bslz4_resolve returns 0 exactly for what the C side is to accept. */
  lemma CResolveExactly(cpu: Cpu, d: Dtype, vals: seq<nat>, entry: Option<Entry>)
    requires TablesOnly(cpu) && |vals| == NSTEPS
    ensures CResolve(cpu, d, vals, entry) == COk <==> CSatisfies(cpu, d, vals, entry)
  {
    CStepsExactly(cpu, vals, entry.Some?, 0);
    if CSteps(cpu, vals, entry.Some?, 0) == COk {
      assert Usable(cpu, UNTRANSPOSE, vals[UNTRANSPOSE]) && Usable(cpu, COLLECT, vals[COLLECT]);
      LowplanesNames(vals[UNTRANSPOSE]);
      ScalarName(vals[COLLECT]);
      if entry.Some? {
        assert Usable(cpu, DOT, vals[DOT]);
        DotOfEntry(d, vals[DOT], entry.value);
      }
    }
  }

  /** The C side accepts what resolve returns, through the entry of its dot: also with
      the decode step replaced by 'pixels', or the mask step by 'planes', as the
      objects do after resolving. */
  lemma CAcceptsResolved(cpu: Cpu, o: Setting, vals: seq<nat>, decode: nat, mask: nat)
    requires TablesOnly(cpu) && Satisfies(cpu, o, vals)
    requires decode == vals[DECODE] || (decode == PIXELS && Usable(cpu, DECODE, PIXELS))
    requires mask == vals[MASK] || (mask == MASK_PLANES && Usable(cpu, MASK, MASK_PLANES))
    ensures CResolve(cpu, o.dtype, vals[DECODE := decode][MASK := mask],
                     if o.matrix then Some(DotEntry(vals[DOT])) else None) == COk
  {
    var sent := vals[DECODE := decode][MASK := mask];
    forall s | 0 <= s < NSTEPS && (o.matrix || s < ROUTE) ensures Usable(cpu, s, sent[s]) {
      if s < DOT { assert Looped(o, s) && Usable(cpu, s, vals[s]); }
    }
    CStepsPass(cpu, sent, o.matrix, 0);
  }
}
