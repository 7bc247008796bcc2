/**
  The processing pipeline: six step values given by name or number (`parse`), filled
  and checked for an object (`resolve`), written back as names (`describe`), and
  checked once more by the C side (`bslz4_resolve`).
*/
module Pipeline {
  import opened Dtypes
  import opened Layouts

  const DECODE: nat := 0
  const MASK: nat := 1
  const UNTRANSPOSE: nat := 2
  const COLLECT: nat := 3
  const ROUTE: nat := 4
  const DOT: nat := 5
  const NSTEPS: nat := 6

  const STEPS: seq<string> := ["decode", "mask", "untranspose", "collect", "route", "dot"]

  /** The value names of a step; number 0 is auto. */
  function Names(step: nat): (r: seq<string>)
    requires step < NSTEPS
    ensures |r| >= 1
  {
    if step == DECODE then ["auto", "lz4-band", "lz4-zero", "lz4-stock", "zstd", "pixels"]
    else if step == MASK then ["auto", "pixel", "planes", "none"]
    else if step == UNTRANSPOSE then
      ["auto", "lowplanes-vbmi", "lowplanes-avx2", "lowplanes-vsx", "lowplanes-c", "kcb", "neon", "scalar"]
    else if step == COLLECT then ["auto", "avx512cs", "avx2cs", "vsx", "neon", "sse2", "scalar"]
    else if step == ROUTE then ["auto", "ratio", "dense", "sparse", "bpp"]
    else ["auto", "csc", "padded", "padded-avx2", "csc-run", "csc-nosplit", "bsb-csr", "bsb-csr-nosplit",
          "csc-permute", "csc-int", "csc-run-int", "csc-run-int16", "csc-nosplit-int"]
  }

  // The numbers of the values that resolve names.
  const LZ4_BAND: nat := 1
  const LZ4_ZERO: nat := 2
  const ZSTD: nat := 4
  const PIXELS: nat := 5
  const MASK_PIXEL: nat := 1
  const MASK_PLANES: nat := 2
  const MASK_NONE: nat := 3
  const LOWPLANES_C: nat := 4
  const KCB: nat := 5
  const COLLECT_SCALAR: nat := 6
  const BPP: nat := 4

  /** The number of a dot. */
  function DotNumber(d: Dot): (n: nat)
    ensures 1 <= n < |Names(DOT)|
  {
    match d
    case CscDot => 1
    case PaddedDot => 2
    case PaddedAvx2 => 3
    case CscRun => 4
    case CscNosplit => 5
    case BsbCsr => 6
    case BsbCsrNosplit => 7
    case CscPermute => 8
    case CscInt => 9
    case CscRunInt => 10
    case CscRunInt16 => 11
    case CscNosplitInt => 12
  }

  datatype Error =
    | UnknownName(step: nat) | NotANumber(step: nat) | OutOfRange(step: nat) | UnknownStep | WrongLength | NotASequence
    | NoMatrix(step: nat) | Unavailable(step: nat) | PixelsDecode | ZstdData | Lz4Data | MaskedPixels
    | LowplanesType | CollectType | IntegerDotType | NarrowDotType

  datatype Outcome<+T> = Ok(value: T) | Err(error: Error)

  /** One step value as the user may give it. */
  datatype Value = Absent | Name(name: string) | Number(i: int) | Other

  datatype Spec = NoSpec | Scalar(i: int) | Sequence(items: seq<Value>) | Dict(values: map<string, Value>)

  // ---- parse and describe -------------------------------------------------

  function IndexOf(names: seq<string>, name: string): (i: nat)
    requires name in names
    ensures i < |names| && names[i] == name && forall j :: 0 <= j < i ==> names[j] != name
  {
    if names[0] == name then 0 else 1 + IndexOf(names[1..], name)
  }

  function ParseValue(step: nat, v: Value): Outcome<nat>
    requires step < NSTEPS
  {
    match v
    case Absent => Ok(0)
    case Name(name) => if name in Names(step) then Ok(IndexOf(Names(step), name)) else Err(UnknownName(step))
    case Number(i) => if 0 <= i < |Names(step)| then Ok(i) else Err(OutOfRange(step))
    case Other => Err(NotANumber(step))
  }

  function ParseEach(values: seq<Value>): (r: seq<Outcome<nat>>)
    requires |values| == NSTEPS
    ensures |r| == NSTEPS && forall s :: 0 <= s < NSTEPS ==> r[s] == ParseValue(s, values[s])
  {
    seq(NSTEPS, s requires 0 <= s < NSTEPS => ParseValue(s, values[s]))
  }

  /** All the values, or the first refusal. */
  function Gather(parsed: seq<Outcome<nat>>): (r: Outcome<seq<nat>>)
    ensures r.Ok? ==> |r.value| == |parsed|
  {
    if parsed == [] then Ok([])
    else
      var n := |parsed| - 1;
      match Gather(parsed[..n])
      case Err(e) => Err(e)
      case Ok(vals) =>
        match parsed[n]
        case Err(e) => Err(e)
        case Ok(v) => Ok(vals + [v])
  }

  function Lookup(values: map<string, Value>, step: nat): Value
    requires step < NSTEPS
  {
    if STEPS[step] in values then values[STEPS[step]] else Absent
  }

  /** [pipeline.get(s) for s in STEPS] */
  function Lookups(values: map<string, Value>): (r: seq<Value>)
    ensures |r| == NSTEPS && forall s :: 0 <= s < NSTEPS ==> r[s] == Lookup(values, s)
  {
    seq(NSTEPS, s requires 0 <= s < NSTEPS => Lookup(values, s))
  }

  function Parse(spec: Spec): (r: Outcome<seq<nat>>)
    ensures r.Ok? ==> |r.value| == NSTEPS
  {
    match spec
    case NoSpec => Ok([0, 0, 0, 0, 0, 0])
    case Scalar(i) => if i == 0 then Ok([0, 0, 0, 0, 0, 0]) else Err(NotASequence)
    case Dict(values) =>
      if exists k :: k in values && k !in STEPS then Err(UnknownStep)
      else Gather(ParseEach(Lookups(values)))
    case Sequence(items) => if |items| != NSTEPS then Err(WrongLength) else Gather(ParseEach(items))
  }

  function DescribeValue(step: nat, v: nat): Value
    requires step < NSTEPS && v < |Names(step)|
  {
    if v == 0 then Absent else Name(Names(step)[v])
  }

  predicate InTables(vals: seq<nat>) {
    |vals| == NSTEPS && forall s :: 0 <= s < NSTEPS ==> vals[s] < |Names(s)|
  }

  /** The step names of parsed values, None for a step left auto. */
  function Describe(vals: seq<nat>): (r: Spec)
    requires InTables(vals)
    ensures r.Dict? && forall k :: k in r.values ==> k in STEPS
  {
    Dict(map k | k in STEPS :: DescribeValue(IndexOf(STEPS, k), vals[IndexOf(STEPS, k)]))
  }

  /** describe: without a pipeline the table of every step's values, lists that are
      neither names nor numbers; else the names of its parsed values. */
  function DescribeSpec(spec: Spec): Outcome<Spec> {
    if spec == NoSpec then Ok(Dict(map k | k in STEPS :: Other))
    else match Parse(spec)
      case Err(e) => Err(e)
      case Ok(vals) =>
        ParsedValues(spec);
        Ok(Describe(vals))
  }

  lemma ParsedValues(spec: Spec)
    requires Parse(spec).Ok?
    ensures InTables(Parse(spec).value)
  {
    match spec
    case Dict(values) => GatheredValues(Lookups(values));
    case Sequence(items) => GatheredValues(items);
    case _ =>
  }

  lemma GatheredValues(values: seq<Value>)
    requires |values| == NSTEPS && Gather(ParseEach(values)).Ok?
    ensures InTables(Gather(ParseEach(values)).value)
  {
    GatherAll(ParseEach(values));
    var vals := Gather(ParseEach(values)).value;
    forall s | 0 <= s < NSTEPS ensures vals[s] < |Names(s)| {
      assert ParseValue(s, values[s]) == Ok(vals[s]);
    }
  }

  lemma {:induction false} GatherAll(parsed: seq<Outcome<nat>>)
    ensures Gather(parsed).Ok? <==> forall s :: 0 <= s < |parsed| ==> parsed[s].Ok?
    ensures Gather(parsed).Ok? ==> forall s :: 0 <= s < |parsed| ==> parsed[s] == Ok(Gather(parsed).value[s])
  {
    if parsed != [] { GatherAll(parsed[..|parsed| - 1]); }
  }

  // ---- resolve ------------------------------------------------------------

  datatype Codec = Lz4 | Zstd

  /** What the build can run here: x86 or not, and the usable (step, value) pairs. */
  datatype Cpu = Cpu(x86: bool, usable: set<(nat, nat)>)

  predicate Usable(cpu: Cpu, step: nat, v: nat) {
    v >= 1 && (step, v) in cpu.usable
  }

  /** What resolve is told about the object besides its pipeline. */
  datatype Setting = Setting(dtype: Dtype, codec: Codec, allValid: bool, matrix: bool, dotAuto: Dot)

  /** The first usable of the values v .. last, else the fallback. */
  function FirstUsable(cpu: Cpu, step: nat, v: nat, last: nat, fallback: nat): (r: nat)
    ensures r == fallback || (v <= r <= last && Usable(cpu, step, r))
    decreases last + 1 - v
  {
    if v > last then fallback else if Usable(cpu, step, v) then v else FirstUsable(cpu, step, v + 1, last, fallback)
  }

  function AutoStep(cpu: Cpu, o: Setting, step: nat): nat
    requires step < DOT
  {
    if step == DECODE then
      if o.codec == Zstd then ZSTD else if cpu.x86 then LZ4_BAND else LZ4_ZERO
    else if step == MASK then
      if o.allValid then MASK_NONE else MASK_PIXEL
    else if step == UNTRANSPOSE then
      if o.dtype == U16 then FirstUsable(cpu, step, 1, LOWPLANES_C, KCB) else KCB
    else if step == COLLECT then
      if o.dtype == U16 || o.dtype == U32 then FirstUsable(cpu, step, 1, COLLECT_SCALAR - 1, COLLECT_SCALAR)
      else COLLECT_SCALAR
    else BPP
  }

  /** Steps that resolve fills and checks in its loop. */
  predicate Looped(o: Setting, step: nat) {
    step < ROUTE || (step == ROUTE && o.matrix)
  }

  function Filled(cpu: Cpu, o: Setting, vals: seq<nat>, step: nat): nat
    requires |vals| == NSTEPS && step < NSTEPS
  {
    if step < DOT && Looped(o, step) && vals[step] == 0 then AutoStep(cpu, o, step)
    else if step == DOT && o.matrix && vals[DOT] == 0 then DotNumber(o.dotAuto)
    else vals[step]
  }

  function AllFilled(cpu: Cpu, o: Setting, vals: seq<nat>): (r: seq<nat>)
    requires |vals| == NSTEPS
    ensures |r| == NSTEPS
  {
    [Filled(cpu, o, vals, 0), Filled(cpu, o, vals, 1), Filled(cpu, o, vals, 2), Filled(cpu, o, vals, 3),
     Filled(cpu, o, vals, 4), Filled(cpu, o, vals, 5)]
  }

  /** The first step of the loop whose value this CPU or build cannot run. */
  function FirstUnavailable(cpu: Cpu, o: Setting, vals: seq<nat>, step: nat): Option<nat>
    requires |vals| == NSTEPS
    decreases NSTEPS - step
  {
    if step >= DOT then None
    else if Looped(o, step) && !Usable(cpu, step, vals[step]) then Some(step)
    else FirstUnavailable(cpu, o, vals, step + 1)
  }

  /** What the data and the pixel type allow, checked after the loop. */
  function DataError(o: Setting, vals: seq<nat>): Option<Error>
    requires |vals| == NSTEPS
  {
    if vals[DECODE] == PIXELS then Some(PixelsDecode)
    else if o.codec == Zstd && vals[DECODE] != ZSTD then Some(ZstdData)
    else if o.codec != Zstd && vals[DECODE] == ZSTD then Some(Lz4Data)
    else if vals[MASK] == MASK_NONE && !o.allValid then Some(MaskedPixels)
    else if 1 <= vals[UNTRANSPOSE] <= LOWPLANES_C && o.dtype != U16 then Some(LowplanesType)
    else if vals[COLLECT] != COLLECT_SCALAR && o.dtype != U16 && o.dtype != U32 then Some(CollectType)
    else None
  }

  function DotError(cpu: Cpu, o: Setting, dot: nat): Option<Error> {
    if !Usable(cpu, DOT, dot) then Some(Unavailable(DOT))
    else if 9 <= dot <= 11 && !IsInteger(o.dtype) then Some(IntegerDotType)
    else if dot == 12 && (!IsInteger(o.dtype) || ItemSize(o.dtype) > 4) then Some(NarrowDotType)
    else None
  }

  /** The loop of resolve up to a step: the filled values or the first unusable step. */
  function Checked(cpu: Cpu, o: Setting, vals: seq<nat>): (r: Outcome<seq<nat>>)
    requires |vals| == NSTEPS
    ensures r.Ok? ==> |r.value| == NSTEPS
  {
    var filled := AllFilled(cpu, o, vals);
    match FirstUnavailable(cpu, o, filled, 0)
    case Some(s) => Err(Unavailable(s))
    case None =>
      match DataError(o, filled)
      case Some(e) => Err(e)
      case None =>
        if !o.matrix then Ok(filled)
        else match DotError(cpu, o, filled[DOT])
          case Some(e) => Err(e)
          case None => Ok(filled)
  }

  function Resolve(cpu: Cpu, o: Setting, spec: Spec): (r: Outcome<seq<nat>>)
    ensures r.Ok? ==> |r.value| == NSTEPS
  {
    match Parse(spec)
    case Err(e) => Err(e)
    case Ok(vals) =>
      if !o.matrix && vals[ROUTE] != 0 then Err(NoMatrix(ROUTE))
      else if !o.matrix && vals[DOT] != 0 then Err(NoMatrix(DOT))
      else Checked(cpu, o, vals)
  }

  // ---- what a resolved pipeline is ----------------------------------------

  /** Every step is set to a value this CPU runs and this data allows; route and dot
      are unset without a matrix. */
  predicate Satisfies(cpu: Cpu, o: Setting, vals: seq<nat>) {
    && |vals| == NSTEPS
    && (forall s :: 0 <= s < DOT && Looped(o, s) ==> Usable(cpu, s, vals[s]))
    && vals[DECODE] != PIXELS
    && (vals[DECODE] == ZSTD <==> o.codec == Zstd)
    && (vals[MASK] == MASK_NONE ==> o.allValid)
    && (vals[UNTRANSPOSE] <= LOWPLANES_C ==> o.dtype == U16)
    && (vals[COLLECT] != COLLECT_SCALAR ==> o.dtype == U16 || o.dtype == U32)
    && (if o.matrix then DotError(cpu, o, vals[DOT]).None? else vals[ROUTE] == 0 && vals[DOT] == 0)
  }

  /** The lowest usable of the values first .. last, or the fallback when none is. */
  ghost predicate IsLowest(cpu: Cpu, step: nat, v: nat, first: nat, last: nat, fallback: nat) {
    || (first <= v <= last && Usable(cpu, step, v) && forall w :: first <= w < v ==> !Usable(cpu, step, w))
    || (v == fallback && forall w :: first <= w <= last ==> !Usable(cpu, step, w))
  }

  /** What an automatic step is: the decoder of the data's codec (with the fill of the
      machine), no mask test only when there is nothing to test, the best untranspose and
      collect this build runs for the pixel type, and the route by bits per pixel. */
  ghost predicate IsAuto(cpu: Cpu, o: Setting, step: nat, v: nat) {
    if step == DECODE then
      v == (if o.codec == Zstd then ZSTD else if cpu.x86 then LZ4_BAND else LZ4_ZERO)
    else if step == MASK then v == (if o.allValid then MASK_NONE else MASK_PIXEL)
    else if step == UNTRANSPOSE then
      if o.dtype == U16 then IsLowest(cpu, step, v, 1, 4, KCB) else v == KCB
    else if step == COLLECT then
      if o.dtype == U16 || o.dtype == U32 then IsLowest(cpu, step, v, 1, 5, COLLECT_SCALAR) else v == COLLECT_SCALAR
    else step == ROUTE && v == BPP
  }

  /** The values auto falls back on run here; on every build of the source they do. */
  predicate HasFallbacks(cpu: Cpu) {
    && Usable(cpu, DECODE, LZ4_BAND) && Usable(cpu, DECODE, LZ4_ZERO) && Usable(cpu, DECODE, ZSTD)
    && Usable(cpu, MASK, MASK_PIXEL) && Usable(cpu, MASK, MASK_NONE)
    && Usable(cpu, UNTRANSPOSE, KCB) && Usable(cpu, COLLECT, COLLECT_SCALAR) && Usable(cpu, ROUTE, BPP)
  }

  /** What bslz4_step_available answers on every build: all decode, mask and route
      values, kcb, the scalar collect, and every dot but padded-avx2. */
  ghost predicate Registry(cpu: Cpu) {
    && TablesOnly(cpu) && HasFallbacks(cpu)
    && Usable(cpu, DECODE, PIXELS) && Usable(cpu, MASK, MASK_PLANES)
    && (forall d :: d != PaddedAvx2 ==> Usable(cpu, DOT, DotNumber(d)))
  }

  // ---- the C side ---------------------------------------------------------

  datatype CStatus = COk | BadPipeline | CUnavailable | BadDtype | BadLayout

  /** The entry each dot number is reached through (bslz4_dots). */
  function DotEntry(n: nat): Entry {
    if n == 2 || n == 3 then PaddedEntry else if n == 6 || n == 7 then BsbEntry else CscEntry
  }

  predicate DotTakes(n: nat, d: Dtype) {
    if 9 <= n <= 11 then IsInteger(d) else if n == 12 then IsInteger(d) && ItemSize(d) <= 4 else true
  }

  /** The loop of bslz4_resolve: unknown values (0 included) and unavailable ones. */
  function CSteps(cpu: Cpu, vals: seq<nat>, isDot: bool, step: nat): CStatus
    requires |vals| == NSTEPS && step <= NSTEPS
    decreases NSTEPS - step
  {
    if step == NSTEPS then COk
    else if !isDot && step >= ROUTE then
      if vals[step] != 0 then BadPipeline else CSteps(cpu, vals, isDot, step + 1)
    else if vals[step] == 0 || vals[step] >= |Names(step)| then BadPipeline
    else if !Usable(cpu, step, vals[step]) then CUnavailable
    else CSteps(cpu, vals, isDot, step + 1)
  }

  /** bslz4_resolve for a call through the entry of a layout, or without a matrix. */
  function CResolve(cpu: Cpu, d: Dtype, vals: seq<nat>, entry: Option<Entry>): CStatus
    requires |vals| == NSTEPS
  {
    var steps := CSteps(cpu, vals, entry.Some?, 0);
    if steps != COk then steps
    else if vals[UNTRANSPOSE] <= LOWPLANES_C && d != U16 then BadDtype
    else if vals[COLLECT] != COLLECT_SCALAR && d != U16 && d != U32 then BadDtype
    else if entry.Some? && DotEntry(vals[DOT]) != entry.value then BadLayout
    else if entry.Some? && !DotTakes(vals[DOT], d) then BadDtype
    else COk
  }

  /** What the C side accepts: every step known, set and available (route and dot unset
      without a matrix), the u16 kernels for u16 pixels, the vector collects for u16 and
      u32, and a dot of this entry that takes the pixel type. */
  ghost predicate CSatisfies(cpu: Cpu, d: Dtype, vals: seq<nat>, entry: Option<Entry>) {
    && |vals| == NSTEPS
    && (forall s :: 0 <= s < NSTEPS && (entry.Some? || s < ROUTE) ==> vals[s] < |Names(s)| && Usable(cpu, s, vals[s]))
    && (entry.None? ==> vals[ROUTE] == 0 && vals[DOT] == 0)
    && (Names(UNTRANSPOSE)[vals[UNTRANSPOSE]] in {"lowplanes-vbmi", "lowplanes-avx2", "lowplanes-vsx", "lowplanes-c"} ==> d == U16)
    && (Names(COLLECT)[vals[COLLECT]] != "scalar" ==> d == U16 || d == U32)
    && (entry.Some? ==> exists dot :: DotNumber(dot) == vals[DOT] && EntryOf(dot) == entry.value && Takes(dot, d))
  }

  /** The C entry of a dot, and the pixels it takes. */
  function EntryOf(dot: Dot): Entry {
    if dot == PaddedDot || dot == PaddedAvx2 then PaddedEntry else if dot == BsbCsr || dot == BsbCsrNosplit then BsbEntry else CscEntry
  }

  predicate Takes(dot: Dot, d: Dtype) {
    (IsIntDot(dot) ==> IsInteger(d)) && (dot == CscNosplitInt ==> IsInteger(d) && ItemSize(d) <= 4)
  }

  /** The build knows no values beyond its tables. */
  ghost predicate TablesOnly(cpu: Cpu) {
    forall s: nat, v: nat :: (s, v) in cpu.usable ==> s < NSTEPS && 1 <= v < |Names(s)|
  }
}
