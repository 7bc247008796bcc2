/**
  The layout cache of the ndarray fast path (`c2py_pin_ndarray`) under the release and
  acquire rules of section 7.17.3 of C11: every thread reads any store it has not yet
  seen overwritten; an acquire load of a release store brings what the storing thread
  had seen and done before it.
*/
module NdarrayLayout {
  /** What a thread has seen of each field: the time of a store in the field's order. */
  datatype View = View(ty: real, off: real, probed: real)

  /** A store: its value and, for a release store, the view of its thread. */
  datatype Message = Message(value: nat, view: View)

  type History = map<real, Message>

  datatype Memory = Memory(ty: History, off: History, probed: History)

  /** A thread between two accesses; tp is the type of the object it is given. */
  datatype Phase =
    | Idle
    | Match(tp: nat)
    | AskProbed(tp: nat)
    | Scan(tp: nat)
    | SetOff(tp: nat)
    | SetProbed(tp: nat)
    | SetType(tp: nat)
    | Fill(tp: nat)

  datatype Thread = Thread(phase: Phase, view: View)

  /** An object of type tp was read with an offset. */
  datatype Use = Use(tp: nat, off: nat)

  datatype State = State(memory: Memory, threads: seq<Thread>, uses: seq<Use>)

  /** The types named numpy.ndarray, and the offset of the data pointer in their objects. */
  datatype Types = Types(arrays: set<nat>, off: nat -> nat)

  const NULL: nat := 0
  const START: View := View(0.0, 0.0, 0.0)

  function Init(threads: nat): State {
    State(Memory(map[0.0 := Message(NULL, START)], map[0.0 := Message(0, START)], map[0.0 := Message(0, START)]),
          seq(threads, _ => Thread(Idle, START)), [])
  }

  function Later(a: real, b: real): real {
    if a < b then b else a
  }

  function Join(a: View, b: View): View {
    View(Later(a.ty, b.ty), Later(a.off, b.off), Later(a.probed, b.probed))
  }

  /** One access; `at` is the time of the store that is read, or of the new store. */
  datatype Action =
    | Begin(tp: nat)
    | LoadType(at: real)
    | LoadProbed(at: real)
    | Probe(found: bool)
    | StoreOff(at: real)
    | StoreProbed(at: real)
    | StoreType(at: real)
    | LoadOff(at: real)

  /** Whether a thread can do an access now: a load reads a store not older than the
      last it knows of, a store is placed after those. */
  predicate Enabled(s: State, i: nat, a: Action)
    requires i < |s.threads|
  {
    var t := s.threads[i];
    match a
    case Begin(tp) => t.phase.Idle? && tp != NULL
    case LoadType(at) => t.phase.Match? && at in s.memory.ty && at >= t.view.ty
    case LoadProbed(at) => t.phase.AskProbed? && at in s.memory.probed && at >= t.view.probed
    case Probe(found) => t.phase.Scan?
    case StoreOff(at) => t.phase.SetOff? && at !in s.memory.off && at > t.view.off
    case StoreProbed(at) => t.phase.SetProbed? && at !in s.memory.probed && at > t.view.probed
    case StoreType(at) => t.phase.SetType? && at !in s.memory.ty && at > t.view.ty
    case LoadOff(at) => t.phase.Fill? && at in s.memory.off && at >= t.view.off
  }

  function Put(s: State, i: nat, t: Thread): State
    requires i < |s.threads|
  {
    s.(threads := s.threads[i := t])
  }

  /** The state after an access.  The type is loaded with acquire and stored with
      release, the two others relaxed. */
  function Apply(c: Types, s: State, i: nat, a: Action): State
    requires i < |s.threads| && Enabled(s, i, a)
  {
    var t := s.threads[i];
    match a
    case Begin(tp) => Put(s, i, t.(phase := Match(tp)))
    case LoadType(at) =>
      var m := s.memory.ty[at];
      var view := Join(t.view.(ty := at), m.view);
      Put(s, i, Thread(if m.value == t.phase.tp then Fill(t.phase.tp) else AskProbed(t.phase.tp), view))
    case LoadProbed(at) =>
      var asks := s.memory.probed[at].value == 0 && t.phase.tp in c.arrays;
      Put(s, i, Thread(if asks then Scan(t.phase.tp) else Idle, t.view.(probed := at)))
    case Probe(found) => Put(s, i, t.(phase := if found then SetOff(t.phase.tp) else Idle))
    case StoreOff(at) =>
      var m := Message(c.off(t.phase.tp), START.(off := at));
      Put(s, i, Thread(SetProbed(t.phase.tp), t.view.(off := at))).(memory := s.memory.(off := s.memory.off[at := m]))
    case StoreProbed(at) =>
      var m := Message(1, START.(probed := at));
      Put(s, i, Thread(SetType(t.phase.tp), t.view.(probed := at))).(memory := s.memory.(probed := s.memory.probed[at := m]))
    case StoreType(at) =>
      var view := t.view.(ty := at);
      Put(s, i, Thread(Idle, view)).(memory := s.memory.(ty := s.memory.ty[at := Message(t.phase.tp, view)]))
    case LoadOff(at) =>
      Put(s, i, Thread(Idle, t.view.(off := at))).(uses := s.uses + [Use(t.phase.tp, s.memory.off[at].value)])
  }

  datatype Step = Step(thread: nat, action: Action)

  /** The state after a run of enabled accesses. */
  predicate Runs(c: Types, s: State, run: seq<Step>, t: State)
    decreases |run|
  {
    if run == [] then s == t
    else
      run[0].thread < |s.threads| && Enabled(s, run[0].thread, run[0].action)
      && Runs(c, Apply(c, s, run[0].thread, run[0].action), run[1..], t)
  }

  /** Every use so far read the offset of its own type. */
  predicate Safe(c: Types, s: State) {
    forall k :: 0 <= k < |s.uses| ==> s.uses[k].off == c.off(s.uses[k].tp)
  }

  /** Every run of n threads is safe. */
  ghost predicate AlwaysSafe(c: Types, n: nat) {
    forall run: seq<Step>, t: State :: Runs(c, Init(n), run, t) ==> Safe(c, t)
  }

  predicate OneOffset(c: Types) {
    forall a, b :: a in c.arrays && b in c.arrays ==> c.off(a) == c.off(b)
  }

  // ---- the invariant ------------------------------------------------------

  /** Only array types are published, by threads that had stored an offset. */
  ghost predicate TypesPublished(c: Types, m: Memory) {
    forall at :: at in m.ty && m.ty[at].value != NULL ==> m.ty[at].value in c.arrays && m.ty[at].view.off > 0.0
  }

  /** But for the initial one every offset is that of an array type. */
  ghost predicate OffsetsKnown(c: Types, m: Memory) {
    forall at :: at in m.off && at > 0.0 ==> exists tp :: tp in c.arrays && m.off[at].value == c.off(tp)
  }

  ghost predicate ThreadKnows(c: Types, t: Thread) {
    && t.view.off >= 0.0
    && (!t.phase.Idle? ==> t.phase.tp != NULL)
    && (t.phase.Scan? || t.phase.SetOff? || t.phase.SetProbed? || t.phase.SetType? || t.phase.Fill? ==> t.phase.tp in c.arrays)
    && (t.phase.SetProbed? || t.phase.SetType? || t.phase.Fill? ==> t.view.off > 0.0)
  }

  ghost predicate Inv(c: Types, s: State) {
    && TypesPublished(c, s.memory) && OffsetsKnown(c, s.memory)
    && forall i :: 0 <= i < |s.threads| ==> ThreadKnows(c, s.threads[i])
  }
}
