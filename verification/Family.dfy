/**
  The layouts that the objects of one plan share (`_Family.layout`): read without the
  lock when already there, otherwise built once under it, frozen, and only then
  stored.  Any number of threads take the steps below in any order.
*/
module Family {
  import opened Csc
  import opened Dtypes
  import opened Layouts

  datatype Request = Request(dot: Dot, be: nat, dtype: Dtype)

  /** The block size is kept for the block dots only, the pixel type for csc-permute. */
  datatype Key = Key(dot: Dot, be: Option<nat>, dtype: Option<Dtype>)

  function KeyOf(r: Request): Key {
    Key(r.dot, if IsBlockDot(r.dot) then Some(r.be) else None, if r.dot == CscPermute then Some(r.dtype) else None)
  }

  /** The family's own matrix, and the arrays it froze when it was made. */
  datatype Plan = Plan(m: Matrix, fixed: Option<Fixed>, arrays: set<nat>)
  {
    ghost predicate Valid() {
      m.Valid()
    }
  }

  /** What build gives for a request, on its own. */
  function Fresh(plan: Plan, r: Request): Result<Layout>
    requires plan.Valid()
  {
    Build(r.dot, plan.m, r.be, r.dtype, plan.fixed)
  }

  /** A layout object in memory: its address, and the arrays its args refer to. */
  datatype Object = Object(id: nat, layout: Layout, arrays: set<nat>)

  datatype Answer = Got(obj: Object) | Raised(reason: Reason)

  /** Where a thread is inside layout(): before the first look, before the lock, in
      the lock before the second look, freezing what it built, leaving the lock, and
      back with its answer. */
  datatype Pc =
    | Idle
    | Looking(r: Request)
    | Waiting(r: Request)
    | Holding(r: Request)
    | Freezing(r: Request, obj: Object, left: set<nat>)
    | Leaving(r: Request, answer: Answer)
    | Returned(r: Request, answer: Answer)

  /** built is the history of successful builds; objects and arrays below nextId exist. */
  datatype State = State(
    layouts: map<Key, Object>, owner: Option<nat>, writeable: set<nat>, nextId: nat, pcs: seq<Pc>, built: seq<Key>)

  /** What a thread does next.  Build makes `count` new arrays, which start out
      writeable, and its layout may also refer to arrays of the plan. */
  datatype Action =
    | Call(r: Request) | Look | Acquire | LookAgain(count: nat, shared: set<nat>)
    | FreezeOne(a: nat) | Store | Release | Return

  function NewArrays(nextId: nat, count: nat): (r: set<nat>)
    ensures forall a :: a in r <==> nextId <= a < nextId + count
  {
    if count == 0 then {} else NewArrays(nextId, count - 1) + {nextId + count - 1}
  }

  /** The answer of the second look, in the lock: another thread's layout, the failure
      of build, or a new layout to be frozen. */
  function SecondLook(plan: Plan, s: State, t: nat, r: Request, count: nat, shared: set<nat>): State
    requires plan.Valid() && t < |s.pcs|
  {
    if KeyOf(r) in s.layouts then s.(pcs := s.pcs[t := Leaving(r, Got(s.layouts[KeyOf(r)]))])
    else match Fresh(plan, r)
      case Refused(e) => s.(pcs := s.pcs[t := Leaving(r, Raised(e))])
      case Success(l) =>
        var made := NewArrays(s.nextId + 1, count);
        var arrays := made + shared * plan.arrays;
        s.(pcs := s.pcs[t := Freezing(r, Object(s.nextId, l, arrays), arrays)], writeable := s.writeable + made,
           nextId := s.nextId + 1 + count, built := s.built + [KeyOf(r)])
  }

  /** One step of thread t; None when it cannot take it. */
  function Step(plan: Plan, s: State, t: nat, a: Action): Option<State>
    requires plan.Valid()
  {
    if t >= |s.pcs| then None
    else match (s.pcs[t], a)
      case (Idle, Call(r)) => Some(s.(pcs := s.pcs[t := Looking(r)]))
      case (Looking(r), Look) =>
        var next := if KeyOf(r) in s.layouts then Returned(r, Got(s.layouts[KeyOf(r)])) else Waiting(r);
        Some(s.(pcs := s.pcs[t := next]))
      case (Waiting(r), Acquire) =>
        if s.owner.Some? then None else Some(s.(owner := Some(t), pcs := s.pcs[t := Holding(r)]))
      case (Holding(r), LookAgain(count, shared)) => Some(SecondLook(plan, s, t, r, count, shared))
      case (Freezing(r, obj, left), FreezeOne(x)) =>
        if x !in left then None
        else Some(s.(pcs := s.pcs[t := Freezing(r, obj, left - {x})], writeable := s.writeable - {x}))
      case (Freezing(r, obj, left), Store) =>
        if left != {} then None
        else Some(s.(layouts := s.layouts[KeyOf(r) := obj], pcs := s.pcs[t := Leaving(r, Got(obj))]))
      case (Leaving(r, answer), Release) => Some(s.(owner := None, pcs := s.pcs[t := Returned(r, answer)]))
      case (Returned(_, _), Return) => Some(s.(pcs := s.pcs[t := Idle]))
      case _ => None
  }

  predicate Initial(plan: Plan, s: State) {
    && s.layouts == map[] && s.owner == None && s.writeable == {} && s.built == []
    && (forall a :: a in plan.arrays ==> a < s.nextId)
    && (forall t :: 0 <= t < |s.pcs| ==> s.pcs[t] == Idle)
  }

  /** A run: which thread does what, in order; steps that cannot be taken are skipped. */
  function Run(plan: Plan, s: State, steps: seq<(nat, Action)>): State
    requires plan.Valid()
  {
    if steps == [] then s
    else
      var before := Run(plan, s, steps[..|steps| - 1]);
      match Step(plan, before, steps[|steps| - 1].0, steps[|steps| - 1].1)
      case Some(after) => after
      case None => before
  }

  // ---- the invariant ------------------------------------------------------

  predicate InLock(pc: Pc) {
    pc.Holding? || pc.Freezing? || pc.Leaving?
  }

  ghost predicate LockHeld(s: State) {
    forall t :: 0 <= t < |s.pcs| ==> (InLock(s.pcs[t]) <==> s.owner == Some(t))
  }

  /** A stored layout is what a fresh build gives for every request of its key, and
      all its arrays are frozen. */
  ghost predicate StoredAt(plan: Plan, s: State, k: Key)
    requires plan.Valid()
  {
    k in s.layouts ==>
      && (forall a :: a in s.layouts[k].arrays ==> a !in s.writeable && a < s.nextId)
      && (forall r :: KeyOf(r) == k ==> Fresh(plan, r) == Success(s.layouts[k].layout))
  }

  ghost predicate AnswerOk(plan: Plan, s: State, r: Request, answer: Answer)
    requires plan.Valid()
  {
    match answer
    case Got(obj) => KeyOf(r) in s.layouts && s.layouts[KeyOf(r)] == obj
    case Raised(e) => Fresh(plan, r) == Refused(e)
  }

  ghost predicate ThreadOk(plan: Plan, s: State, pc: Pc)
    requires plan.Valid()
  {
    match pc
    case Freezing(r, obj, left) =>
      && KeyOf(r) !in s.layouts && KeyOf(r) in s.built && Fresh(plan, r) == Success(obj.layout)
      && (forall a :: a in obj.arrays ==> a < s.nextId && (a in s.writeable ==> a in left))
    case Leaving(r, answer) => AnswerOk(plan, s, r, answer)
    case Returned(r, answer) => AnswerOk(plan, s, r, answer)
    case _ => true
  }

  predicate FreezingKey(pc: Pc, k: Key) {
    pc.Freezing? && KeyOf(pc.r) == k
  }

  /** No key is built twice; what has been built is stored or being frozen. */
  ghost predicate BuiltOnce(s: State) {
    && (forall i, j :: 0 <= i < j < |s.built| ==> s.built[i] != s.built[j])
    && (forall k :: k in s.layouts ==> k in s.built)
    && (forall k :: k in s.built && k !in s.layouts ==> exists t :: 0 <= t < |s.pcs| && FreezingKey(s.pcs[t], k))
  }

  ghost predicate Inv(plan: Plan, s: State)
    requires plan.Valid()
  {
    && LockHeld(s) && BuiltOnce(s)
    && (forall k :: StoredAt(plan, s, k))
    && (forall t :: 0 <= t < |s.pcs| ==> ThreadOk(plan, s, s.pcs[t]))
    && (forall a :: a in s.writeable ==> a !in plan.arrays && a < s.nextId)
    && (forall a :: a in plan.arrays ==> a < s.nextId)
  }

  /** Every layout stored in s is still stored, unchanged, in s'. */
  ghost predicate Grows(s: State, s': State) {
    forall k :: k in s.layouts ==> k in s'.layouts && s'.layouts[k] == s.layouts[k]
  }

  /** Objects of different keys are different objects, and so is one being frozen. */
  ghost predicate Named(s: State) {
    && (forall k :: k in s.layouts ==> s.layouts[k].id < s.nextId)
    && (forall k, k' :: k in s.layouts && k' in s.layouts && k != k' ==> s.layouts[k].id != s.layouts[k'].id)
    && (forall t :: 0 <= t < |s.pcs| && s.pcs[t].Freezing? ==> Unstored(s, s.pcs[t].obj.id))
  }

  ghost predicate Unstored(s: State, id: nat) {
    id < s.nextId && forall k :: k in s.layouts ==> s.layouts[k].id != id
  }
}
