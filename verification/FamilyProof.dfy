/** What every interleaving of threads asking a family for layouts keeps. */
module FamilyProof {
  import opened Csc
  import opened Dtypes
  import opened Family
  import opened Layouts
  import LayoutsProof

  /** The key keeps all that build depends on. */
  lemma KeyDecides(plan: Plan, r: Request, r': Request)
    requires plan.Valid() && KeyOf(r) == KeyOf(r')
    ensures Fresh(plan, r) == Fresh(plan, r')
  {
    LayoutsProof.BuildReadsItsKey(r.dot, plan.m, r.be, r'.be, r.dtype, r'.dtype, plan.fixed);
  }

  lemma InitialInv(plan: Plan, s: State)
    requires plan.Valid() && Initial(plan, s)
    ensures Inv(plan, s)
  {
  }

  /** Steps that change only where a thread is, keeping the lock as it should be. */
  lemma MoveKeeps(plan: Plan, s: State, s': State, t: nat, pc: Pc)
    requires plan.Valid() && Inv(plan, s) && t < |s.pcs|
    requires s' == s.(pcs := s.pcs[t := pc], owner := s'.owner)
    requires LockHeld(s') && !s.pcs[t].Freezing? && ThreadOk(plan, s', pc)
    ensures Inv(plan, s')
  {
    forall k | k in s'.built && k !in s'.layouts ensures exists u :: 0 <= u < |s'.pcs| && FreezingKey(s'.pcs[u], k) {
      var u :| 0 <= u < |s.pcs| && FreezingKey(s.pcs[u], k);
      assert FreezingKey(s'.pcs[u], k);
    }
    forall k ensures StoredAt(plan, s', k) { assert StoredAt(plan, s, k); }
    forall u | 0 <= u < |s'.pcs| ensures ThreadOk(plan, s', s'.pcs[u]) {
      if u != t { assert ThreadOk(plan, s, s.pcs[u]); }
    }
  }

  /** A layout found on either look is the stored one. */
  lemma LookKeeps(plan: Plan, s: State, t: nat)
    requires plan.Valid() && Inv(plan, s) && t < |s.pcs| && s.pcs[t].Looking?
    ensures Inv(plan, Step(plan, s, t, Look).value)
  {
    var s' := Step(plan, s, t, Look).value;
    LockStays(s, s', t);
    MoveKeeps(plan, s, s', t, s'.pcs[t]);
  }

  lemma LockStays(s: State, s': State, t: nat)
    requires LockHeld(s) && t < |s.pcs| == |s'.pcs| && s'.owner == s.owner
    requires InLock(s'.pcs[t]) == InLock(s.pcs[t])
    requires forall u :: 0 <= u < |s.pcs| && u != t ==> s'.pcs[u] == s.pcs[u]
    ensures LockHeld(s')
  {
  }

  lemma AcquireKeeps(plan: Plan, s: State, t: nat)
    requires plan.Valid() && Inv(plan, s) && Step(plan, s, t, Acquire).Some?
    ensures Inv(plan, Step(plan, s, t, Acquire).value)
  {
    var s' := Step(plan, s, t, Acquire).value;
    assert LockHeld(s');
    MoveKeeps(plan, s, s', t, s'.pcs[t]);
  }

  lemma ReleaseKeeps(plan: Plan, s: State, t: nat)
    requires plan.Valid() && Inv(plan, s) && Step(plan, s, t, Release).Some?
    ensures Inv(plan, Step(plan, s, t, Release).value)
  {
    var s' := Step(plan, s, t, Release).value;
    assert InLock(s.pcs[t]) && s.owner == Some(t);
    assert LockHeld(s');
    assert ThreadOk(plan, s, s.pcs[t]);
    MoveKeeps(plan, s, s', t, s'.pcs[t]);
  }

  /** The second look that finds a layout, or that fails to build one, stores nothing. */
  lemma NoBuildKeeps(plan: Plan, s: State, t: nat, r: Request, count: nat, shared: set<nat>)
    requires plan.Valid() && Inv(plan, s) && t < |s.pcs| && s.pcs[t] == Holding(r)
    requires KeyOf(r) in s.layouts || Fresh(plan, r).Refused?
    ensures Inv(plan, SecondLook(plan, s, t, r, count, shared))
    ensures SecondLook(plan, s, t, r, count, shared).layouts == s.layouts
  {
    var s' := SecondLook(plan, s, t, r, count, shared);
    LockStays(s, s', t);
    MoveKeeps(plan, s, s', t, s'.pcs[t]);
  }

  /** Only the holder of the lock can be freezing. */
  lemma NoOtherFreezer(s: State, t: nat)
    requires LockHeld(s) && t < |s.pcs| && InLock(s.pcs[t])
    ensures forall u :: 0 <= u < |s.pcs| && u != t ==> !s.pcs[u].Freezing?
  {
    assert s.owner == Some(t);
  }

  /** A key is built only when it never was. */
  lemma NotYetBuilt(plan: Plan, s: State, t: nat, r: Request)
    requires plan.Valid() && Inv(plan, s) && t < |s.pcs| && s.pcs[t] == Holding(r) && KeyOf(r) !in s.layouts
    ensures KeyOf(r) !in s.built
  {
    NoOtherFreezer(s, t);
    assert forall u :: 0 <= u < |s.pcs| ==> !FreezingKey(s.pcs[u], KeyOf(r));
  }

  lemma BuildOnce(plan: Plan, s: State, s': State, t: nat, r: Request)
    requires plan.Valid() && Inv(plan, s) && t < |s.pcs| && s.pcs[t] == Holding(r) && KeyOf(r) !in s.layouts
    requires |s'.pcs| == |s.pcs| && s'.layouts == s.layouts && s'.built == s.built + [KeyOf(r)]
    requires FreezingKey(s'.pcs[t], KeyOf(r)) && forall u :: 0 <= u < |s.pcs| && u != t ==> s'.pcs[u] == s.pcs[u]
    ensures BuiltOnce(s')
  {
    NotYetBuilt(plan, s, t, r);
    NoOtherFreezer(s, t);
    assert forall k, u :: 0 <= u < |s.pcs| ==> !FreezingKey(s.pcs[u], k);
    forall k | k in s'.built && k !in s'.layouts ensures FreezingKey(s'.pcs[t], k) {
    }
  }

  /** New arrays are writeable, but nothing reachable refers to them yet. */
  lemma BuildKeeps(plan: Plan, s: State, t: nat, r: Request, count: nat, shared: set<nat>)
    requires plan.Valid() && Inv(plan, s) && t < |s.pcs| && s.pcs[t] == Holding(r)
    requires KeyOf(r) !in s.layouts && Fresh(plan, r).Success?
    ensures Inv(plan, SecondLook(plan, s, t, r, count, shared))
  {
    var s' := SecondLook(plan, s, t, r, count, shared);
    LockStays(s, s', t);
    BuildOnce(plan, s, s', t, r);
    NoOtherFreezer(s, t);
    forall k ensures StoredAt(plan, s', k) { assert StoredAt(plan, s, k); }
    forall u | 0 <= u < |s'.pcs| ensures ThreadOk(plan, s', s'.pcs[u]) {
      if u != t { assert ThreadOk(plan, s, s.pcs[u]); }
    }
  }

  /** Freezing one more array. */
  lemma FreezeKeeps(plan: Plan, s: State, t: nat, a: nat)
    requires plan.Valid() && Inv(plan, s) && Step(plan, s, t, FreezeOne(a)).Some?
    ensures Inv(plan, Step(plan, s, t, FreezeOne(a)).value)
  {
    var s' := Step(plan, s, t, FreezeOne(a)).value;
    LockStays(s, s', t);
    NoOtherFreezer(s, t);
    forall k | k in s'.built && k !in s'.layouts ensures exists u :: 0 <= u < |s'.pcs| && FreezingKey(s'.pcs[u], k) {
      var u :| 0 <= u < |s.pcs| && FreezingKey(s.pcs[u], k);
      assert FreezingKey(s'.pcs[u], k);
    }
    forall k ensures StoredAt(plan, s', k) { assert StoredAt(plan, s, k); }
    forall u | 0 <= u < |s'.pcs| ensures ThreadOk(plan, s', s'.pcs[u]) {
      assert ThreadOk(plan, s, s.pcs[u]);
    }
  }

  lemma StoreBuilt(s: State, s': State, t: nat, key: Key)
    requires LockHeld(s) && BuiltOnce(s) && t < |s.pcs| == |s'.pcs| && FreezingKey(s.pcs[t], key) && key in s.built
    requires s'.built == s.built && s'.layouts.Keys == s.layouts.Keys + {key}
    requires forall u :: 0 <= u < |s.pcs| && u != t ==> s'.pcs[u] == s.pcs[u]
    ensures BuiltOnce(s')
  {
    NoOtherFreezer(s, t);
    forall k | k in s.built && k !in s.layouts ensures k == key {
      var u :| 0 <= u < |s.pcs| && FreezingKey(s.pcs[u], k);
      assert u == t;
    }
  }

  lemma AnswerStays(plan: Plan, s: State, s': State, r: Request, answer: Answer)
    requires plan.Valid() && Grows(s, s') && AnswerOk(plan, s, r, answer)
    ensures AnswerOk(plan, s', r, answer)
  {
  }

  lemma OthersStay(plan: Plan, s: State, s': State, t: nat, u: nat)
    requires plan.Valid() && Grows(s, s') && LockHeld(s) && t < |s.pcs| && InLock(s.pcs[t])
    requires u < |s.pcs| && u != t && ThreadOk(plan, s, s.pcs[u])
    ensures ThreadOk(plan, s', s.pcs[u])
  {
    NoOtherFreezer(s, t);
    if s.pcs[u].Leaving? || s.pcs[u].Returned? { AnswerStays(plan, s, s', s.pcs[u].r, s.pcs[u].answer); }
  }

  lemma StoredStays(plan: Plan, s: State, s': State, r: Request, obj: Object, k: Key)
    requires plan.Valid() && StoredAt(plan, s, k) && ThreadOk(plan, s, Freezing(r, obj, {}))
    requires s' == s.(layouts := s.layouts[KeyOf(r) := obj], pcs := s'.pcs)
    ensures StoredAt(plan, s', k)
  {
    if k == KeyOf(r) {
      assert s'.layouts[k] == obj;
      forall r' | KeyOf(r') == k ensures Fresh(plan, r') == Success(s'.layouts[k].layout) { KeyDecides(plan, r, r'); }
    } else if k in s.layouts {
      assert s'.layouts[k] == s.layouts[k];
    }
  }

  /** A layout is stored only when all its arrays are frozen. */
  lemma StoreKeeps(plan: Plan, s: State, t: nat)
    requires plan.Valid() && Inv(plan, s) && Step(plan, s, t, Store).Some?
    ensures Inv(plan, Step(plan, s, t, Store).value)
  {
    var s' := Step(plan, s, t, Store).value;
    var r, obj := s.pcs[t].r, s.pcs[t].obj;
    assert ThreadOk(plan, s, s.pcs[t]);
    LockStays(s, s', t);
    StoreBuilt(s, s', t, KeyOf(r));
    forall k ensures StoredAt(plan, s', k) {
      assert StoredAt(plan, s, k);
      StoredStays(plan, s, s', r, obj, k);
    }
    forall u | 0 <= u < |s'.pcs| ensures ThreadOk(plan, s', s'.pcs[u]) {
      if u != t {
        assert ThreadOk(plan, s, s.pcs[u]);
        OthersStay(plan, s, s', t, u);
      }
    }
  }

  /** Every step of every thread keeps the invariant. */
  lemma StepKeeps(plan: Plan, s: State, t: nat, a: Action)
    requires plan.Valid() && Inv(plan, s) && Step(plan, s, t, a).Some?
    ensures Inv(plan, Step(plan, s, t, a).value)
  {
    match a
    case Call(r) =>
      var s' := Step(plan, s, t, a).value;
      LockStays(s, s', t);
      MoveKeeps(plan, s, s', t, s'.pcs[t]);
    case Look => LookKeeps(plan, s, t);
    case Acquire => AcquireKeeps(plan, s, t);
    case LookAgain(count, shared) =>
      var r := s.pcs[t].r;
      if KeyOf(r) in s.layouts || Fresh(plan, r).Refused? {
        NoBuildKeeps(plan, s, t, r, count, shared);
      } else {
        BuildKeeps(plan, s, t, r, count, shared);
      }
    case FreezeOne(x) => FreezeKeeps(plan, s, t, x);
    case Store => StoreKeeps(plan, s, t);
    case Release => ReleaseKeeps(plan, s, t);
    case Return =>
      var s' := Step(plan, s, t, a).value;
      LockStays(s, s', t);
      MoveKeeps(plan, s, s', t, s'.pcs[t]);
  }

  /** The invariant holds after every run from the start: any number of threads, any
      requests, any interleaving. */
  lemma {:induction false} RunKeeps(plan: Plan, s: State, steps: seq<(nat, Action)>)
    requires plan.Valid() && Initial(plan, s)
    ensures Inv(plan, Run(plan, s, steps))
  {
    if steps == [] {
      InitialInv(plan, s);
    } else {
      var n := |steps| - 1;
      RunKeeps(plan, s, steps[..n]);
      var before := Run(plan, s, steps[..n]);
      if Step(plan, before, steps[n].0, steps[n].1).Some? {
        StepKeeps(plan, before, steps[n].0, steps[n].1);
      }
    }
  }

  // ---- object identity ----------------------------------------------------

  /** Every step keeps objects apart: each build makes a new one. */
  lemma StepNamed(plan: Plan, s: State, t: nat, a: Action)
    requires plan.Valid() && LockHeld(s) && Named(s) && Step(plan, s, t, a).Some?
    ensures Named(Step(plan, s, t, a).value)
  {
    var s' := Step(plan, s, t, a).value;
    if InLock(s.pcs[t]) { NoOtherFreezer(s, t); }
    forall u | 0 <= u < |s'.pcs| && s'.pcs[u].Freezing? ensures Unstored(s', s'.pcs[u].obj.id) {
      if u != t || s.pcs[u].Freezing? { assert Unstored(s, s.pcs[u].obj.id); }
    }
    if a.Store? { assert Unstored(s, s.pcs[t].obj.id); }
  }

  lemma {:induction false} RunNamed(plan: Plan, s: State, steps: seq<(nat, Action)>)
    requires plan.Valid() && Initial(plan, s)
    ensures Named(Run(plan, s, steps))
  {
    if steps != [] {
      var n := |steps| - 1;
      RunNamed(plan, s, steps[..n]);
      RunKeeps(plan, s, steps[..n]);
      var before := Run(plan, s, steps[..n]);
      if Step(plan, before, steps[n].0, steps[n].1).Some? { StepNamed(plan, before, steps[n].0, steps[n].1); }
    }
  }

  // ---- what callers see ---------------------------------------------------

  /** Stored layouts stay stored and are never replaced. */
  lemma StepGrows(plan: Plan, s: State, t: nat, a: Action)
    requires plan.Valid() && Inv(plan, s) && Step(plan, s, t, a).Some?
    ensures Grows(s, Step(plan, s, t, a).value)
  {
    assert ThreadOk(plan, s, s.pcs[t]);
  }

  lemma RunStep(plan: Plan, s: State, steps: seq<(nat, Action)>, step: (nat, Action))
    requires plan.Valid() && Initial(plan, s)
    ensures Grows(Run(plan, s, steps), Run(plan, s, steps + [step]))
  {
    RunKeeps(plan, s, steps);
    var before, all := Run(plan, s, steps), steps + [step];
    assert all[..|all| - 1] == steps;
    if Step(plan, before, step.0, step.1).Some? { StepGrows(plan, before, step.0, step.1); }
  }

  lemma {:induction false} RunGrows(plan: Plan, s: State, steps: seq<(nat, Action)>, more: seq<(nat, Action)>)
    requires plan.Valid() && Initial(plan, s)
    ensures Grows(Run(plan, s, steps), Run(plan, s, steps + more))
  {
    if more == [] {
      assert steps + more == steps;
    } else {
      var n := |more| - 1;
      RunGrows(plan, s, steps, more[..n]);
      RunStep(plan, s, steps + more[..n], more[n]);
      assert steps + more == (steps + more[..n]) + [more[n]];
    }
  }

  /** Whatever happens in between, two threads that come back from requests of one key
      have the same object; it is what build gives either of them on its own, its key
      was built once, and none of its arrays can be written then or later. */
  lemma OneLayoutForAll(plan: Plan, s: State, steps: seq<(nat, Action)>, more: seq<(nat, Action)>,
                        t: nat, u: nat, r: Request, r': Request, obj: Object, obj': Object)
    requires plan.Valid() && Initial(plan, s) && KeyOf(r) == KeyOf(r')
    requires t < |Run(plan, s, steps).pcs| && Run(plan, s, steps).pcs[t] == Returned(r, Got(obj))
    requires u < |Run(plan, s, steps + more).pcs| && Run(plan, s, steps + more).pcs[u] == Returned(r', Got(obj'))
    ensures obj == obj'
    ensures Fresh(plan, r) == Fresh(plan, r') == Success(obj.layout)
    ensures obj.arrays !! Run(plan, s, steps).writeable && obj.arrays !! Run(plan, s, steps + more).writeable
    ensures forall i, j :: 0 <= i < j < |Run(plan, s, steps + more).built| ==>
              Run(plan, s, steps + more).built[i] != Run(plan, s, steps + more).built[j]
  {
    var now, later := Run(plan, s, steps), Run(plan, s, steps + more);
    RunKeeps(plan, s, steps);
    RunKeeps(plan, s, steps + more);
    RunGrows(plan, s, steps, more);
    assert ThreadOk(plan, now, now.pcs[t]) && ThreadOk(plan, later, later.pcs[u]);
    assert StoredAt(plan, now, KeyOf(r)) && StoredAt(plan, later, KeyOf(r));
    KeyDecides(plan, r, r');
  }

  /** A failure is the failure of build itself, and nothing is kept of it. */
  lemma FailuresAreNotKept(plan: Plan, s: State, steps: seq<(nat, Action)>, t: nat, r: Request, e: Reason)
    requires plan.Valid() && Initial(plan, s)
    requires t < |Run(plan, s, steps).pcs| && Run(plan, s, steps).pcs[t] == Returned(r, Raised(e))
    ensures Fresh(plan, r) == Refused(e) && KeyOf(r) !in Run(plan, s, steps).layouts
    ensures KeyOf(r) !in Run(plan, s, steps).built
  {
    var now := Run(plan, s, steps);
    RunKeeps(plan, s, steps);
    assert ThreadOk(plan, now, now.pcs[t]);
    assert StoredAt(plan, now, KeyOf(r));
    forall u | 0 <= u < |now.pcs| ensures !FreezingKey(now.pcs[u], KeyOf(r)) {
      assert ThreadOk(plan, now, now.pcs[u]);
      if now.pcs[u].Freezing? && KeyOf(now.pcs[u].r) == KeyOf(r) { KeyDecides(plan, r, now.pcs[u].r); }
    }
  }

  /** Two requests get one object if and only if they have one key: at any two moments of
      a run the objects that two threads came back with are the same object, address
      and all, or of different keys. */
  lemma ObjectIsKey(plan: Plan, s: State, steps: seq<(nat, Action)>, more: seq<(nat, Action)>,
                    t: nat, u: nat, r: Request, r': Request, obj: Object, obj': Object)
    requires plan.Valid() && Initial(plan, s)
    requires t < |Run(plan, s, steps).pcs| && Run(plan, s, steps).pcs[t] == Returned(r, Got(obj))
    requires u < |Run(plan, s, steps + more).pcs| && Run(plan, s, steps + more).pcs[u] == Returned(r', Got(obj'))
    ensures obj.id == obj'.id <==> KeyOf(r) == KeyOf(r')
  {
    var now, later := Run(plan, s, steps), Run(plan, s, steps + more);
    RunKeeps(plan, s, steps);
    RunKeeps(plan, s, steps + more);
    RunNamed(plan, s, steps + more);
    RunGrows(plan, s, steps, more);
    assert ThreadOk(plan, now, now.pcs[t]) && ThreadOk(plan, later, later.pcs[u]);
    assert later.layouts[KeyOf(r)] == obj && later.layouts[KeyOf(r')] == obj';
  }
}
