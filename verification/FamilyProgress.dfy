/**
  Every thread that asks a family for a layout gets on: it never waits but for a thread
  in the lock, which can always take a step, and its own steps bring it back.
*/
module FamilyProgress {
  import opened Csc
  import opened Dtypes
  import opened Family
  import FamilyProof
  import opened Layouts

  ghost predicate CanStep(plan: Plan, s: State, t: nat)
    requires plan.Valid()
  {
    exists a :: Step(plan, s, t, a).Some?
  }

  /** How far a thread is from coming back; within a stage, how much it has to freeze. */
  function Stage(pc: Pc): nat {
    match pc
    case Idle => 0
    case Returned(_, _) => 1
    case Leaving(_, _) => 2
    case Freezing(_, _, _) => 3
    case Holding(_) => 4
    case Waiting(_) => 5
    case Looking(_) => 6
  }

  function ToFreeze(pc: Pc): set<nat> {
    if pc.Freezing? then pc.left else {}
  }

  /** Every step of a thread in a call brings it nearer to coming back, or leaves it less
      to freeze, and moves no other thread. */
  lemma StepAdvances(plan: Plan, s: State, t: nat, a: Action)
    requires plan.Valid() && t < |s.pcs| && !s.pcs[t].Idle? && Step(plan, s, t, a).Some?
    ensures var s' := Step(plan, s, t, a).value;
            && |s'.pcs| == |s.pcs| && (forall u :: 0 <= u < |s.pcs| && u != t ==> s'.pcs[u] == s.pcs[u])
            && (Stage(s'.pcs[t]) < Stage(s.pcs[t]) ||
                  (Stage(s'.pcs[t]) == Stage(s.pcs[t]) && |ToFreeze(s'.pcs[t])| < |ToFreeze(s.pcs[t])|))
  {
  }

  /** Nothing but the lock, held by another thread, keeps a thread from its next step. */
  lemma StepsUnlessLocked(plan: Plan, s: State, t: nat)
    requires plan.Valid() && t < |s.pcs|
    ensures CanStep(plan, s, t) <==> !(s.pcs[t].Waiting? && s.owner.Some?)
  {
    match s.pcs[t]
    case Idle => assert Step(plan, s, t, Call(Request(CscDot, 0, U16))).Some?;
    case Looking(_) => assert Step(plan, s, t, Look).Some?;
    case Waiting(_) => if s.owner.None? { assert Step(plan, s, t, Acquire).Some?; }
    case Holding(_) => assert Step(plan, s, t, LookAgain(0, {})).Some?;
    case Freezing(_, _, left) =>
      if left == {} {
        assert Step(plan, s, t, Store).Some?;
      } else {
        var x :| x in left;
        assert Step(plan, s, t, FreezeOne(x)).Some?;
      }
    case Leaving(_, _) => assert Step(plan, s, t, Release).Some?;
    case Returned(_, _) => assert Step(plan, s, t, Return).Some?;
  }

  lemma {:induction false} OwnerIsThread(plan: Plan, s: State, steps: seq<(nat, Action)>)
    requires plan.Valid() && Initial(plan, s)
    ensures Run(plan, s, steps).owner.Some? ==> Run(plan, s, steps).owner.value < |Run(plan, s, steps).pcs|
  {
    if steps != [] { OwnerIsThread(plan, s, steps[..|steps| - 1]); }
  }

  /** No deadlock: at every moment of every run a thread can take its next step, or the one
      in the lock can. */
  lemma NoDeadlock(plan: Plan, s: State, steps: seq<(nat, Action)>, t: nat)
    requires plan.Valid() && Initial(plan, s) && t < |Run(plan, s, steps).pcs|
    ensures var now := Run(plan, s, steps);
            CanStep(plan, now, t) || (now.owner.Some? && now.owner.value < |now.pcs| && CanStep(plan, now, now.owner.value))
  {
    var now := Run(plan, s, steps);
    StepsUnlessLocked(plan, now, t);
    OwnerIsThread(plan, s, steps);
    FamilyProof.RunKeeps(plan, s, steps);
    if now.owner.Some? {
      assert InLock(now.pcs[now.owner.value]);
      StepsUnlessLocked(plan, now, now.owner.value);
    }
  }

  /** A layout that is there is returned without the lock, whoever holds it; only for one
      that is not does a thread go on to wait. */
  lemma LookExactly(plan: Plan, s: State, t: nat, r: Request)
    requires plan.Valid() && t < |s.pcs| && s.pcs[t] == Looking(r)
    ensures Step(plan, s, t, Look).Some?
    ensures var s' := Step(plan, s, t, Look).value;
            if KeyOf(r) in s.layouts then s' == s.(pcs := s.pcs[t := Returned(r, Got(s.layouts[KeyOf(r)]))])
            else s' == s.(pcs := s.pcs[t := Waiting(r)])
  {
  }
}
