/** Every run publishes only offsets that were stored, and when reading them is safe. */
module NdarrayLayoutProof {
  import opened NdarrayLayout

  lemma InitInv(c: Types, threads: nat)
    ensures Inv(c, Init(threads)) && Safe(c, Init(threads))
  {
  }

  /** Every access keeps the invariant: the release store of a type comes after the
      thread's own store of an offset, and who reads the type has that store behind it. */
  lemma ApplyKeeps(c: Types, s: State, i: nat, a: Action)
    requires Inv(c, s) && i < |s.threads| && Enabled(s, i, a)
    ensures Inv(c, Apply(c, s, i, a))
  {
    var t := s.threads[i];
    assert ThreadKnows(c, t);
    var s' := Apply(c, s, i, a);
    assert ThreadKnows(c, s'.threads[i]);
  }

  /** A use reads the offset of some array type, never the initial one. */
  lemma UseKnown(c: Types, s: State, i: nat, a: Action)
    requires Inv(c, s) && i < |s.threads| && Enabled(s, i, a) && a.LoadOff?
    ensures s.threads[i].phase.tp in c.arrays
    ensures exists tp :: tp in c.arrays && s.memory.off[a.at].value == c.off(tp)
  {
    assert ThreadKnows(c, s.threads[i]);
  }

  lemma ApplySafe(c: Types, s: State, i: nat, a: Action)
    requires Inv(c, s) && Safe(c, s) && OneOffset(c) && i < |s.threads| && Enabled(s, i, a)
    ensures Safe(c, Apply(c, s, i, a))
  {
    if a.LoadOff? { UseKnown(c, s, i, a); }
  }

  lemma {:induction false} RunKeeps(c: Types, s: State, run: seq<Step>, t: State)
    requires Inv(c, s) && Runs(c, s, run, t)
    ensures Inv(c, t) && (Safe(c, s) && OneOffset(c) ==> Safe(c, t))
    decreases |run|
  {
    if run != [] {
      var i, a := run[0].thread, run[0].action;
      ApplyKeeps(c, s, i, a);
      if Safe(c, s) && OneOffset(c) { ApplySafe(c, s, i, a); }
      RunKeeps(c, Apply(c, s, i, a), run[1..], t);
    }
  }

  // ---- two offsets --------------------------------------------------------

  lemma {:induction false} RunsOn(c: Types, s: State, first: seq<Step>, mid: State, rest: seq<Step>, t: State)
    requires Runs(c, s, first, mid) && Runs(c, mid, rest, t)
    ensures Runs(c, s, first + rest, t)
    decreases |first|
  {
    if first == [] {
      assert first + rest == rest;
    } else {
      var i, a := first[0].thread, first[0].action;
      RunsOn(c, Apply(c, s, i, a), first[1..], mid, rest, t);
      assert (first + rest)[1..] == first[1..] + rest;
    }
  }

  lemma RunsOne(c: Types, s: State, i: nat, a: Action, t: State)
    requires i < |s.threads| && Enabled(s, i, a) && t == Apply(c, s, i, a)
    ensures Runs(c, s, [Step(i, a)], t)
  {
    assert Runs(c, t, [], t);
  }

  /** One more access. */
  lemma RunsMore(c: Types, s: State, run: seq<Step>, mid: State, i: nat, a: Action, t: State)
    requires Runs(c, s, run, mid) && i < |mid.threads| && Enabled(mid, i, a) && t == Apply(c, mid, i, a)
    ensures Runs(c, s, run + [Step(i, a)], t)
  {
    RunsOne(c, mid, i, a, t);
    RunsOn(c, s, run, mid, [Step(i, a)], t);
  }

  /** Two threads that meet arrays of two types at once both go on to probe. */
  lemma BothScan(c: Types, a: nat, b: nat, n: nat) returns (run: seq<Step>, t: State)
    requires a in c.arrays && b in c.arrays && a != NULL && b != NULL && n >= 2
    ensures Runs(c, Init(n), run, t) && |t.threads| == n && t.memory == Init(n).memory && t.uses == []
    ensures t.threads[0] == Thread(Scan(a), START) && t.threads[1] == Thread(Scan(b), START)
  {
    var s := Init(n);
    var r, m := Asks(c, s, 0, a);
    var r', m' := Asks(c, m, 1, b);
    RunsOn(c, s, r, m, r', m');
    run, t := r + r', m';
  }

  lemma Asks(c: Types, s: State, i: nat, tp: nat) returns (run: seq<Step>, t: State)
    requires tp in c.arrays && tp != NULL && i < |s.threads| && s.threads[i] == Thread(Idle, START)
    requires s.memory == Init(0).memory
    ensures Runs(c, s, run, t) && t == Put(s, i, Thread(Scan(tp), START))
  {
    var s1 := Apply(c, s, i, Begin(tp));
    var s2 := Apply(c, s1, i, LoadType(0.0));
    t := Apply(c, s2, i, LoadProbed(0.0));
    RunsOne(c, s, i, Begin(tp), s1);
    RunsMore(c, s, [Step(i, Begin(tp))], s1, i, LoadType(0.0), s2);
    run := [Step(i, Begin(tp))] + [Step(i, LoadType(0.0))];
    RunsMore(c, s, run, s2, i, LoadProbed(0.0), t);
    run := run + [Step(i, LoadProbed(0.0))];
  }

  /** A thread that probes stores its offset. */
  lemma StoresOff(c: Types, s: State, i: nat, tp: nat, at: real) returns (run: seq<Step>, t: State)
    requires i < |s.threads| && s.threads[i] == Thread(Scan(tp), START) && at > 0.0 && at !in s.memory.off
    ensures Runs(c, s, run, t) && t.uses == s.uses && |t.threads| == |s.threads|
    ensures t.threads == s.threads[i := Thread(SetProbed(tp), START.(off := at))]
    ensures t.memory == s.memory.(off := s.memory.off[at := Message(c.off(tp), START.(off := at))])
  {
    var s1 := Apply(c, s, i, Probe(true));
    t := Apply(c, s1, i, StoreOff(at));
    RunsOne(c, s, i, Probe(true), s1);
    RunsMore(c, s, [Step(i, Probe(true))], s1, i, StoreOff(at), t);
    run := [Step(i, Probe(true))] + [Step(i, StoreOff(at))];
  }

  /** It publishes its type, meets the type again and reads the offset of another. */
  lemma PublishesAndUses(c: Types, s: State, tp: nat, other: nat) returns (run: seq<Step>, t: State)
    requires |s.threads| > 0 && s.threads[0] == Thread(SetProbed(tp), START.(off := 1.0)) && tp != NULL
    requires 1.0 !in s.memory.probed && 1.0 !in s.memory.ty && 2.0 in s.memory.off && s.memory.off[2.0].value == c.off(other)
    requires s.uses == []
    ensures Runs(c, s, run, t) && t.uses == [Use(tp, c.off(other))]
  {
    var s1 := Apply(c, s, 0, StoreProbed(1.0));
    var s2 := Apply(c, s1, 0, StoreType(1.0));
    var s3 := Apply(c, s2, 0, Begin(tp));
    var s4 := Apply(c, s3, 0, LoadType(1.0));
    assert s4.threads[0].phase == Fill(tp) && s4.threads[0].view.off == 1.0;
    t := Apply(c, s4, 0, LoadOff(2.0));
    RunsOne(c, s, 0, StoreProbed(1.0), s1);
    run := [Step(0, StoreProbed(1.0))];
    RunsMore(c, s, run, s1, 0, StoreType(1.0), s2);
    run := run + [Step(0, StoreType(1.0))];
    RunsMore(c, s, run, s2, 0, Begin(tp), s3);
    run := run + [Step(0, Begin(tp))];
    RunsMore(c, s, run, s3, 0, LoadType(1.0), s4);
    run := run + [Step(0, LoadType(1.0))];
    RunsMore(c, s, run, s4, 0, LoadOff(2.0), t);
    run := run + [Step(0, LoadOff(2.0))];
  }

  /** Two threads probe arrays of two types at once; the first then meets its type in
      the cache and reads the offset the other stored. */
  lemma ClashRun(c: Types, a: nat, b: nat, n: nat) returns (run: seq<Step>, t: State)
    requires a in c.arrays && b in c.arrays && a != NULL && b != NULL && n >= 2
    ensures Runs(c, Init(n), run, t) && t.uses == [Use(a, c.off(b))]
  {
    var r1, s1 := BothScan(c, a, b, n);
    var r2, s2 := StoresOff(c, s1, 0, a, 1.0);
    RunsOn(c, Init(n), r1, s1, r2, s2);
    var r3, s3 := StoresOff(c, s2, 1, b, 2.0);
    RunsOn(c, Init(n), r1 + r2, s2, r3, s3);
    var r4;
    r4, t := PublishesAndUses(c, s3, a, b);
    RunsOn(c, Init(n), r1 + r2 + r3, s3, r4, t);
    run := r1 + r2 + r3 + r4;
  }

  /** A thread that takes the fast path always reads the offset of the type it matched,
      in every run of any number of threads, exactly when all types named numpy.ndarray
      have one offset. */
  lemma SafeExactly(c: Types, n: nat)
    requires NULL !in c.arrays && n >= 2
    ensures AlwaysSafe(c, n) <==> OneOffset(c)
  {
    InitInv(c, n);
    if OneOffset(c) {
      forall run: seq<Step>, t: State | Runs(c, Init(n), run, t) ensures Safe(c, t) {
        RunKeeps(c, Init(n), run, t);
      }
    } else {
      var a: nat, b: nat :| a in c.arrays && b in c.arrays && c.off(a) != c.off(b);
      var run, t := ClashRun(c, a, b, n);
      assert t.uses[0] == Use(a, c.off(b));
      assert Runs(c, Init(n), run, t) && !Safe(c, t);
      assert !AlwaysSafe(c, n);
    }
  }
}
