/**
  Buffer acquisition (`c2py_pin`, its three backends, `c2py_unpin_buffer`) and the
  cleanup of a generated wrapper, as they count references.  Whatever the objects
  answer, a failure holds nothing, a success holds what the pin says, and the cleanup
  gives everything back.
*/
module Pins {
  import opened Overlap

  /** An object a reference can be held on. */
  type Ref = nat

  datatype Maybe = Null | Given(ref: Ref)

  const NONE: int := 0
  const PEP3118: int := 1
  const NDARRAY: int := 2
  const DLPACK: int := 3

  /** Py2's AsRead/WriteBuffer: holds no reference. */
  datatype OldBuffer = OldGiven | OldRefused | OldMissing

  datatype Capsule = Versioned(major: nat, readOnly: bool) | Legacy | Unknown

  /** What the interpreter and the object answer to one attempt. */
  datatype Answers = Answers(
    pypy: bool, unpublishable: bool,
    pep3118: bool, getBuffer: Maybe, oldBuffer: OldBuffer,
    cachedType: bool, probed: bool, named: bool, dataFound: bool, layoutSane: bool, readOnlyArray: bool, plainDescr: bool,
    dlSymbols: bool, dlMethod: Maybe, dlArgs: Maybe, kwSymbols: bool, kw: Maybe, ver: Maybe, kwSet: bool, kwCall: Maybe,
    plainCall: Maybe, capsule: Capsule, tensor: Tensor)

  /** The checks of a tensor, in their order. */
  datatype Tensor = Tensor(cpu: bool, formatKnown: bool, ndimFits: bool, shapeGiven: bool, offsetFits: bool, sizeFits: bool, dataGiven: bool)

  datatype Verdict = Accept | Decline | Fail

  function JudgeTensor(t: Tensor): Verdict {
    if !t.cpu then Fail
    else if !t.formatKnown then Decline
    else if !t.ndimFits || !t.shapeGiven || !t.offsetFits || !t.sizeFits || !t.dataGiven then Fail
    else Accept
  }

  /** A read-only tensor is a failure for a writable request, a legacy one is declined. */
  function Judge(c: Capsule, t: Tensor, writable: bool): Verdict {
    match c
    case Unknown => Decline
    case Legacy => if writable then Decline else JudgeTensor(t)
    case Versioned(major, readOnly) =>
      if major != 1 then Decline else if writable && readOnly then Fail else JudgeTensor(t)
  }

  // ---- what each backend should come to -----------------------------------

  /** A pin taken under a kind, with the reference it holds; declined, so that the next
      backend is asked; or failed with an exception. */
  datatype Outcome = Took(kind: int, obj: Maybe) | Declined | Failed

  function BufferOutcome(a: Answers): Outcome {
    if a.getBuffer.Given? then Took(PEP3118, a.getBuffer)
    else if a.pep3118 then Failed
    else match a.oldBuffer
      case OldGiven => Took(PEP3118, Null)
      case OldRefused => Failed
      case OldMissing => Declined
  }

  /** The cached type is cast; the first array of an unknown type goes through the
      buffer protocol and is pinned that way if its layout was found. */
  function NdarrayOutcome(a: Answers, obj: Ref, writable: bool): Outcome {
    if a.pypy || a.unpublishable then Declined
    else if a.cachedType then
      if writable && a.readOnlyArray then Failed else if a.plainDescr then Took(NDARRAY, Given(obj)) else Declined
    else if a.probed || !a.named then Declined
    else if BufferOutcome(a).Took? && !(a.dataFound && a.layoutSane) then Declined
    else BufferOutcome(a)
  }

  /** The capsule of the versioned call if there is one, else of the plain call. */
  function CapsuleOf(a: Answers): Maybe {
    if a.kwSymbols && a.kw.Given? && a.ver.Given? && a.kwSet && a.kwCall.Given? then a.kwCall else a.plainCall
  }

  function DlpackOutcome(a: Answers, writable: bool): Outcome {
    if !a.dlSymbols || a.dlMethod.Null? then Declined
    else if a.dlArgs.Null? then Failed
    else if CapsuleOf(a).Null? then Declined
    else match Judge(a.capsule, a.tensor, writable)
      case Accept => Took(DLPACK, CapsuleOf(a))
      case Decline => Declined
      case Fail => Failed
  }

  function SourceOutcome(source: int, a: Answers, obj: Ref, writable: bool): Outcome {
    if source == NDARRAY then NdarrayOutcome(a, obj, writable)
    else if source == DLPACK then DlpackOutcome(a, writable)
    else if source == PEP3118 then BufferOutcome(a)
    else Declined
  }

  /** The first backend from i that does not decline decides; none is a failure. */
  function PinOutcome(order: seq<int>, answers: seq<Answers>, obj: Ref, writable: bool, i: nat): Outcome
    requires |answers| == |order|
    decreases |order| - i
  {
    if i >= |order| then Failed
    else if SourceOutcome(order[i], answers[i], obj, writable).Declined? then PinOutcome(order, answers, obj, writable, i + 1)
    else SourceOutcome(order[i], answers[i], obj, writable)
  }

  /** On an interpreter with PEP 3118 every pin that is taken holds a reference: one on
      the object itself, or the one the object's buffer or capsule came with. */
  lemma {:induction false} TakenHolds(order: seq<int>, answers: seq<Answers>, obj: Ref, writable: bool, i: nat)
    requires |answers| == |order| && PinOutcome(order, answers, obj, writable, i).Took?
    requires forall k :: i <= k < |order| ==> answers[k].pep3118
    ensures var o := PinOutcome(order, answers, obj, writable, i);
            && o.obj.Given?
            && (o.kind == NDARRAY ==> o.obj == Given(obj))
            && (o.kind == DLPACK ==> exists k :: i <= k < |order| && o.obj == CapsuleOf(answers[k]))
            && (o.kind == PEP3118 ==> exists k :: i <= k < |order| && o.obj == answers[k].getBuffer)
            && PEP3118 <= o.kind <= DLPACK
    decreases |order| - i
  {
    if SourceOutcome(order[i], answers[i], obj, writable).Declined? { TakenHolds(order, answers, obj, writable, i + 1); }
  }

  /** A tensor on this CPU, of a known format, with a shape, data and sizes that fit. */
  predicate Sound(t: Tensor) {
    t.cpu && t.formatKnown && t.ndimFits && t.shapeGiven && t.offsetFits && t.sizeFits && t.dataGiven
  }

  /** A capsule that may be used: of version 1, writable when it is to be written to, or of
      the legacy protocol, which does not say, only for reading. */
  predicate Usable(c: Capsule, writable: bool) {
    if writable then c == Versioned(1, false) else c.Legacy? || (c.Versioned? && c.major == 1)
  }

  /** What each backend takes, and what it fails on rather than leave to the next one. */
  lemma BackendsExactly(a: Answers, obj: Ref, writable: bool)
    ensures NdarrayOutcome(a, obj, writable) == Took(NDARRAY, Given(obj)) <==>
              !a.pypy && !a.unpublishable && a.cachedType && a.plainDescr && !(writable && a.readOnlyArray)
    ensures NdarrayOutcome(a, obj, writable).Failed? <==>
              && !a.pypy && !a.unpublishable
              && if a.cachedType then writable && a.readOnlyArray else !a.probed && a.named && BufferOutcome(a).Failed?
    ensures DlpackOutcome(a, writable).Took? <==>
              && a.dlSymbols && a.dlMethod.Given? && a.dlArgs.Given? && CapsuleOf(a).Given?
              && Usable(a.capsule, writable) && Sound(a.tensor)
    ensures DlpackOutcome(a, writable).Failed? <==>
              && a.dlSymbols && a.dlMethod.Given?
              && (a.dlArgs.Null? ||
                  (CapsuleOf(a).Given? &&
                    ((writable && a.capsule == Versioned(1, true)) ||
                     (Usable(a.capsule, writable) && (a.tensor.cpu ==> a.tensor.formatKnown) && !Sound(a.tensor)))))
    ensures BufferOutcome(a).Took? <==> a.getBuffer.Given? || (!a.pep3118 && a.oldBuffer.OldGiven?)
    ensures BufferOutcome(a).Failed? <==> a.getBuffer.Null? && (a.pep3118 || a.oldBuffer.OldRefused?)
  {
  }

  /** A pin to be written to is never on an array or a tensor that is read-only, or may be;
      the backends before the one that took it declined. */
  lemma {:induction false} TakenIsAllowed(order: seq<int>, answers: seq<Answers>, obj: Ref, writable: bool, i: nat) returns (k: nat)
    requires |answers| == |order| && PinOutcome(order, answers, obj, writable, i).Took?
    ensures i <= k < |order| && SourceOutcome(order[k], answers[k], obj, writable) == PinOutcome(order, answers, obj, writable, i)
    ensures forall j :: i <= j < k ==> SourceOutcome(order[j], answers[j], obj, writable).Declined?
    ensures writable && PinOutcome(order, answers, obj, writable, i).kind == NDARRAY ==> !answers[k].readOnlyArray
    ensures writable && PinOutcome(order, answers, obj, writable, i).kind == DLPACK ==> answers[k].capsule == Versioned(1, false)
    decreases |order| - i
  {
    if SourceOutcome(order[i], answers[i], obj, writable).Declined? {
      k := TakenIsAllowed(order, answers, obj, writable, i + 1);
    } else {
      k := i;
    }
  }

  /** Pinning fails exactly when a backend fails after the earlier ones declined, or all
      declined. */
  lemma {:induction false} FailsExactly(order: seq<int>, answers: seq<Answers>, obj: Ref, writable: bool, i: nat)
    requires |answers| == |order| && i <= |order|
    ensures !PinOutcome(order, answers, obj, writable, i).Declined?
    ensures PinOutcome(order, answers, obj, writable, i).Failed? <==>
              || (forall j :: i <= j < |order| ==> SourceOutcome(order[j], answers[j], obj, writable).Declined?)
              || exists k :: i <= k < |order| && SourceOutcome(order[k], answers[k], obj, writable).Failed? &&
                             forall j :: i <= j < k ==> SourceOutcome(order[j], answers[j], obj, writable).Declined?
    decreases |order| - i
  {
    if i < |order| && SourceOutcome(order[i], answers[i], obj, writable).Declined? {
      FailsExactly(order, answers, obj, writable, i + 1);
      if exists k :: i + 1 <= k < |order| && SourceOutcome(order[k], answers[k], obj, writable).Failed? && forall j :: i + 1 <= j < k ==> SourceOutcome(order[j], answers[j], obj, writable).Declined? {
        var k :| i + 1 <= k < |order| && SourceOutcome(order[k], answers[k], obj, writable).Failed? && forall j :: i + 1 <= j < k ==> SourceOutcome(order[j], answers[j], obj, writable).Declined?;
        assert forall j :: i <= j < k ==> SourceOutcome(order[j], answers[j], obj, writable).Declined?;
      }
    }
  }

  /** How many references on an object. */
  function On(watched: Ref, m: Maybe): int {
    if m == Given(watched) then 1 else 0
  }

  /** The references this code holds on one object, any one, and the exception
      indicator. */
  class World {
    const watched: Ref
    var held: int
    var error: bool

    constructor (watched: Ref)
      ensures this.watched == watched && held == 0 && !error
    {
      this.watched := watched;
      held, error := 0, false;
    }

    function Refs(m: Maybe): int {
      On(watched, m)
    }

    method Take(m: Maybe)
      modifies this
      ensures held == old(held) + Refs(m) && error == (old(error) || m.Null?)
    {
      held := held + Refs(m);
      if m.Null? { error := true; }
    }

    method DecRef(r: Ref)
      requires held >= Refs(Given(r))
      modifies this
      ensures held == old(held) - Refs(Given(r)) && error == old(error)
    {
      held := held - Refs(Given(r));
    }

    method XDecRef(m: Maybe)
      requires held >= Refs(m)
      modifies this
      ensures held == old(held) - Refs(m) && error == old(error)
    {
      if m.Given? { DecRef(m.ref); }
    }
  }

  /** c2py_buf_pin: buf.obj, and a kind that is not initialised. */
  class Pin {
    var obj: Maybe
    var kind: int

    constructor (garbage: int)
      ensures obj == Null && kind == garbage
    {
      obj, kind := Null, garbage;
    }

    /** A reference is held only under a kind that unpin releases. */
    predicate Valid()
      reads this
    {
      obj.Given? ==> PEP3118 <= kind <= DLPACK
    }
  }

  /** The pin, the result and the exception indicator are those of an outcome. */
  predicate Came(w: World, pin: Pin, ok: bool, o: Outcome)
    reads w, pin
  {
    && ok == o.Took? && w.error == o.Failed?
    && pin.obj == (if ok then o.obj else Null) && (ok ==> pin.kind == o.kind)
  }

  // ---- PEP 3118 -----------------------------------------------------------

  method AcquireBuffer(w: World, pin: Pin, a: Answers) returns (ok: bool)
    requires !w.error && w.held >= 0
    modifies w, pin
    ensures pin.kind == old(pin.kind)
    ensures ok == BufferOutcome(a).Took? && w.error == BufferOutcome(a).Failed?
    ensures pin.obj == (if ok then BufferOutcome(a).obj else Null) && w.held == old(w.held) + w.Refs(pin.obj)
  {
    pin.obj := Null;
    w.Take(a.getBuffer);
    if a.getBuffer.Given? {
      pin.obj := a.getBuffer;
      return true;
    }
    if a.pep3118 { return false; }
    w.error := false;
    if a.oldBuffer.OldGiven? { return true; }
    w.error := a.oldBuffer.OldRefused?;
    return false;
  }

  method ReleaseBuffer(w: World, pin: Pin)
    requires w.held >= w.Refs(pin.obj)
    modifies w, pin
    ensures pin.obj == Null && pin.kind == old(pin.kind)
    ensures w.held == old(w.held) - w.Refs(old(pin.obj)) && w.error == old(w.error)
  {
    if pin.obj.Given? {
      w.DecRef(pin.obj.ref);
      pin.obj := Null;
    }
  }

  method PinBuffer(w: World, pin: Pin, a: Answers) returns (ok: bool)
    requires !w.error && w.held >= 0
    modifies w, pin
    ensures Came(w, pin, ok, BufferOutcome(a))
    ensures w.held == old(w.held) + w.Refs(pin.obj)
  {
    ok := AcquireBuffer(w, pin, a);
    if ok { pin.kind := PEP3118; }
  }

  // ---- the ndarray fast path ----------------------------------------------

  method PinNdarray(w: World, pin: Pin, obj: Ref, a: Answers, writable: bool) returns (ok: bool)
    requires !w.error && w.held >= 0 && pin.obj == Null
    modifies w, pin
    ensures Came(w, pin, ok, NdarrayOutcome(a, obj, writable))
    ensures w.held == old(w.held) + w.Refs(pin.obj)
  {
    if a.pypy || a.unpublishable { return false; }
    if !a.cachedType {
      if !a.probed && a.named {
        ok := AcquireBuffer(w, pin, a);
        if !ok { return false; }
        if !a.dataFound || !a.layoutSane {
          ReleaseBuffer(w, pin);
          return false;
        }
        pin.kind := PEP3118;
        return true;
      }
      return false;
    }
    if writable && a.readOnlyArray {
      w.error := true;
      return false;
    }
    if !a.plainDescr { return false; }
    w.Take(Given(obj));
    pin.obj, pin.kind := Given(obj), NDARRAY;
    return true;
  }

  // ---- DLPack -------------------------------------------------------------

  /** obj.__dlpack__(max_version=(1, 0)): a capsule or nothing, and no exception. */
  method CallVersioned(w: World, a: Answers) returns (capsule: Maybe)
    requires !w.error && w.held >= 0
    modifies w
    ensures w.held == old(w.held) + w.Refs(capsule) && !w.error
    ensures capsule == if a.kwSymbols && a.kw.Given? && a.ver.Given? && a.kwSet then a.kwCall else Null
  {
    capsule := Null;
    if a.kwSymbols {
      w.Take(a.kw);
      w.Take(a.ver);
      if a.kw.Given? && a.ver.Given? {
        if a.kwSet {
          w.Take(a.kwCall);
          capsule := a.kwCall;
        } else {
          w.error := true;
        }
      }
      w.XDecRef(a.kw);
      w.XDecRef(a.ver);
      if capsule.Null? { w.error := false; }
    }
  }

  /** The common exit of the failing paths; a decline clears the exception. */
  method FailDlpack(w: World, pin: Pin, verdict: Verdict, dlMethod: Maybe, dlArgs: Maybe, capsule: Maybe)
    requires w.held >= w.Refs(dlMethod) + w.Refs(dlArgs) + w.Refs(capsule)
    modifies w, pin
    ensures w.held == old(w.held) - w.Refs(dlMethod) - w.Refs(dlArgs) - w.Refs(capsule)
    ensures w.error == (old(w.error) && verdict != Decline) && pin.kind == NONE && pin.obj == old(pin.obj)
  {
    if verdict == Decline { w.error := false; }
    w.XDecRef(dlMethod);
    w.XDecRef(dlArgs);
    w.XDecRef(capsule);
    pin.kind := NONE;
  }

  method PinDlpack(w: World, pin: Pin, a: Answers, writable: bool) returns (ok: bool)
    requires !w.error && w.held >= 0 && pin.obj == Null
    modifies w, pin
    ensures Came(w, pin, ok, DlpackOutcome(a, writable))
    ensures w.held == old(w.held) + w.Refs(pin.obj)
  {
    if !a.dlSymbols { return false; }
    w.Take(a.dlMethod);
    if a.dlMethod.Null? {
      w.error := false;
      return false;
    }
    w.Take(a.dlArgs);
    if a.dlArgs.Null? {
      FailDlpack(w, pin, Fail, a.dlMethod, Null, Null);
      return false;
    }
    var capsule := CallVersioned(w, a);
    if capsule.Null? {
      w.Take(a.plainCall);
      capsule := a.plainCall;
      if capsule.Null? {
        FailDlpack(w, pin, Decline, a.dlMethod, a.dlArgs, Null);
        return false;
      }
    }
    var verdict := Judge(a.capsule, a.tensor, writable);
    if verdict != Accept {
      w.error := true;
      FailDlpack(w, pin, verdict, a.dlMethod, a.dlArgs, capsule);
      return false;
    }
    pin.kind, pin.obj := DLPACK, capsule;
    w.XDecRef(a.dlMethod);
    w.XDecRef(a.dlArgs);
    return true;
  }

  // ---- pin and unpin ------------------------------------------------------

  /** Each backend in order, until one succeeds or leaves an exception. */
  method Acquire(w: World, pin: Pin, obj: Ref, order: seq<int>, answers: seq<Answers>, writable: bool) returns (ok: bool)
    requires !w.error && w.held >= 0 && pin.obj == Null && |answers| == |order|
    modifies w, pin
    ensures Came(w, pin, ok, PinOutcome(order, answers, obj, writable, 0)) && pin.Valid() && (ok || w.error)
    ensures w.held == old(w.held) + w.Refs(pin.obj)
  {
    for i := 0 to |order|
      invariant !w.error && pin.obj == Null && w.held == old(w.held)
      invariant PinOutcome(order, answers, obj, writable, 0) == PinOutcome(order, answers, obj, writable, i)
    {
      ok := false;
      if order[i] == NDARRAY {
        if !answers[i].pypy { ok := PinNdarray(w, pin, obj, answers[i], writable); }
      } else if order[i] == DLPACK {
        ok := PinDlpack(w, pin, answers[i], writable);
      } else if order[i] == PEP3118 {
        ok := PinBuffer(w, pin, answers[i]);
      }
      if ok { return true; }
      if w.error { return false; }
    }
    w.error := true;
    return false;
  }

  /** Gives the pin's reference back, once; nothing happens to a pin that holds none,
      whatever its kind. */
  method Unpin(w: World, pin: Pin)
    requires pin.Valid() && w.held >= w.Refs(pin.obj)
    modifies w, pin
    ensures pin.obj == Null && pin.kind == NONE
    ensures w.held == old(w.held) - w.Refs(old(pin.obj)) && w.error == old(w.error)
  {
    if pin.kind == PEP3118 {
      ReleaseBuffer(w, pin);
    } else if pin.kind == NDARRAY || pin.kind == DLPACK {
      if pin.obj.Given? {
        w.DecRef(pin.obj.ref);
        pin.obj := Null;
      }
    }
    pin.kind := NONE;
  }

  // ---- a generated wrapper ------------------------------------------------

  /** One buffer argument: the object, whether it is written to, what it answers. */
  datatype Arg = Arg(obj: Ref, writable: bool, answers: seq<Answers>)

  function ArgOutcome(arg: Arg, order: seq<int>): Outcome
    requires |arg.answers| == |order|
  {
    PinOutcome(order, arg.answers, arg.obj, arg.writable, 0)
  }

  /** The references on an object among those of pins. */
  function Total(watched: Ref, objs: seq<Maybe>): int
    ensures Total(watched, objs) >= 0
  {
    if objs == [] then 0 else Total(watched, objs[..|objs| - 1]) + On(watched, objs[|objs| - 1])
  }

  lemma TotalNext(watched: Ref, objs: seq<Maybe>, i: nat)
    requires i < |objs|
    ensures Total(watched, objs[..i + 1]) == Total(watched, objs[..i]) + On(watched, objs[i])
  {
    assert objs[..i + 1][..i] == objs[..i];
  }

  lemma {:induction false} TotalNull(watched: Ref, objs: seq<Maybe>)
    requires forall i :: 0 <= i < |objs| ==> objs[i] == Null
    ensures Total(watched, objs) == 0
  {
    if objs != [] { TotalNull(watched, objs[..|objs| - 1]); }
  }

  lemma {:induction false} TotalAppend(watched: Ref, a: seq<Maybe>, b: seq<Maybe>)
    ensures Total(watched, a + b) == Total(watched, a) + Total(watched, b)
  {
    if b == [] {
      assert a + b == a;
    } else {
      assert (a + b)[..|a + b| - 1] == a + b[..|b| - 1];
      TotalAppend(watched, a, b[..|b| - 1]);
    }
  }

  ghost predicate Distinct(pins: seq<Pin>) {
    forall i, j :: 0 <= i < j < |pins| ==> pins[i] != pins[j]
  }

  ghost predicate Hold(pins: seq<Pin>, objs: seq<Maybe>)
    reads pins
  {
    |objs| == |pins| && forall i :: 0 <= i < |pins| ==> pins[i].obj == objs[i] && pins[i].Valid()
  }

  /** cleanup: unpin all in reverse, also those never acquired. */
  method Cleanup(w: World, pins: seq<Pin>, ghost objs: seq<Maybe>)
    requires Distinct(pins) && Hold(pins, objs) && w.held >= Total(w.watched, objs)
    modifies w, pins
    ensures w.held == old(w.held) - Total(w.watched, objs) && w.error == old(w.error)
    ensures forall i :: 0 <= i < |pins| ==> pins[i].obj == Null && pins[i].kind == NONE
  {
    assert objs[..|objs|] == objs;
    ghost var others := w.held - Total(w.watched, objs);
    var i := |pins|;
    while i > 0
      invariant 0 <= i <= |pins| && w.error == old(w.error)
      invariant forall j :: 0 <= j < i ==> pins[j].obj == objs[j] && pins[j].Valid()
      invariant forall j :: i <= j < |pins| ==> pins[j].obj == Null && pins[j].kind == NONE
      invariant w.held == others + Total(w.watched, objs[..i]) && others >= 0
    {
      i := i - 1;
      TotalNext(w.watched, objs, i);
      Unpin(w, pins[i]);
    }
  }

  /** Pins the arguments in order, up to the first failure; n of them were pinned. */
  method PinAll(w: World, pins: seq<Pin>, args: seq<Arg>, order: seq<int>) returns (n: nat, ghost objs: seq<Maybe>)
    requires |pins| == |args| && Distinct(pins) && !w.error && w.held >= 0
    requires forall i :: 0 <= i < |pins| ==> pins[i].obj == Null
    requires forall i :: 0 <= i < |args| ==> |args[i].answers| == |order|
    modifies w, pins
    ensures n <= |pins| && Hold(pins, objs) && w.held == old(w.held) + Total(w.watched, objs)
    ensures n == |pins| <==> !w.error
    ensures forall i :: n <= i < |pins| ==> objs[i] == Null
    ensures forall i :: 0 <= i < n ==> ArgOutcome(args[i], order).Took?
    ensures n < |pins| ==> ArgOutcome(args[n], order).Failed?
  {
    n, objs := 0, [];
    while n < |pins|
      invariant n <= |pins| && !w.error && |objs| == n
      invariant forall j :: 0 <= j < n ==> pins[j].obj == objs[j] && pins[j].Valid()
      invariant forall j :: n <= j < |pins| ==> pins[j].obj == Null
      invariant w.held == old(w.held) + Total(w.watched, objs)
      invariant forall i :: 0 <= i < n ==> ArgOutcome(args[i], order).Took?
    {
      var ok := Acquire(w, pins[n], args[n].obj, order, args[n].answers, args[n].writable);
      if !ok { break; }
      ghost var one := [pins[n].obj];
      TotalAppend(w.watched, objs, one);
      assert one[..0] == [];
      objs := objs + one;
      n := n + 1;
    }
    ghost var rest := seq(|pins| - n, _ => Null);
    TotalNull(w.watched, rest);
    TotalAppend(w.watched, objs, rest);
    objs := objs + rest;
  }

  /** A wrapper's body: pin every argument, run, clean up.  The pins' kinds may be
      anything at entry; spans are the buffers pinned, the writable ones first.  When it
      returns every reference has been given back, however far it came; the
      implementation runs only with all of them held and no writable one overlapping. */
  method Call(w: World, pins: seq<Pin>, args: seq<Arg>, order: seq<int>, spans: seq<Span>, writable: nat) returns (ran: bool)
    requires |pins| == |args| && Distinct(pins) && !w.error && w.held >= 0
    requires forall i :: 0 <= i < |pins| ==> pins[i].obj == Null
    requires forall i :: 0 <= i < |args| ==> |args[i].answers| == |order|
    requires writable <= |spans| && forall i :: 0 <= i < |spans| ==> Ends(spans[i])
    modifies w, pins
    ensures w.held == old(w.held)
    ensures forall i :: 0 <= i < |pins| ==> pins[i].obj == Null
    ensures ran <==> Apart(spans, writable) && forall i :: 0 <= i < |args| ==> ArgOutcome(args[i], order).Took?
    ensures ran <==> !w.error
  {
    var n;
    ghost var objs;
    n, objs := PinAll(w, pins, args, order);
    if n == 0 && |pins| > 0 {
      TotalNull(w.watched, objs);
      assert !ArgOutcome(args[0], order).Took?;
      return false;
    }
    ran := false;
    if n == |pins| { ran := CheckNoOverlap(spans, writable); }
    if ran {
      // the implementation runs here, all arguments pinned
      assert w.held == old(w.held) + Total(w.watched, objs);
    } else {
      w.error := true;
    }
    Cleanup(w, pins, objs);
  }
}
