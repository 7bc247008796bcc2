/** What a call sends to C computes the product of the matrix the object was made with. */
module SessionMeaning {
  import opened Csc
  import opened Dtypes
  import FixedPoint
  import opened Kernels
  import KernelsProof
  import opened Layouts
  import opened Pipeline
  import opened Product
  import opened Routes
  import opened Session
  import opened SessionProof

  /** The layout that is sent is what build gives for its dot and its block size. */
  lemma SentIsBuilt(u: Setup, s: State, call: Call)
    requires u.Valid() && Inv(u, s) && Step(u, s, call).1.Fine?
    ensures var l := Step(u, s, call).1.value.layout;
            && Layouts.Build(l.dot, u.m, if l.blockElems.Some? then l.blockElems.value else 0, u.dtype, u.fixed) == Success(l)
            && (l.blockElems.Some? ==> l.blockElems.value == Elems(u, BlockBytes(call)))
  {
    StepKeeps(u, s, call);
    StepSendsAccepted(u, s, call);
    KeptBuilt(u, Step(u, s, call).0);
  }

  lemma KeptBuilt(u: Setup, s: State)
    requires u.Valid() && Inv(u, s)
    ensures Layouts.Build(s.layout.dot, u.m, if s.layout.blockElems.Some? then s.layout.blockElems.value else 0, u.dtype, u.fixed) == Success(s.layout)
  {
    BlockLayout(u, s);
  }

  /** The powder of a call of an object without fixed-point weights, after any calls: in
      every frame, every bin and every choice of routes the product of its matrix. */
  lemma SentIsProduct(u: Setup, s: State, call: Call, routes: seq<Route>, x: seq<real>, b: nat)
    requires u.Valid() && Inv(u, s) && Step(u, s, call).1.Fine? && u.fixed.None? && b < u.m.nbins
    requires MarksEmpty(Step(u, s, call).1.value.layout.dot) ==> Unmarked(u.m)
    requires Taken(routes, Elems(u, BlockBytes(call)), u.m, x)
    ensures KernelPowder(Step(u, s, call).1.value.layout, Elems(u, BlockBytes(call)), u.m.Npix(), routes, x, b)
            == Powder(Trace(u.m), x, b)
  {
    var l := Step(u, s, call).1.value.layout;
    SentIsBuilt(u, s, call);
    KernelsProof.BuildIsProduct(l.dot, u.m, if l.blockElems.Some? then l.blockElems.value else 0, u.dtype, l,
                                Elems(u, BlockBytes(call)), routes, x, b);
  }

  /** And with fixed-point weights the exact sums, as long as they are int64. */
  lemma SentIsSum(u: Setup, s: State, call: Call, routes: seq<Route>, x: seq<int>, b: nat)
    requires u.Valid() && Inv(u, s) && Step(u, s, call).1.Fine? && u.fixed.Some? && |u.fixed.value.data| == |u.m.indices|
    requires KernelsProof.WithWeights(u.m, u.fixed.value.data).Valid()
    requires Taken(routes, Elems(u, BlockBytes(call)), KernelsProof.WithWeights(u.m, u.fixed.value.data), Reals(x))
    ensures var sum := FixedPoint.BinSum(u.m, u.fixed.value.data, x, b);
            KernelSum(Step(u, s, call).1.value.layout, Elems(u, BlockBytes(call)), u.m.Npix(), routes, x, b) == sum
            <==> -FixedPoint.TWO_63 <= sum < FixedPoint.TWO_63
  {
    var l := Step(u, s, call).1.value.layout;
    SentIsBuilt(u, s, call);
    KernelsProof.BuildIntIsSum(l.dot, u.m, if l.blockElems.Some? then l.blockElems.value else 0, u.dtype, u.fixed.value, l,
                               Elems(u, BlockBytes(call)), routes, x, b);
  }

  /** Of an object that could be made, without fixed-point weights, the next call after
      any calls gives the product of its matrix. */
  lemma EveryPowder(u: Setup, codec: Option<Codec>, calls: seq<Call>, call: Call, routes: seq<Route>, x: seq<real>, b: nat)
    requires u.Valid() && Create(u, codec).Fine? && u.fixed.None? && Unmarked(u.m) && b < u.m.nbins
    requires Step(u, After(u, Create(u, codec).value, calls), call).1.Fine?
    requires Taken(routes, Elems(u, BlockBytes(call)), u.m, x)
    ensures KernelPowder(Step(u, After(u, Create(u, codec).value, calls), call).1.value.layout,
                         Elems(u, BlockBytes(call)), u.m.Npix(), routes, x, b) == Powder(Trace(u.m), x, b)
  {
    CreateInv(u, codec);
    AfterKeeps(u, Create(u, codec).value, calls);
    SentIsProduct(u, After(u, Create(u, codec).value, calls), call, routes, x, b);
  }
}
