/**
  The route of every block of a frame, dense or sparse, as the decoder chooses it: a
  dense block is read by the block, a sparse one through a list of its pixels.
*/
module Routes {
  import opened Numpy
  import opened Product

  /** A sparse block comes with the pixels its list holds. */
  datatype Route = Dense | Sparse(list: seq<nat>)

  function Flat(ts: seq<seq<Add>>): seq<Add> {
    if ts == [] then [] else Flat(ts[..|ts| - 1]) + ts[|ts| - 1]
  }

  /** The additions of the pixels of a list, in its order. */
  function Picked(sparse: seq<seq<Add>>, list: seq<nat>): seq<Add> {
    if list == [] then []
    else
      var p := list[|list| - 1];
      Picked(sparse, list[..|list| - 1]) + if p < |sparse| then sparse[p] else []
  }

  /** The additions of a frame: dense holds those of each block, sparse those of each
      pixel. */
  function Mixed(dense: seq<seq<Add>>, sparse: seq<seq<Add>>, routes: seq<Route>): seq<Add>
    requires |routes| <= |dense|
  {
    if routes == [] then []
    else
      var j := |routes| - 1;
      Mixed(dense, sparse, routes[..j]) + if routes[j].Dense? then dense[j] else Picked(sparse, routes[j].list)
  }

  /** The pixels from lo on, at most be of them. */
  function PixelsFrom(lo: nat, be: nat, npix: nat): (r: seq<nat>)
    ensures forall i :: 0 <= i < |r| ==> r[i] == lo + i
    ensures |r| == if npix <= lo then 0 else if npix < lo + be then npix - lo else be
  {
    seq(if npix < lo then 0 else if npix < lo + be then npix - lo else be, i requires 0 <= i => lo + i)
  }

  /** The pixels of block j. */
  function BlockPixels(j: nat, be: nat, npix: nat): seq<nat> {
    PixelsFrom(j * be, be, npix)
  }

  /** The pixels a frame visits, in order. */
  function Visited(routes: seq<Route>, be: nat, npix: nat): seq<nat> {
    if routes == [] then []
    else
      var j := |routes| - 1;
      Visited(routes[..j], be, npix) + if routes[j].Dense? then BlockPixels(j, be, npix) else routes[j].list
  }

  /** A list of pixels of block j, none twice. */
  ghost predicate ListOf(list: seq<nat>, j: nat, be: nat, npix: nat)
    requires be >= 1
  {
    && (forall i :: 0 <= i < |list| ==> list[i] / be == j && list[i] < npix)
    && (forall i, k :: 0 <= i < k < |list| ==> list[i] != list[k])
  }

  /** The list holds every pixel of block j that has a value and that t adds; a masked
      pixel, which t does not add, may be there or not. */
  ghost predicate Holds(list: seq<nat>, j: nat, be: nat, t: seq<Add>, x: seq<real>)
    requires be >= 1
  {
    forall a :: a in t && a.pix / be == j && Pixel(x, a.pix) != 0.0 ==> a.pix in list
  }

  /** A route for every block, the sparse ones with lists that hold what they have to. */
  ghost predicate Routed(routes: seq<Route>, be: nat, npix: nat, t: seq<Add>, x: seq<real>) {
    && be >= 1 && |routes| == Blocks(npix, be)
    && (forall j :: 0 <= j < |routes| && routes[j].Sparse? ==>
          ListOf(routes[j].list, j, be, npix) && Holds(routes[j].list, j, be, t, x))
  }

  // ---- what the parts have to be ------------------------------------------

  ghost predicate InBlock(t: seq<Add>, j: nat, be: nat)
    requires be >= 1
  {
    forall a :: a in t ==> a.pix / be == j
  }

  ghost predicate OfPixel(t: seq<Add>, p: nat) {
    forall a :: a in t ==> a.pix == p
  }

  /** All the parts together are the same map to bin b as t. */
  ghost predicate SameMap(ts: seq<seq<Add>>, t: seq<Add>, b: nat) {
    forall y: seq<real> :: Powder(Flat(ts), y, b) == Powder(t, y, b)
  }

  /** The parts of a kernel: each block and each pixel adds only its own pixels, and
      either way the whole is the map of t. */
  ghost predicate Parts(dense: seq<seq<Add>>, sparse: seq<seq<Add>>, be: nat, npix: nat, t: seq<Add>, b: nat) {
    && be >= 1 && |dense| == Blocks(npix, be) && |sparse| == npix
    && (forall j :: 0 <= j < |dense| ==> InBlock(dense[j], j, be))
    && (forall p :: 0 <= p < npix ==> OfPixel(sparse[p], p))
    && (forall a :: a in t ==> a.pix < npix)
    && SameMap(dense, t, b) && SameMap(sparse, t, b)
  }
}
