/** Bounding boxes over the extended reals, as the extents of a design are kept. */
module Extents {

  datatype Coord = NegInf | Fin(r: real) | PosInf

  datatype Vec2 = Vec2(x: real, y: real)

  /** The reset box is the one whose corners are (inf, inf) and (-inf, -inf). */
  datatype Box = Box(minX: Coord, minY: Coord, maxX: Coord, maxY: Coord)

  predicate Less(a: Coord, b: Coord) {
    match (a, b)
    case (Fin(x), Fin(y)) => x < y
    case (NegInf, _) => b != NegInf
    case (_, PosInf) => a != PosInf
    case _ => false
  }

  predicate AtMost(a: Coord, b: Coord) {
    !Less(b, a)
  }

  function Lower(a: Coord, b: Coord): Coord {
    if Less(b, a) then b else a
  }

  function Upper(a: Coord, b: Coord): Coord {
    if Less(a, b) then b else a
  }

  function Negate(a: Coord): Coord {
    match a
    case NegInf => PosInf
    case Fin(r) => Fin(-r)
    case PosInf => NegInf
  }

  function Plus(a: Coord, d: real): Coord {
    if a.Fin? then Fin(a.r + d) else a
  }

  /** phx_extents_reset. */
  const RESET := Box(PosInf, PosInf, NegInf, NegInf)

  /** phx_extents_include. */
  function Include(ext: Box, other: Box): Box {
    Box(Lower(ext.minX, other.minX), Lower(ext.minY, other.minY), Upper(ext.maxX, other.maxX), Upper(ext.maxY, other.maxY))
  }

  /** phx_extents_add. */
  function Add(ext: Box, v: Vec2): Box {
    Box(Lower(ext.minX, Fin(v.x)), Lower(ext.minY, Fin(v.y)), Upper(ext.maxX, Fin(v.x)), Upper(ext.maxY, Fin(v.y)))
  }

  // --- The hull of a list of points ----------------------------------------

  function Hull(pts: seq<Vec2>): Box {
    if pts == [] then RESET else Add(Hull(pts[..|pts| - 1]), pts[|pts| - 1])
  }

  predicate Contains(b: Box, v: Vec2) {
    && AtMost(b.minX, Fin(v.x)) && AtMost(Fin(v.x), b.maxX)
    && AtMost(b.minY, Fin(v.y)) && AtMost(Fin(v.y), b.maxY)
  }

  predicate Within(a: Box, b: Box) {
    && AtMost(b.minX, a.minX) && AtMost(a.maxX, b.maxX)
    && AtMost(b.minY, a.minY) && AtMost(a.maxY, b.maxY)
  }

  ghost predicate ContainsAll(b: Box, pts: seq<Vec2>) {
    forall i :: 0 <= i < |pts| ==> Contains(b, pts[i])
  }

  /** The hull is the least box that contains every point. */
  lemma {:induction false} HullIsLeast(pts: seq<Vec2>, b: Box)
    ensures ContainsAll(Hull(pts), pts)
    ensures Within(Hull(pts), b) <==> ContainsAll(b, pts)
  {
    if pts != [] {
      var n := |pts| - 1;
      HullIsLeast(pts[..n], b);
      AddContains(Hull(pts[..n]), pts[n], b);
      forall i | 0 <= i < |pts| ensures Contains(Hull(pts), pts[i]) {
        if i < n {
          assert Contains(Hull(pts[..n]), pts[..n][i]);
          AddKeeps(Hull(pts[..n]), pts[n], pts[i]);
        }
      }
      assert ContainsAll(b, pts) <==> ContainsAll(b, pts[..n]) && Contains(b, pts[n]);
    }
  }

  lemma {:induction false} AddContains(h: Box, v: Vec2, b: Box)
    ensures Contains(Add(h, v), v)
    ensures Within(Add(h, v), b) <==> Within(h, b) && Contains(b, v)
  {
  }

  lemma {:induction false} AddKeeps(h: Box, v: Vec2, w: Vec2)
    requires Contains(h, w)
    ensures Contains(Add(h, v), w)
  {
  }

  /** Hulls of concatenated lists are joined boxes: the nested loops of the extents
      passes compute one hull. */
  lemma {:induction false} HullConcat(a: seq<Vec2>, b: seq<Vec2>)
    ensures Hull(a + b) == Include(Hull(a), Hull(b))
  {
    if b == [] {
      assert a + b == a;
    } else {
      var n := |b| - 1;
      HullConcat(a, b[..n]);
      assert (a + b)[..|a + b| - 1] == a + b[..n];
      IncludeAdd(Hull(a), Hull(b[..n]), b[n]);
    }
  }

  lemma {:induction false} IncludeAdd(a: Box, b: Box, v: Vec2)
    ensures Add(Include(a, b), v) == Include(a, Add(b, v))
  {
  }

  lemma {:induction false} IncludeAssociative(a: Box, b: Box, c: Box)
    ensures Include(Include(a, b), c) == Include(a, Include(b, c))
    ensures Include(a, b) == Include(b, a)
    ensures Include(a, RESET) == a == Include(RESET, a)
  {
  }
}
