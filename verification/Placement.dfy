/** Placing instances: points and boxes between an instance's coordinates and its
    parent's. */
module Placement {
  import opened Extents
  import opened Design

  /** What fixes an instance's coordinates: orientation, position and the cell's origin. */
  datatype Spot = Spot(orientation: Orientation, pos: Vec2, origin: Vec2)

  function SpotOf(i: Inst): Spot
    reads i`orientation, i`pos, i.cell`origin
  {
    Spot(i.orientation, i.pos, i.cell.origin)
  }

  function Offset(s: Spot): Vec2 {
    Vec2(s.pos.x - s.origin.x, s.pos.y - s.origin.y)
  }

  function Mirrored(o: Orientation, pt: Vec2): Vec2 {
    Vec2(if o.mirrorX then -pt.x else pt.x, if o.mirrorY then -pt.y else pt.y)
  }

  /** phx_inst_vec_to_parent. */
  function ToParent(s: Spot, pt: Vec2): Vec2 {
    var m := Mirrored(s.orientation, pt);
    var r := if s.orientation.rotate90 then Vec2(m.y, -m.x) else m;
    Vec2(r.x + Offset(s).x, r.y + Offset(s).y)
  }

  /** phx_inst_vec_from_parent. */
  function FromParent(s: Spot, pt: Vec2): Vec2 {
    var t := Vec2(pt.x - Offset(s).x, pt.y - Offset(s).y);
    var r := if s.orientation.rotate90 then Vec2(-t.y, t.x) else t;
    Mirrored(s.orientation, r)
  }

  /** The two translations undo each other, whatever the orientation. */
  lemma {:induction false} TranslationsAreInverse(s: Spot, pt: Vec2)
    ensures ToParent(s, FromParent(s, pt)) == pt
    ensures FromParent(s, ToParent(s, pt)) == pt
  {
    var o := s.orientation;
    assert Mirrored(o, Mirrored(o, pt)) == pt;
    var t := Vec2(pt.x - Offset(s).x, pt.y - Offset(s).y);
    var r := if o.rotate90 then Vec2(-t.y, t.x) else t;
    assert Mirrored(o, Mirrored(o, r)) == r;
  }

  // --- Boxes ---------------------------------------------------------------

  function MirroredBox(o: Orientation, b: Box): Box {
    Box(if o.mirrorX then Negate(b.maxX) else b.minX,
        if o.mirrorY then Negate(b.maxY) else b.minY,
        if o.mirrorX then Negate(b.minX) else b.maxX,
        if o.mirrorY then Negate(b.minY) else b.maxY)
  }

  // The right edge is read back from the top edge, which has just been overwritten.
  function TurnedBox(b: Box): Box {
    Box(b.minY, Negate(b.maxX), Negate(b.minX), Negate(b.minX))
  }

  function ShiftedBox(b: Box, d: Vec2): Box {
    Box(Plus(b.minX, d.x), Plus(b.minY, d.y), Plus(b.maxX, d.x), Plus(b.maxY, d.y))
  }

  /** The box that an instance derives from the extents of its cell. */
  function BoxToParent(s: Spot, b: Box): Box {
    var m := MirroredBox(s.orientation, b);
    ShiftedBox(if s.orientation.rotate90 then TurnedBox(m) else m, Offset(s))
  }

  // The box of the rotated points.
  function RotatedBox(b: Box): Box {
    Box(b.minY, Negate(b.maxX), b.maxY, Negate(b.minX))
  }

  // The box of the points moved to the parent.
  function TrueBox(s: Spot, b: Box): Box {
    var m := MirroredBox(s.orientation, b);
    ShiftedBox(if s.orientation.rotate90 then RotatedBox(m) else m, Offset(s))
  }

  function AllToParent(s: Spot, pts: seq<Vec2>): (r: seq<Vec2>)
    ensures |r| == |pts| && forall k :: 0 <= k < |pts| ==> r[k] == ToParent(s, pts[k])
  {
    seq(|pts|, k requires 0 <= k < |pts| => ToParent(s, pts[k]))
  }

  lemma {:induction false} TrueBoxAdd(s: Spot, b: Box, v: Vec2)
    ensures TrueBox(s, Add(b, v)) == Add(TrueBox(s, b), ToParent(s, v))
  {
    var o := s.orientation;
    var m, w := MirroredBox(o, b), Mirrored(o, v);
    MirrorAdd(o, b, v);
    RotateAdd(m, w);
    ShiftAdd(m, w, Offset(s));
    ShiftAdd(RotatedBox(m), Vec2(w.y, -w.x), Offset(s));
  }

  lemma {:induction false} MirrorAdd(o: Orientation, b: Box, v: Vec2)
    ensures MirroredBox(o, Add(b, v)) == Add(MirroredBox(o, b), Mirrored(o, v))
  {
    NegateLower(b.minX, Fin(v.x));
    NegateLower(b.minY, Fin(v.y));
    NegateUpper(b.maxX, Fin(v.x));
    NegateUpper(b.maxY, Fin(v.y));
  }

  lemma {:induction false} RotateAdd(b: Box, v: Vec2)
    ensures RotatedBox(Add(b, v)) == Add(RotatedBox(b), Vec2(v.y, -v.x))
  {
    NegateLower(b.minX, Fin(v.x));
    NegateUpper(b.maxX, Fin(v.x));
  }

  lemma {:induction false} ShiftAdd(b: Box, v: Vec2, d: Vec2)
    ensures ShiftedBox(Add(b, v), d) == Add(ShiftedBox(b, d), Vec2(v.x + d.x, v.y + d.y))
  {
  }

  lemma {:induction false} NegateLower(a: Coord, b: Coord)
    ensures Negate(Lower(a, b)) == Upper(Negate(a), Negate(b))
  {
  }

  lemma {:induction false} NegateUpper(a: Coord, b: Coord)
    ensures Negate(Upper(a, b)) == Lower(Negate(a), Negate(b))
  {
  }

  lemma {:induction false} HullToParent(s: Spot, pts: seq<Vec2>)
    ensures Hull(AllToParent(s, pts)) == TrueBox(s, Hull(pts))
  {
    if pts != [] {
      var n := |pts| - 1;
      HullToParent(s, pts[..n]);
      assert AllToParent(s, pts)[..n] == AllToParent(s, pts[..n]);
      TrueBoxAdd(s, Hull(pts[..n]), pts[n]);
    }
  }

  lemma {:induction false} PlusCancels(a: Coord, b: Coord, d: real)
    ensures Plus(a, d) == Plus(b, d) <==> a == b
  {
  }

  /** The instance box is the hull of the moved points exactly when there is no
      rotation, or the mirrored box has its top edge opposite its left edge. */
  lemma {:induction false} InstanceBoxIff(s: Spot, pts: seq<Vec2>)
    ensures BoxToParent(s, Hull(pts)) == Hull(AllToParent(s, pts)) <==>
            !s.orientation.rotate90 || MirroredBox(s.orientation, Hull(pts)).maxY == Negate(MirroredBox(s.orientation, Hull(pts)).minX)
  {
    HullToParent(s, pts);
    var m := MirroredBox(s.orientation, Hull(pts));
    PlusCancels(Negate(m.minX), m.maxY, Offset(s).x);
  }

  /** A unit square away from the origin: the rotated instance's box is too narrow. */
  lemma {:induction false} RotationExample()
    ensures var s := Spot(Orientation(false, false, true), Vec2(0.0, 0.0), Vec2(0.0, 0.0));
            var pts := [Vec2(1.0, 1.0), Vec2(2.0, 3.0)];
            && BoxToParent(s, Hull(pts)) == Box(Fin(1.0), Fin(-2.0), Fin(-1.0), Fin(-1.0))
            && Hull(AllToParent(s, pts)) == Box(Fin(1.0), Fin(-2.0), Fin(3.0), Fin(-1.0))
  {
    var s := Spot(Orientation(false, false, true), Vec2(0.0, 0.0), Vec2(0.0, 0.0));
    var a, b := Vec2(1.0, 1.0), Vec2(2.0, 3.0);
    assert [a, b][..1] == [a] && [a][..0] == [];
    assert Hull([]) == RESET && Hull([a]) == Add(RESET, a);
    assert Hull([a, b]) == Box(Fin(1.0), Fin(1.0), Fin(2.0), Fin(3.0));
    HullToParent(s, [a, b]);
  }

  /** The same square mirrored: x changes its sign in one orientation, y in the other, and position
      and origin count with opposite signs. */
  lemma {:induction false} MirrorExample()
    ensures var pos, origin, pts := Vec2(10.0, 20.0), Vec2(3.0, 4.0), [Vec2(1.0, 1.0), Vec2(2.0, 3.0)];
            var a, b := Spot(Orientation(true, false, false), pos, origin), Spot(Orientation(false, true, false), pos, origin);
            && Hull(AllToParent(a, pts)) == BoxToParent(a, Hull(pts)) == Box(Fin(5.0), Fin(17.0), Fin(6.0), Fin(19.0))
            && Hull(AllToParent(b, pts)) == BoxToParent(b, Hull(pts)) == Box(Fin(8.0), Fin(13.0), Fin(9.0), Fin(15.0))
  {
    var pos, origin, p, q := Vec2(10.0, 20.0), Vec2(3.0, 4.0), Vec2(1.0, 1.0), Vec2(2.0, 3.0);
    assert [p, q][..1] == [p] && [p][..0] == [];
    assert Hull([]) == RESET && Hull([p]) == Add(RESET, p);
    assert Hull([p, q]) == Box(Fin(1.0), Fin(1.0), Fin(2.0), Fin(3.0));
    HullToParent(Spot(Orientation(true, false, false), pos, origin), [p, q]);
    HullToParent(Spot(Orientation(false, true, false), pos, origin), [p, q]);
  }

  // --- Lines with a width --------------------------------------------------

  // The two corner points that a line of this half width adds for each of its points.
  function Widened(pts: seq<Vec2>, hw: real): (r: seq<Vec2>)
    ensures |r| == 2 * |pts|
  {
    if pts == [] then []
    else
      var p := pts[|pts| - 1];
      Widened(pts[..|pts| - 1], hw) + [Vec2(p.x - hw, p.y - hw), Vec2(p.x + hw, p.y + hw)]
  }

  // The corners around a point of a line.
  predicate Around(p: Vec2, hw: real, lo: Vec2, hi: Vec2) {
    lo == Vec2(p.x - hw, p.y - hw) && hi == Vec2(p.x + hw, p.y + hw)
  }

  lemma {:induction false} HullWidened(pts: seq<Vec2>, hw: real, lo: Vec2, hi: Vec2)
    requires pts != [] && Around(pts[|pts| - 1], hw, lo, hi)
    ensures Hull(Widened(pts, hw)) == Add(Add(Hull(Widened(pts[..|pts| - 1], hw)), lo), hi)
  {
    var w := Widened(pts, hw);
    var n := |w|;
    assert w[..n - 1][..n - 2] == Widened(pts[..|pts| - 1], hw);
    assert w[n - 1] == hi && w[..n - 1][n - 2] == lo;
  }

  /** A line keeps its width when it is moved: the moved line's hull is the moved hull. */
  lemma {:induction false} WidenedToParent(s: Spot, pts: seq<Vec2>, hw: real)
    ensures Hull(Widened(AllToParent(s, pts), hw)) == TrueBox(s, Hull(Widened(pts, hw)))
  {
    if pts == [] {
      assert TrueBox(s, RESET) == RESET;
    } else {
      var n := |pts| - 1;
      WidenedToParent(s, pts[..n], hw);
      assert AllToParent(s, pts)[..n] == AllToParent(s, pts[..n]);
      var p, q := pts[n], ToParent(s, pts[n]);
      var lo, hi := Vec2(p.x - hw, p.y - hw), Vec2(p.x + hw, p.y + hw);
      var lo', hi' := Vec2(q.x - hw, q.y - hw), Vec2(q.x + hw, q.y + hw);
      HullWidened(pts, hw, lo, hi);
      HullWidened(AllToParent(s, pts), hw, lo', hi');
      TrueBoxCorners(s, Hull(Widened(pts[..n], hw)), p, hw, lo, hi, lo', hi');
    }
  }

  lemma {:induction false} TrueBoxCorners(s: Spot, b: Box, p: Vec2, hw: real, lo: Vec2, hi: Vec2, lo': Vec2, hi': Vec2)
    requires Around(p, hw, lo, hi) && Around(ToParent(s, p), hw, lo', hi')
    ensures TrueBox(s, Add(Add(b, lo), hi)) == Add(Add(TrueBox(s, b), lo'), hi')
  {
    TrueBoxAdd(s, b, lo);
    TrueBoxAdd(s, Add(b, lo), hi);
    MovedCorners(s, p, hw, lo, hi, lo', hi');
    Corners(TrueBox(s, b), ToParent(s, lo), ToParent(s, hi), lo', hi');
  }

  // The moved corners are opposite corners of the square around the moved point.
  lemma {:induction false} MovedCorners(s: Spot, p: Vec2, hw: real, lo: Vec2, hi: Vec2, lo': Vec2, hi': Vec2)
    requires Around(p, hw, lo, hi) && Around(ToParent(s, p), hw, lo', hi')
    ensures Opposite(ToParent(s, lo), ToParent(s, hi), lo', hi')
  {
  }

  predicate Opposite(a: Vec2, b: Vec2, lo: Vec2, hi: Vec2) {
    && ((a.x == lo.x && b.x == hi.x) || (a.x == hi.x && b.x == lo.x))
    && ((a.y == lo.y && b.y == hi.y) || (a.y == hi.y && b.y == lo.y))
  }

  lemma {:induction false} Corners(box: Box, a: Vec2, b: Vec2, lo: Vec2, hi: Vec2)
    requires Opposite(a, b, lo, hi)
    ensures Add(Add(box, a), b) == Add(Add(box, lo), hi)
  {
  }
}
