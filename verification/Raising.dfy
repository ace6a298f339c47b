/** Raising an instance's geometry to its parent (phx_inst_copy_geometry_to_parent). */
module Raising {
  import opened Marks
  import opened Extents
  import opened Design
  import opened Placement
  import opened GeometryUpdate
  import opened ExtentsCache
  import opened ExtentsUpdate
  import opened Edits
  import opened Drawing
  import opened Growing

  function MovedLine(s: Spot, l: Line): Line {
    Line(l.width, AllToParent(s, l.pts))
  }

  function MovedShape(s: Spot, h: Shape): Shape {
    Shape(AllToParent(s, h.pts))
  }

  function MovedLines(s: Spot, lines: seq<Line>): seq<Line> {
    seq(|lines|, z requires 0 <= z < |lines| => MovedLine(s, lines[z]))
  }

  function MovedShapes(s: Spot, shapes: seq<Shape>): seq<Shape> {
    seq(|shapes|, z requires 0 <= z < |shapes| => MovedShape(s, shapes[z]))
  }

  /** The layer d with the lines and shapes of e, moved, behind its own. */
  function DrawnOn(d: LayerData, s: Spot, e: LayerData): LayerData {
    LayerData(d.lines + MovedLines(s, e.lines), d.shapes + MovedShapes(s, e.shapes))
  }

  // The points of the last line, overwritten one by one.
  method AppendMovedLine(layer: Layer, line: Line, s: Spot, ghost w: World, ghost d: LayerData)
    requires layer in w.layers && d == LayerData(layer.lines + [MovedLine(s, line)], layer.shapes)
    modifies layer`lines
    ensures Snap(w) == old(Snap(w)) && GeoSnap(w) == old(GeoSnap(w))
    ensures ContentOf(w) == old(ContentOf(w)).(layers := old(ContentOf(w)).layers[layer := d])
  {
    hide GeoSnap;
    ghost var m := LayerDatas(w.layers);
    AppendMoved(layer, line, s);
    assert LayerDatas(w.layers)[layer] == LayerDataOf(layer);
    OneChanged(m, LayerDatas(w.layers), layer);
  }

  // The first z points moved.
  function PartMoved(s: Spot, pts: seq<Vec2>, z: nat): seq<Vec2>
    requires z <= |pts|
  {
    AllToParent(s, pts)[..z] + pts[z..]
  }

  lemma {:induction false} MoveNext(s: Spot, pts: seq<Vec2>, z: nat)
    requires z < |pts|
    ensures PartMoved(s, pts, z)[z := ToParent(s, pts[z])] == PartMoved(s, pts, z + 1)
  {
  }

  lemma {:induction false} MoveEnds(s: Spot, pts: seq<Vec2>)
    ensures PartMoved(s, pts, 0) == pts && PartMoved(s, pts, |pts|) == AllToParent(s, pts)
  {
  }

  lemma {:induction false} SetLast<T>(q: seq<T>, x: T, y: T)
    ensures (q + [x])[|q| := y] == q + [y]
  {
  }

  method AppendMoved(layer: Layer, line: Line, s: Spot)
    modifies layer`lines
    ensures layer.lines == old(layer.lines) + [MovedLine(s, line)]
  {
    ghost var q := layer.lines;
    var n := |layer.lines|;
    layer.lines := layer.lines + [line];
    MoveEnds(s, line.pts);
    for z := 0 to |line.pts|
      invariant layer.lines == q + [Line(line.width, PartMoved(s, line.pts, z))]
    {
      var next := Line(layer.lines[n].width, layer.lines[n].pts[z := ToParent(s, line.pts[z])]);
      MoveNext(s, line.pts, z);
      SetLast(q, Line(line.width, PartMoved(s, line.pts, z)), next);
      layer.lines := layer.lines[n := next];
    }
  }

  method AppendMovedShape(layer: Layer, shape: Shape, s: Spot, ghost w: World, ghost d: LayerData)
    requires layer in w.layers && d == LayerData(layer.lines, layer.shapes + [MovedShape(s, shape)])
    modifies layer`shapes
    ensures Snap(w) == old(Snap(w)) && GeoSnap(w) == old(GeoSnap(w))
    ensures ContentOf(w) == old(ContentOf(w)).(layers := old(ContentOf(w)).layers[layer := d])
  {
    hide GeoSnap, Snap;
    ghost var m := LayerDatas(w.layers);
    AppendShape(layer, shape, s);
    assert LayerDatas(w.layers)[layer] == LayerDataOf(layer);
    OneChanged(m, LayerDatas(w.layers), layer);
  }

  method AppendShape(layer: Layer, shape: Shape, s: Spot)
    modifies layer`shapes
    ensures layer.shapes == old(layer.shapes) + [MovedShape(s, shape)]
  {
    ghost var q := layer.shapes;
    var n := |layer.shapes|;
    layer.shapes := layer.shapes + [shape];
    MoveEnds(s, shape.pts);
    for z := 0 to |shape.pts|
      invariant layer.shapes == q + [Shape(PartMoved(s, shape.pts, z))]
    {
      var next := Shape(layer.shapes[n].pts[z := ToParent(s, shape.pts[z])]);
      MoveNext(s, shape.pts, z);
      SetLast(q, Shape(PartMoved(s, shape.pts, z)), next);
      layer.shapes := layer.shapes[n := next];
    }
  }

  method RaiseLine(layer: Layer, line: Line, s: Spot, ghost w: World)
    requires Coherent(w) && layer in w.layers && |line.pts| >= 2
    modifies layer`lines, layer`invalid, layer.geo`invalid, w.cells`invalid, w.insts`invalid
    ensures Coherent(w)
    ensures ContentOf(w) == old(ContentOf(w)).(layers := old(ContentOf(w)).layers[layer := LayerData(old(layer.lines) + [MovedLine(s, line)], layer.shapes)])
  {
    ghost var k, c, g := ContentOf(w), Snap(w), GeoSnap(w);
    ghost var p, d := PlanOf(k), LayerData(layer.lines + [MovedLine(s, line)], layer.shapes);
    PlanIsPlan(k);
    OkIsGrounded(p, c);
    InvalidateLayer(layer, w, k, p);
    AppendMovedLine(layer, line, s, w, d);
    DrawDone(k, p, c, g, ContentOf(w), Snap(w), GeoSnap(w), layer, d);
  }

  method RaiseShape(layer: Layer, shape: Shape, s: Spot, ghost w: World)
    requires Coherent(w) && layer in w.layers && |shape.pts| >= 3
    modifies layer`shapes, layer`invalid, layer.geo`invalid, w.cells`invalid, w.insts`invalid
    ensures Coherent(w)
    ensures ContentOf(w) == old(ContentOf(w)).(layers := old(ContentOf(w)).layers[layer := LayerData(layer.lines, old(layer.shapes) + [MovedShape(s, shape)])])
  {
    ghost var k, c, g := ContentOf(w), Snap(w), GeoSnap(w);
    ghost var p, d := PlanOf(k), LayerData(layer.lines, layer.shapes + [MovedShape(s, shape)]);
    PlanIsPlan(k);
    OkIsGrounded(p, c);
    InvalidateLayer(layer, w, k, p);
    AppendMovedShape(layer, shape, s, w, d);
    DrawDone(k, p, c, g, ContentOf(w), Snap(w), GeoSnap(w), layer, d);
  }

  // --- What the new corners do to the geometry's box ---------------------------

  function Grow(grown: bool, a: Box, b: Box): Box {
    if grown then Include(a, b) else a
  }

  // The list of every occurrence of the layer has grown by corners whose hull is b.
  lemma {:induction false} GrownHull(ls: seq<Layer>, layer: Layer, lists: seq<seq<Vec2>>, lists': seq<seq<Vec2>>, b: Box, n: nat)
    requires n <= |ls| == |lists| == |lists'|
    requires forall i :: 0 <= i < |ls| ==> Hull(lists'[i]) == Grow(ls[i] == layer, Hull(lists[i]), b)
    ensures Hull(Concat(lists'[..n])) == Grow(layer in ls[..n], Hull(Concat(lists[..n])), b)
  {
    hide Less, Concat;
    if n > 0 {
      GrownHull(ls, layer, lists, lists', b, n - 1);
      ConcatSnoc(lists, n - 1);
      ConcatSnoc(lists', n - 1);
      assert ls[..n] == ls[..n - 1] + [ls[n - 1]];
      GrowStep(layer in ls[..n - 1], ls[n - 1] == layer, b, Hull(Concat(lists[..n - 1])), Hull(lists[n - 1]), Hull(Concat(lists[..n])),
               Hull(Concat(lists'[..n - 1])), Hull(lists'[n - 1]), Hull(Concat(lists'[..n])));
    }
  }

  lemma {:induction false} GrowStep(f: bool, f': bool, b: Box, x: Box, y: Box, r: Box, x': Box, y': Box, r': Box)
    requires x' == Grow(f, x, b) && y' == Grow(f', y, b) && r == Include(x, y) && r' == Include(x', y')
    ensures r' == Grow(f || f', r, b)
  {
    IncludeSpreads(x, y, b);
  }

  lemma {:induction false} IncludeSpreads(a: Box, c: Box, b: Box)
    ensures Include(Include(a, b), c) == Include(Include(a, c), b)
    ensures Include(a, Include(c, b)) == Include(Include(a, c), b)
    ensures Include(Include(a, b), Include(c, b)) == Include(Include(a, c), b)
  {
    IncludeAssociative(a, b, c);
    IncludeAssociative(a, c, b);
    IncludeAssociative(Include(a, b), c, b);
    IncludeAssociative(Include(a, c), b, b);
  }

  lemma {:induction false} RedrawnBox(k: Content, k': Content, layer: Layer, d: LayerData, b: Box)
    requires Wf(k) && k'.geos == k.geos && layer in k.layers && k'.layers == k.layers[layer := d]
    requires Hull(LayerPoints(d)) == Include(Hull(LayerPoints(k.layers[layer])), b)
    ensures layer.geo in k.geos && Layered(k, layer.geo) && Layered(k', layer.geo)
    ensures GeoBox(k', layer.geo) == Include(GeoBox(k, layer.geo), b)
  {
    assert WfLayer(k, layer) && WfGeo(k, layer.geo);
    var ls := k.geos[layer.geo].layers;
    var lists, lists' := PointLists(k, ls), PointLists(k', ls);
    GrownHull(ls, layer, lists, lists', b, |ls|);
    assert ls[..|ls|] == ls && lists[..|ls|] == lists && lists'[..|ls|] == lists';
  }

  lemma {:induction false} LineGrows(d: LayerData, l: Line, hw: real, m: Box)
    requires hw == l.width / 2.0 && m == Hull(Widened(l.pts, hw))
    ensures Hull(LayerPoints(LayerData(d.lines + [l], d.shapes))) == Include(Hull(LayerPoints(d)), m)
  {
    assert (d.lines + [l])[..|d.lines|] == d.lines;
    var a, b, c := LinePoints(d.lines), Widened(l.pts, hw), ShapePoints(d.shapes);
    HullConcat(a, b);
    HullConcat(a + b, c);
    HullConcat(a, c);
    IncludeSpreads(Hull(a), Hull(c), m);
  }

  lemma {:induction false} ShapeGrows(d: LayerData, h: Shape)
    ensures Hull(LayerPoints(LayerData(d.lines, d.shapes + [h]))) == Include(Hull(LayerPoints(d)), Hull(h.pts))
  {
    assert (d.shapes + [h])[..|d.shapes|] == d.shapes;
    var a, b := LinePoints(d.lines), ShapePoints(d.shapes);
    assert a + (b + h.pts) == (a + b) + h.pts;
    HullConcat(a + b, h.pts);
  }

  function WithMovedLine(d: LayerData, line: Line, s: Spot): LayerData {
    LayerData(d.lines + [MovedLine(s, line)], d.shapes)
  }

  lemma {:induction false} MovedLineGrows(d: LayerData, line: Line, s: Spot)
    ensures Hull(LayerPoints(WithMovedLine(d, line, s))) ==
            Include(Hull(LayerPoints(d)), TrueBox(s, Hull(Widened(line.pts, line.width / 2.0))))
  {
    var hw := line.width / 2.0;
    WidenedToParent(s, line.pts, hw);
    LineGrows(d, MovedLine(s, line), hw, TrueBox(s, Hull(Widened(line.pts, hw))));
  }

  lemma {:induction false} MovedShapeGrows(d: LayerData, shape: Shape, s: Spot)
    ensures Hull(LayerPoints(LayerData(d.lines, d.shapes + [MovedShape(s, shape)]))) ==
            Include(Hull(LayerPoints(d)), TrueBox(s, Hull(shape.pts)))
  {
    ShapeGrows(d, MovedShape(s, shape));
    HullToParent(s, shape.pts);
  }

  // --- Raising a layer ---------------------------------------------------------

  // Only the layer dst differs, and its geometry covers the moved corners pts as well.
  ghost predicate Raised(k: Content, k': Content, dst: Layer, s: Spot, pts: seq<Vec2>) {
    && SameCells(k, k') && k'.geos == k.geos && dst in k.layers && dst in k'.layers
    && k'.layers == k.layers[dst := k'.layers[dst]]
    && Layered(k, dst.geo) && Layered(k', dst.geo)
    && GeoBox(k', dst.geo) == Include(GeoBox(k, dst.geo), TrueBox(s, Hull(pts)))
  }

  lemma {:induction false} TrueBoxConcat(s: Spot, a: seq<Vec2>, b: seq<Vec2>)
    ensures TrueBox(s, Hull(a + b)) == Include(TrueBox(s, Hull(a)), TrueBox(s, Hull(b)))
  {
    HullToParent(s, a);
    HullToParent(s, b);
    HullToParent(s, a + b);
    assert AllToParent(s, a + b) == AllToParent(s, a) + AllToParent(s, b);
    HullConcat(AllToParent(s, a), AllToParent(s, b));
  }

  lemma {:induction false} RaisedMore(k: Content, k': Content, k'': Content, dst: Layer, s: Spot, pts: seq<Vec2>, more: seq<Vec2>, d: LayerData)
    requires Wf(k') && Raised(k, k', dst, s, pts) && k'' == k'.(layers := k'.layers[dst := d])
    requires Hull(LayerPoints(d)) == Include(Hull(LayerPoints(k'.layers[dst])), TrueBox(s, Hull(more)))
    ensures Raised(k, k'', dst, s, pts + more)
  {
    hide Less, MirroredBox;
    RedrawnBox(k', k'', dst, d, TrueBox(s, Hull(more)));
    TrueBoxConcat(s, pts, more);
    IncludeAssociative(GeoBox(k, dst.geo), TrueBox(s, Hull(pts)), TrueBox(s, Hull(more)));
  }

  // The layer dst has the lines and shapes of e, moved, behind its own, and nothing else differs.
  ghost predicate LayerRaised(k: Content, k': Content, dst: Layer, s: Spot, e: LayerData) {
    Raised(k, k', dst, s, LayerPoints(e)) && k'.layers[dst] == DrawnOn(k.layers[dst], s, e)
  }

  lemma {:induction false} RaisedNothing(k: Content, dst: Layer, s: Spot)
    requires dst in k.layers && Layered(k, dst.geo)
    ensures LayerRaised(k, k, dst, s, LayerData([], []))
  {
    assert TrueBox(s, RESET) == RESET;
    IncludeAssociative(GeoBox(k, dst.geo), RESET, RESET);
  }

  lemma {:induction false} LineRaised(k: Content, k': Content, k'': Content, dst: Layer, s: Spot, lines: seq<Line>, z: nat)
    requires Wf(k') && dst in k'.layers && z < |lines| && LayerRaised(k, k', dst, s, LayerData(lines[..z], []))
    requires k'' == k'.(layers := k'.layers[dst := WithMovedLine(k'.layers[dst], lines[z], s)])
    ensures LayerRaised(k, k'', dst, s, LayerData(lines[..z + 1], []))
  {
    hide Raised, Wf, Widened, MovedLine;
    var e, e', more := LayerData(lines[..z], []), LayerData(lines[..z + 1], []), Widened(lines[z].pts, lines[z].width / 2.0);
    assert lines[..z + 1][..z] == lines[..z];
    assert LayerPoints(e') == LayerPoints(e) + more;
    MovedLineGrows(k'.layers[dst], lines[z], s);
    RaisedMore(k, k', k'', dst, s, LayerPoints(e), more, WithMovedLine(k'.layers[dst], lines[z], s));
    assert MovedLines(s, lines[..z + 1]) == MovedLines(s, lines[..z]) + [MovedLine(s, lines[z])];
  }

  lemma {:induction false} ShapeRaised(k: Content, k': Content, k'': Content, dst: Layer, s: Spot, lines: seq<Line>, shapes: seq<Shape>, z: nat)
    requires Wf(k') && dst in k'.layers && z < |shapes| && LayerRaised(k, k', dst, s, LayerData(lines, shapes[..z]))
    requires k'' == k'.(layers := k'.layers[dst := LayerData(k'.layers[dst].lines, k'.layers[dst].shapes + [MovedShape(s, shapes[z])])])
    ensures LayerRaised(k, k'', dst, s, LayerData(lines, shapes[..z + 1]))
  {
    hide Raised, Wf, MovedShape;
    var e, e', d := LayerData(lines, shapes[..z]), LayerData(lines, shapes[..z + 1]), k'.layers[dst];
    assert shapes[..z + 1][..z] == shapes[..z];
    assert LayerPoints(e') == LayerPoints(e) + shapes[z].pts;
    MovedShapeGrows(d, shapes[z], s);
    RaisedMore(k, k', k'', dst, s, LayerPoints(e), shapes[z].pts, LayerData(d.lines, d.shapes + [MovedShape(s, shapes[z])]));
    assert MovedShapes(s, shapes[..z + 1]) == MovedShapes(s, shapes[..z]) + [MovedShape(s, shapes[z])];
  }

  // What phx_layer_add_line and phx_layer_add_shape assert of what they are given.
  predicate Drawable(d: LayerData) {
    && (forall n :: 0 <= n < |d.lines| ==> |d.lines[n].pts| >= 2)
    && (forall n :: 0 <= n < |d.shapes| ==> |d.shapes[n].pts| >= 3)
  }

  // The loops over one layer of the source.
  method RaiseLines(lines: seq<Line>, dst: Layer, s: Spot, ghost w: World, ghost k: Content)
    requires Coherent(w) && dst in w.layers && Drawable(LayerData(lines, [])) && LayerRaised(k, ContentOf(w), dst, s, LayerData([], []))
    modifies dst`lines, dst`invalid, dst.geo`invalid, w.cells`invalid, w.insts`invalid
    ensures Coherent(w) && LayerRaised(k, ContentOf(w), dst, s, LayerData(lines, []))
  {
    hide Coherent, LayerRaised;
    for z := 0 to |lines|
      invariant Coherent(w) && LayerRaised(k, ContentOf(w), dst, s, LayerData(lines[..z], []))
    {
      ghost var k' := ContentOf(w);
      CoherentIsWf(w);
      assert k'.layers[dst] == LayerDataOf(dst);
      RaiseLine(dst, lines[z], s, w);
      LineRaised(k, k', ContentOf(w), dst, s, lines, z);
    }
    assert lines[..|lines|] == lines;
  }

  method RaiseShapes(lines: seq<Line>, shapes: seq<Shape>, dst: Layer, s: Spot, ghost w: World, ghost k: Content)
    requires Coherent(w) && dst in w.layers && Drawable(LayerData([], shapes)) && LayerRaised(k, ContentOf(w), dst, s, LayerData(lines, []))
    modifies dst`shapes, dst`invalid, dst.geo`invalid, w.cells`invalid, w.insts`invalid
    ensures Coherent(w) && LayerRaised(k, ContentOf(w), dst, s, LayerData(lines, shapes))
  {
    hide Coherent, LayerRaised;
    for z := 0 to |shapes|
      invariant Coherent(w) && LayerRaised(k, ContentOf(w), dst, s, LayerData(lines, shapes[..z]))
    {
      ghost var k' := ContentOf(w);
      CoherentIsWf(w);
      assert k'.layers[dst] == LayerDataOf(dst);
      RaiseShape(dst, shapes[z], s, w);
      ShapeRaised(k, k', ContentOf(w), dst, s, lines, shapes, z);
    }
    assert shapes[..|shapes|] == shapes;
  }

  method RaiseLayer(lines: seq<Line>, shapes: seq<Shape>, dst: Layer, s: Spot, ghost w: World)
    requires Coherent(w) && dst in w.layers && Drawable(LayerData(lines, shapes)) && Layered(ContentOf(w), dst.geo)
    modifies dst`lines, dst`shapes, dst`invalid, dst.geo`invalid, w.cells`invalid, w.insts`invalid
    ensures Coherent(w) && LayerRaised(old(ContentOf(w)), ContentOf(w), dst, s, LayerData(lines, shapes))
  {
    hide Coherent, LayerRaised, Layered;
    ghost var k := ContentOf(w);
    RaisedNothing(k, dst, s);
    RaiseLines(lines, dst, s, w, k);
    RaiseShapes(lines, shapes, dst, s, w, k);
  }

  // --- Raising a geometry --------------------------------------------------------

  // src is as it was; dst covers the moved corners of the first z layers as well.
  ghost predicate Copied(k: Content, k': Content, src: Geometry, dst: Geometry, s: Spot, pts: seq<Vec2>) {
    && src in k.geos && src in k'.geos && k'.geos[src] == k.geos[src] && Layered(k, src)
    && (forall n :: 0 <= n < |k.geos[src].layers| ==>
          k.geos[src].layers[n] in k'.layers && k'.layers[k.geos[src].layers[n]] == k.layers[k.geos[src].layers[n]])
    && Layered(k, dst) && Layered(k', dst)
    && GeoBox(k', dst) == Include(GeoBox(k, dst), TrueBox(s, Hull(pts)))
  }

  lemma {:induction false} CopiedLayer(k: Content, k1: Content, k2: Content, k3: Content, src: Geometry, dst: Geometry, layer: Layer,
                                       s: Spot, pts: seq<Vec2>, more: seq<Vec2>)
    requires Wf(k) && Copied(k, k1, src, dst, s, pts) && src != dst && layer.geo == dst
    requires KeepsDrawing(k1, k2, dst) && Raised(k2, k3, layer, s, more)
    ensures Copied(k, k3, src, dst, s, pts + more)
  {
    assert WfGeo(k, src);
    TrueBoxConcat(s, pts, more);
    IncludeAssociative(GeoBox(k, dst), TrueBox(s, Hull(pts)), TrueBox(s, Hull(more)));
    forall n | 0 <= n < |k.geos[src].layers|
      ensures k.geos[src].layers[n] in k3.layers && k3.layers[k.geos[src].layers[n]] == k.layers[k.geos[src].layers[n]]
    {
      var l := k.geos[src].layers[n];
      assert l.geo == src && l in k1.layers && l in k2.layers && k2.layers[l] == k1.layers[l];
    }
  }

  // What the layer l gets of the sources, each of which was drawn on a target.
  ghost function Received(l: Layer, s: Spot, sources: seq<LayerData>, targets: seq<Layer>, was: LayerData): LayerData
    requires |sources| == |targets|
  {
    if sources == [] then was
    else
      var n := |sources| - 1;
      var d := Received(l, s, sources[..n], targets[..n], was);
      if targets[n] == l then DrawnOn(d, s, sources[n]) else d
  }

  /** Every layer has what it had, a new one nothing, and behind that the moved lines and shapes
      of the sources that were drawn on it, in order. */
  ghost predicate Drawn(k: Content, k': Content, s: Spot, sources: seq<LayerData>, targets: seq<Layer>) {
    && |sources| == |targets| && k.layers.Keys <= k'.layers.Keys && (forall n :: 0 <= n < |targets| ==> targets[n] in k'.layers)
    && forall l {:trigger k'.layers[l]} :: l in k'.layers ==>
         k'.layers[l] == Received(l, s, sources, targets, if l in k.layers then k.layers[l] else LayerData([], []))
  }

  lemma {:induction false} DrawnMore(k: Content, k1: Content, k2: Content, k3: Content, s: Spot, sources: seq<LayerData>, targets: seq<Layer>,
                                     d: LayerData, onto: Layer)
    requires Drawn(k, k1, s, sources, targets)
    requires WithLayer(k1, k2, onto) && onto in k2.layers && k3.layers == k2.layers[onto := DrawnOn(k2.layers[onto], s, d)]
    ensures Drawn(k, k3, s, sources + [d], targets + [onto])
  {
    var n := |sources|;
    assert (sources + [d])[..n] == sources && (targets + [onto])[..n] == targets;
    forall l {:trigger k3.layers[l]} | l in k3.layers
      ensures k3.layers[l] == Received(l, s, sources + [d], targets + [onto], if l in k.layers then k.layers[l] else LayerData([], []))
    {
      if l !in k1.layers {
        ReceivedNothing(l, s, sources, targets, LayerData([], []));
      }
    }
  }

  lemma {:induction false} ReceivedNothing(l: Layer, s: Spot, sources: seq<LayerData>, targets: seq<Layer>, was: LayerData)
    requires |sources| == |targets| && forall i :: 0 <= i < |targets| ==> targets[i] != l
    ensures Received(l, s, sources, targets, was) == was
  {
    if sources != [] {
      ReceivedNothing(l, s, sources[..|sources| - 1], targets[..|sources| - 1], was);
    }
  }

  ghost function SourcesOf(k: Content, ls: seq<Layer>): (ds: seq<LayerData>)
    requires forall n :: 0 <= n < |ls| ==> ls[n] in k.layers
    ensures |ds| == |ls| && forall n :: 0 <= n < |ls| ==> ds[n] == k.layers[ls[n]]
  {
    seq(|ls|, n requires 0 <= n < |ls| => k.layers[ls[n]])
  }

  method CopyOnto(lines: seq<Line>, shapes: seq<Shape>, onto: Layer, s: Spot, ghost w: World,
                  ghost k: Content, ghost k1: Content, ghost src: Geometry, ghost pts: seq<Vec2>, ghost after: seq<Vec2>,
                  ghost sources: seq<LayerData>, ghost targets: seq<Layer>)
    requires Coherent(w) && onto in w.layers && Drawable(LayerData(lines, shapes)) && src != onto.geo && Wf(k)
    requires Copied(k, k1, src, onto.geo, s, pts) && KeepsDrawing(k1, ContentOf(w), onto.geo)
    requires Drawn(k, k1, s, sources, targets) && WithLayer(k1, ContentOf(w), onto)
    requires after == pts + LayerPoints(LayerData(lines, shapes))
    modifies onto`lines, onto`shapes, onto`invalid, onto.geo`invalid, w.cells`invalid, w.insts`invalid
    ensures Coherent(w) && Copied(k, ContentOf(w), src, onto.geo, s, after)
    ensures Drawn(k, ContentOf(w), s, sources + [LayerData(lines, shapes)], targets + [onto])
  {
    hide Coherent, Drawn, Copied, KeepsDrawing, WithLayer, Layered, DrawnOn;
    ghost var k2 := ContentOf(w);
    KeptLayered(k1, k2, onto.geo);
    RaiseLayer(lines, shapes, onto, s, w);
    CopiedLayer(k, k1, k2, ContentOf(w), src, onto.geo, onto, s, pts, LayerPoints(LayerData(lines, shapes)));
    DrawnMore(k, k1, k2, ContentOf(w), s, sources, targets, LayerData(lines, shapes), onto);
  }

  lemma {:induction false} KeptLayered(k: Content, k': Content, geo: Geometry)
    requires KeepsDrawing(k, k', geo)
    ensures Layered(k', geo)
  {
  }

  // The body of the loop over the layers of the source.
  method CopyLayer(layer: Layer, dst: Geometry, s: Spot, ghost w: World, ghost k: Content, ghost src: Geometry, ghost d: LayerData,
                   ghost pts: seq<Vec2>, ghost after: seq<Vec2>, ghost sources: seq<LayerData>, ghost targets: seq<Layer>)
    returns (ghost w': World, ghost target: Layer)
    requires Coherent(w) && dst in w.geos && layer in w.layers && d == LayerDataOf(layer) && Drawable(d) && src != dst && Wf(k)
    requires Drawn(k, ContentOf(w), s, sources, targets)
    requires Copied(k, ContentOf(w), src, dst, s, pts) && after == pts + LayerPoints(d)
    modifies dst`layers, dst`invalid, w.layers`lines, w.layers`shapes, w.layers`invalid, w.cells`invalid, w.insts`invalid
    ensures Wider(w, w') && forall l :: l in w'.layers ==> l in w.layers || fresh(l)
    ensures Coherent(w') && Copied(k, ContentOf(w'), src, dst, s, after)
    ensures Drawn(k, ContentOf(w'), s, sources + [d], targets + [target])
    ensures target in dst.layers && target.tech == layer.tech && old(dst.layers) <= dst.layers
  {
    hide Drawn, Copied, Coherent, KeepsDrawing, WithLayer, LayerPoints, Wf, Drawable, ContentOf;
    ghost var k1 := ContentOf(w);
    var lines, shapes := layer.lines, layer.shapes;
    var onto;
    onto, w' := OnLayer(dst, layer.tech, w);
    CopyOnto(lines, shapes, onto, s, w', k, k1, src, pts, after, sources, targets);
    target := onto;
  }

  // The first z layers of the source are copied.
  ghost predicate CopiedTo(k: Content, k': Content, src: Geometry, from: seq<Layer>, dst: Geometry, to: seq<Layer>, s: Spot,
                           targets: seq<Layer>, z: nat)
    requires forall n :: 0 <= n < |from| ==> from[n] in k.layers
  {
    && z <= |from| && Copied(k, k', src, dst, s, Concat(PointLists(k, from)[..z]))
    && |targets| == z && Drawn(k, k', s, SourcesOf(k, from)[..z], targets) && OnSameLayers(from[..z], to, targets)
  }

  method CopyNth(src: Geometry, dst: Geometry, z: nat, s: Spot, ghost w: World, ghost k: Content, ghost from: seq<Layer>, ghost targets: seq<Layer>)
    returns (ghost w': World, ghost targets': seq<Layer>)
    requires Coherent(w) && Wf(k) && src in w.geos && dst in w.geos && src != dst && z < |src.layers|
    requires src in k.geos && k.geos[src].layers == from == src.layers && forall n :: 0 <= n < |from| ==> from[n] in k.layers
    requires Drawable(k.layers[from[z]])
    requires CopiedTo(k, ContentOf(w), src, from, dst, dst.layers, s, targets, z)
    modifies dst`layers, dst`invalid, w.layers`lines, w.layers`shapes, w.layers`invalid, w.cells`invalid, w.insts`invalid
    ensures Wider(w, w') && forall l :: l in w'.layers ==> l in w.layers || fresh(l)
    ensures Coherent(w') && CopiedTo(k, ContentOf(w'), src, from, dst, dst.layers, s, targets', z + 1)
  {
    hide Coherent, Copied, Drawn, OnSameLayers, Concat;
    ghost var lists, sources, before := PointLists(k, from), SourcesOf(k, from), dst.layers;
    SourceLayer(src, z, w, k, dst, s, lists);
    assert src.layers[z] == from[z];
    ghost var target;
    w', target := CopyLayer(src.layers[z], dst, s, w, k, src, sources[z], Concat(lists[..z]), Concat(lists[..z + 1]), sources[..z], targets);
    TargetsMore(from, before, dst.layers, targets, target, z);
    PrefixSnoc(sources, z);
    targets' := targets + [target];
  }

  // The loop over the layers of the source.
  method CopyLayers(src: Geometry, dst: Geometry, s: Spot, ghost w: World, ghost k: Content, ghost from: seq<Layer>) returns (ghost w': World, ghost targets: seq<Layer>)
    requires Coherent(w) && k == ContentOf(w) && Wf(k) && src in w.geos && dst in w.geos && src != dst
    requires k.geos[src].layers == from == src.layers && forall n :: 0 <= n < |from| ==> from[n] in k.layers
    requires CopiedTo(k, k, src, from, dst, dst.layers, s, [], 0)
    requires forall n :: 0 <= n < |from| ==> Drawable(k.layers[from[n]])
    modifies dst`layers, dst`invalid, w.layers`lines, w.layers`shapes, w.layers`invalid, w.cells`invalid, w.insts`invalid
    ensures Wider(w, w') && forall l :: l in w'.layers ==> l in w.layers || fresh(l)
    ensures Coherent(w') && CopiedTo(k, ContentOf(w'), src, from, dst, dst.layers, s, targets, |from|)
  {
    hide Drawable, CopiedTo, Wf, Coherent;
    w', targets := w, [];
    for z := 0 to |src.layers|
      invariant Wider(w, w') && forall l :: l in w'.layers ==> l in w.layers || fresh(l)
      invariant Coherent(w') && CopiedTo(k, ContentOf(w'), src, from, dst, dst.layers, s, targets, z)
    {
      w', targets := CopyNth(src, dst, z, s, w', k, from, targets);
    }
  }

  // Each target is a layer of the destination on the same technology layer as its source.
  ghost predicate OnSameLayers(from: seq<Layer>, to: seq<Layer>, targets: seq<Layer>) {
    |targets| == |from| && forall n :: 0 <= n < |from| ==> targets[n] in to && targets[n].tech == from[n].tech
  }

  lemma {:induction false} TargetsMore(from: seq<Layer>, before: seq<Layer>, after: seq<Layer>, targets: seq<Layer>, target: Layer, z: nat)
    requires z < |from| && OnSameLayers(from[..z], before, targets) && before <= after
    requires target in after && target.tech == from[z].tech
    ensures OnSameLayers(from[..z + 1], after, targets + [target])
  {
  }

  lemma {:induction false} PrefixSnoc<T>(s: seq<T>, z: nat)
    requires z < |s|
    ensures s[..z + 1] == s[..z] + [s[z]]
  {
  }

  lemma {:induction false} CopyStarts(k: Content, src: Geometry, from: seq<Layer>, dst: Geometry, to: seq<Layer>, s: Spot)
    requires Wf(k) && src in k.geos && dst in k.geos && k.geos[src].layers == from
    ensures Layered(k, src) && CopiedTo(k, k, src, from, dst, to, s, [], 0)
  {
    assert WfGeo(k, src) && WfGeo(k, dst);
    assert TrueBox(s, RESET) == RESET;
    IncludeAssociative(GeoBox(k, dst), RESET, RESET);
  }

  /** phx_inst_copy_geometry_to_parent: each layer of the source is drawn, moved to the parent,
      on a layer of the destination for the same technology layer, behind what is there, and no
      other layer changes.  The destination comes to cover the source's box as it appears in
      the parent, next to what it covered before. */
  method CopyGeometryToParent(inst: Inst, src: Geometry, dst: Geometry, ghost w: World) returns (ghost w': World, ghost targets: seq<Layer>)
    requires Coherent(w) && src in w.geos && dst in w.geos && src != dst
    requires forall n :: 0 <= n < |src.layers| ==> Drawable(LayerDataOf(src.layers[n]))
    modifies dst`layers, dst`invalid, w.layers`lines, w.layers`shapes, w.layers`invalid, w.cells`invalid, w.insts`invalid
    ensures Wider(w, w') && forall l :: l in w'.layers ==> l in w.layers || fresh(l)
    ensures Coherent(w') && Layered(old(ContentOf(w)), src) && Layered(old(ContentOf(w)), dst) && Layered(ContentOf(w'), dst)
    ensures GeoBox(ContentOf(w'), dst) == Include(GeoBox(old(ContentOf(w)), dst), TrueBox(SpotOf(inst), GeoBox(old(ContentOf(w)), src)))
    ensures Drawn(old(ContentOf(w)), ContentOf(w'), SpotOf(inst), SourcesOf(old(ContentOf(w)), old(src.layers)), targets)
    ensures src.layers == old(src.layers) && OnSameLayers(src.layers, dst.layers, targets)
  {
    hide Coherent, Copied, GeoBox, Drawn, OnSameLayers, CellDatas, InstDatas, GeoSnap, Snap, PointLists, LayerPoints;
    ghost var k := ContentOf(w);
    var s := SpotOf(inst);
    CoherentIsWf(w);
    CopyStarts(k, src, src.layers, dst, dst.layers, s);
    assert k.geos[src] == GeoDataOf(src);
    w', targets := CopyLayers(src, dst, s, w, k, src.layers);
    CopiedAll(k, ContentOf(w'), src, src.layers, dst, dst.layers, s, targets);
  }

  lemma {:induction false} CoherentIsWf(w: World)
    requires Coherent(w)
    ensures Wf(ContentOf(w))
  {
  }

  lemma {:induction false} CopiedAll(k: Content, k': Content, src: Geometry, from: seq<Layer>, dst: Geometry, to: seq<Layer>, s: Spot, targets: seq<Layer>)
    requires Layered(k, src) && k.geos[src].layers == from && CopiedTo(k, k', src, from, dst, to, s, targets, |from|)
    ensures Layered(k, dst) && Layered(k', dst) && GeoBox(k', dst) == Include(GeoBox(k, dst), TrueBox(s, GeoBox(k, src)))
    ensures Drawn(k, k', s, SourcesOf(k, from), targets) && OnSameLayers(from, to, targets)
  {
    var lists, sources := PointLists(k, from), SourcesOf(k, from);
    assert lists[..|from|] == lists && sources[..|from|] == sources && from[..|from|] == from;
  }

  lemma {:induction false} SourceLayer(src: Geometry, z: nat, w: World, k: Content, dst: Geometry, s: Spot, lists: seq<seq<Vec2>>)
    requires z < |src.layers| == |lists| && Copied(k, ContentOf(w), src, dst, s, Concat(lists[..z])) && k.geos[src].layers == src.layers
    requires lists == PointLists(k, src.layers)
    ensures src.layers[z] in w.layers && k.layers[src.layers[z]] == LayerDataOf(src.layers[z])
    ensures Concat(lists[..z + 1]) == Concat(lists[..z]) + LayerPoints(LayerDataOf(src.layers[z]))
  {
    assert ContentOf(w).layers[src.layers[z]] == LayerDataOf(src.layers[z]);
    assert lists[..z + 1][..z] == lists[..z];
  }

  /** Raised into an empty geometry, the extents are the instance's box of the source's
      extents exactly when there is no rotation, or the mirrored box has its top edge
      opposite its left edge.  Line widths and empty sources are included. */
  lemma {:induction false} RaisedIsInstanceBoxIff(s: Spot, pts: seq<Vec2>, raised: Box)
    requires raised == Include(RESET, TrueBox(s, Hull(pts)))
    ensures raised == BoxToParent(s, Hull(pts)) <==>
            !s.orientation.rotate90 || MirroredBox(s.orientation, Hull(pts)).maxY == Negate(MirroredBox(s.orientation, Hull(pts)).minX)
  {
    IncludeAssociative(TrueBox(s, Hull(pts)), RESET, RESET);
    HullToParent(s, pts);
    InstanceBoxIff(s, pts);
  }

  /** Raising into an empty geometry and updating it: its extents are the instance's box of the
      source's extents exactly when there is no rotation, or the mirrored box has its top edge
      opposite its left edge. */
  method RaiseIntoEmpty(inst: Inst, src: Geometry, dst: Geometry, ghost w: World) returns (ghost w': World)
    requires Coherent(w) && src in w.geos && dst in w.geos && src != dst && dst.layers == []
    requires forall n :: 0 <= n < |src.layers| ==> Drawable(LayerDataOf(src.layers[n]))
    modifies dst`layers, dst`invalid, dst`ext, w.layers`lines, w.layers`shapes, w.layers`invalid, w.layers`ext, w.cells`invalid, w.insts`invalid
    ensures Coherent(w') && Layered(old(ContentOf(w)), src) && EXTENTS !in dst.invalid
    ensures var ext, s := GeoBox(old(ContentOf(w)), src), SpotOf(inst);
            dst.ext == TrueBox(s, ext)
            && (dst.ext == BoxToParent(s, ext) <==>
                  !s.orientation.rotate90 || MirroredBox(s.orientation, ext).maxY == Negate(MirroredBox(s.orientation, ext).minX))
  {
    hide Coherent;
    ghost var k := ContentOf(w);
    assert k.geos[dst] == GeoDataOf(dst);
    ghost var targets;
    w', targets := CopyGeometryToParent(inst, src, dst, w);
    UpdateRaised(dst, w, w');
    EmptyBefore(k, src, dst, SpotOf(inst), dst.ext);
  }

  method UpdateRaised(dst: Geometry, ghost w: World, ghost w': World)
    requires Coherent(w') && dst in w'.geos && Layered(ContentOf(w'), dst)
    modifies dst`invalid, dst`ext, w'.layers`invalid, w'.layers`ext
    ensures Coherent(w') && dst.ext == GeoBox(old(ContentOf(w')), dst) && EXTENTS !in dst.invalid
  {
    hide Wf, AllOk, GeosOk, PlanOf, GeoBox, Layered;
    ghost var k, c := ContentOf(w'), Snap(w');
    UpdateStill(dst, w', k);
    assert CoherentValues(k, c, GeoSnap(w'));
  }

  method UpdateStill(dst: Geometry, ghost w: World, ghost k: Content)
    requires GeosOk(k, GeoSnap(w)) && k == ContentOf(w) && dst in w.geos
    modifies dst`invalid, dst`ext, w.layers`invalid, w.layers`ext
    ensures ContentOf(w) == k && Snap(w) == old(Snap(w)) && GeosOk(k, GeoSnap(w)) && Layered(k, dst)
    ensures dst.ext == GeoBox(k, dst) && EXTENTS !in dst.invalid
  {
    hide ContentOf, GeosOk, GeoBox, Layered;
    UpdateContent(dst, w, k);
  }

  method UpdateContent(dst: Geometry, ghost w: World, ghost k: Content)
    requires GeosOk(k, GeoSnap(w)) && k == ContentOf(w) && dst in w.geos
    modifies dst`invalid, dst`ext, w.layers`invalid, w.layers`ext
    ensures ContentOf(w) == k && GeosOk(k, GeoSnap(w)) && Layered(k, dst)
    ensures dst.ext == GeoBox(k, dst) && EXTENTS !in dst.invalid
  {
    hide GeoDatas, CellDatas, InstDatas, LayerDatas, GeosOk, GeoBox, Layered, GeoSnap;
    UpdateGeometry(dst, {EXTENTS}, w, k);
  }

  lemma {:induction false} EmptyBefore(k: Content, src: Geometry, dst: Geometry, s: Spot, raised: Box)
    requires Layered(k, src) && Layered(k, dst) && k.geos[dst].layers == []
    requires raised == Include(GeoBox(k, dst), TrueBox(s, GeoBox(k, src)))
    ensures raised == TrueBox(s, GeoBox(k, src))
    ensures raised == BoxToParent(s, GeoBox(k, src)) <==>
            !s.orientation.rotate90
            || MirroredBox(s.orientation, GeoBox(k, src)).maxY == Negate(MirroredBox(s.orientation, GeoBox(k, src)).minX)
  {
    assert GeoBox(k, dst) == RESET;
    IncludeAssociative(TrueBox(s, GeoBox(k, src)), RESET, RESET);
    RaisedIsInstanceBoxIff(s, Concat(PointLists(k, k.geos[src].layers)), raised);
  }
}
