/** Extents of layers and geometries: the hull of every corner of every line and shape,
    recomputed where the extents bit is set. */
module GeometryUpdate {
  import opened Marks
  import opened Extents
  import opened Design
  import opened Placement

  // --- From scratch --------------------------------------------------------

  function LinePoints(lines: seq<Line>): (pts: seq<Vec2>) {
    if lines == [] then []
    else
      var l := lines[|lines| - 1];
      LinePoints(lines[..|lines| - 1]) + Widened(l.pts, l.width / 2.0)
  }

  function ShapePoints(shapes: seq<Shape>): (pts: seq<Vec2>) {
    if shapes == [] then [] else ShapePoints(shapes[..|shapes| - 1]) + shapes[|shapes| - 1].pts
  }

  /** The corners that a layer's extents have to cover. */
  function LayerPoints(d: LayerData): seq<Vec2> {
    LinePoints(d.lines) + ShapePoints(d.shapes)
  }

  // The corners layer by layer.
  ghost function PointLists(k: Content, ls: seq<Layer>): (lists: seq<seq<Vec2>>)
    requires forall n :: 0 <= n < |ls| ==> ls[n] in k.layers
    ensures |lists| == |ls| && forall n :: 0 <= n < |ls| ==> lists[n] == LayerPoints(k.layers[ls[n]])
  {
    seq(|ls|, n requires 0 <= n < |ls| => LayerPoints(k.layers[ls[n]]))
  }

  function Concat(lists: seq<seq<Vec2>>): seq<Vec2> {
    if lists == [] then [] else Concat(lists[..|lists| - 1]) + lists[|lists| - 1]
  }

  ghost predicate Layered(k: Content, g: Geometry) {
    g in k.geos && forall n :: 0 <= n < |k.geos[g].layers| ==> k.geos[g].layers[n] in k.layers
  }

  ghost predicate AllLayered(k: Content) {
    forall g {:trigger Layered(k, g)} :: g in k.geos ==> Layered(k, g)
  }

  /** The extents of a geometry, from scratch. */
  ghost function GeoBox(k: Content, g: Geometry): Box
    requires Layered(k, g)
  {
    Hull(Concat(PointLists(k, k.geos[g].layers)))
  }

  // --- The caches ----------------------------------------------------------

  datatype Cache = Cache(clean: bool, ext: Box)

  datatype GeoCaches = GeoCaches(geos: map<Geometry, Cache>, layers: map<Layer, Cache>)

  ghost function LayerCache(l: Layer): Cache
    reads l`invalid, l`ext
  {
    Cache(EXTENTS !in l.invalid, l.ext)
  }

  ghost function GeoCache(g: Geometry): Cache
    reads g`invalid, g`ext
  {
    Cache(EXTENTS !in g.invalid, g.ext)
  }

  ghost function GeoCacheMap(geos: set<Geometry>): (m: map<Geometry, Cache>)
    reads geos`invalid, geos`ext
    ensures m.Keys == geos && forall g {:trigger m[g]} :: g in geos ==> m[g] == GeoCache(g)
  {
    map g | g in geos :: GeoCache(g)
  }

  ghost function LayerCacheMap(layers: set<Layer>): (m: map<Layer, Cache>)
    reads layers`invalid, layers`ext
    ensures m.Keys == layers && forall l {:trigger m[l]} :: l in layers ==> m[l] == LayerCache(l)
  {
    map l | l in layers :: LayerCache(l)
  }

  ghost function GeoSnap(w: World): GeoCaches
    reads w.geos`invalid, w.geos`ext, w.layers`invalid, w.layers`ext
  {
    GeoCaches(GeoCacheMap(w.geos), LayerCacheMap(w.layers))
  }

  /** A clean layer covers its corners, a clean geometry those of its layers. */
  ghost predicate LayerOk(k: Content, s: GeoCaches, l: Layer)
    requires l in k.layers && l in s.layers
  {
    s.layers[l].clean ==> s.layers[l].ext == Hull(LayerPoints(k.layers[l]))
  }

  ghost predicate GeoOk(k: Content, s: GeoCaches, g: Geometry)
    requires Layered(k, g) && g in s.geos
  {
    s.geos[g].clean ==> s.geos[g].ext == GeoBox(k, g)
  }

  ghost predicate GeosOk(k: Content, s: GeoCaches) {
    && s.geos.Keys == k.geos.Keys && s.layers.Keys == k.layers.Keys
    && (forall l {:trigger LayerOk(k, s, l)} :: l in k.layers ==> LayerOk(k, s, l))
    && AllLayered(k)
    && (forall g {:trigger GeoOk(k, s, g)} :: g in k.geos ==> GeoOk(k, s, g))
  }

  // The inner loop over the points of a line.
  method CoverLine(layer: Layer, line: Line, ghost before: seq<Vec2>)
    requires layer.ext == Hull(before)
    modifies layer`ext
    ensures layer.ext == Hull(before + Widened(line.pts, line.width / 2.0))
  {
    var hw := line.width / 2.0;
    assert before + Widened(line.pts[..0], hw) == before;
    for k := 0 to |line.pts|
      invariant layer.ext == Hull(before + Widened(line.pts[..k], hw))
    {
      var pt := line.pts[k];
      var lo, hi := Vec2(pt.x - hw, pt.y - hw), Vec2(pt.x + hw, pt.y + hw);
      WidenStep(before, line.pts, k, hw, lo, hi);
      layer.ext := Add(layer.ext, lo);
      layer.ext := Add(layer.ext, hi);
    }
    assert line.pts[..|line.pts|] == line.pts;
  }

  // The inner loop over the points of a shape.
  method CoverShape(layer: Layer, shape: Shape, ghost before: seq<Vec2>)
    requires layer.ext == Hull(before)
    modifies layer`ext
    ensures layer.ext == Hull(before + shape.pts)
  {
    assert before + shape.pts[..0] == before;
    for k := 0 to |shape.pts|
      invariant layer.ext == Hull(before + shape.pts[..k])
    {
      HullSnoc(before, shape.pts, k);
      layer.ext := Add(layer.ext, shape.pts[k]);
    }
    assert shape.pts[..|shape.pts|] == shape.pts;
  }

  /** phx_layer_update_extents. */
  method UpdateLayerExtents(layer: Layer)
    modifies layer`invalid, layer`ext
    ensures layer.ext == Hull(LayerPoints(LayerDataOf(layer))) && layer.invalid == old(layer.invalid) - {EXTENTS}
  {
    hide Hull, Less, LinePoints, ShapePoints;
    LinesStart();
    layer.invalid := layer.invalid - {EXTENTS};
    layer.ext := RESET;
    for z := 0 to |layer.lines|
      invariant layer.ext == Hull(LinePoints(layer.lines[..z])) && layer.invalid == old(layer.invalid) - {EXTENTS}
    {
      LinesStep(layer.lines, z);
      CoverLine(layer, layer.lines[z], LinePoints(layer.lines[..z]));
    }
    ghost var lines := LinePoints(layer.lines);
    ShapesStart(lines);
    assert layer.lines[..|layer.lines|] == layer.lines;
    for z := 0 to |layer.shapes|
      invariant layer.ext == Hull(lines + ShapePoints(layer.shapes[..z])) && layer.invalid == old(layer.invalid) - {EXTENTS}
    {
      ShapesStep(lines, layer.shapes, z);
      CoverShape(layer, layer.shapes[z], lines + ShapePoints(layer.shapes[..z]));
    }
    assert layer.shapes[..|layer.shapes|] == layer.shapes;
  }

  lemma {:induction false} LinesStart()
    ensures LinePoints([]) == [] && Hull([]) == RESET
  {
  }

  lemma {:induction false} ShapesStart(lines: seq<Vec2>)
    ensures lines + ShapePoints([]) == lines
  {
  }

  lemma {:induction false} LinesStep(lines: seq<Line>, z: nat)
    requires z < |lines|
    ensures LinePoints(lines[..z + 1]) == LinePoints(lines[..z]) + Widened(lines[z].pts, lines[z].width / 2.0)
  {
    assert lines[..z + 1][..z] == lines[..z];
  }

  lemma {:induction false} ShapesStep(lines: seq<Vec2>, shapes: seq<Shape>, z: nat)
    requires z < |shapes|
    ensures lines + ShapePoints(shapes[..z + 1]) == lines + ShapePoints(shapes[..z]) + shapes[z].pts
  {
    assert shapes[..z + 1][..z] == shapes[..z];
  }

  lemma {:induction false} HullSnoc(before: seq<Vec2>, pts: seq<Vec2>, k: nat)
    requires k < |pts|
    ensures Hull(before + pts[..k + 1]) == Add(Hull(before + pts[..k]), pts[k])
  {
    var all := before + pts[..k + 1];
    assert all[..|all| - 1] == before + pts[..k];
  }

  lemma {:induction false} WidenStep(before: seq<Vec2>, pts: seq<Vec2>, k: nat, hw: real, lo: Vec2, hi: Vec2)
    requires k < |pts| && Around(pts[k], hw, lo, hi)
    ensures Hull(before + Widened(pts[..k + 1], hw)) == Add(Add(Hull(before + Widened(pts[..k], hw)), lo), hi)
  {
    var all := before + Widened(pts[..k + 1], hw);
    assert pts[..k + 1][..k] == pts[..k];
    var n := |all|;
    assert all[..n - 1][..n - 2] == before + Widened(pts[..k], hw);
    assert all[n - 1] == hi && all[..n - 1][n - 2] == lo;
  }

  /** phx_layer_update. */
  method UpdateLayer(layer: Layer, bits: set<Bit>)
    modifies layer`invalid, layer`ext
    ensures EXTENTS in bits * old(layer.invalid) ==>
              layer.ext == Hull(LayerPoints(LayerDataOf(layer))) && layer.invalid == old(layer.invalid) - {EXTENTS}
    ensures EXTENTS !in bits * old(layer.invalid) ==> layer.ext == old(layer.ext) && layer.invalid == old(layer.invalid)
  {
    if EXTENTS in layer.invalid * bits {
      UpdateLayerExtents(layer);
    }
  }

  // The body of the loop over the layers.
  method CoverLayer(geo: Geometry, layer: Layer, ghost w: World, ghost k: Content)
    requires k.layers == LayerDatas(w.layers) && geo in w.geos && layer in w.layers && EXTENTS !in geo.invalid
    requires LayerOk(k, GeoSnap(w), layer)
    modifies geo`ext, layer`invalid, layer`ext
    ensures GeoSnap(w).geos == old(GeoSnap(w)).geos[geo := Cache(true, Include(old(geo.ext), Hull(LayerPoints(k.layers[layer]))))]
    ensures GeoSnap(w).layers == old(GeoSnap(w)).layers[layer := Cache(true, Hull(LayerPoints(k.layers[layer])))]
  {
    ghost var s, x := GeoSnap(w), Hull(LayerPoints(k.layers[layer]));
    assert k.layers[layer] == LayerDataOf(layer) && s.layers[layer] == LayerCache(layer);
    UpdateLayer(layer, {EXTENTS});
    assert LayerCache(layer) == Cache(true, x);
    geo.ext := Include(geo.ext, layer.ext);
    assert GeoCache(geo) == Cache(true, Include(old(geo.ext), x));
    OneChanged(s.geos, GeoSnap(w).geos, geo);
    OneChanged(s.layers, GeoSnap(w).layers, layer);
  }

  // The layers stay right, and every geometry but the one being recomputed.
  ghost predicate Covering(k: Content, s: GeoCaches, s': GeoCaches, geo: Geometry) {
    && Layered(k, geo) && s'.geos.Keys == k.geos.Keys && s'.layers.Keys == k.layers.Keys
    && (forall l {:trigger LayerOk(k, s', l)} :: l in k.layers ==> LayerOk(k, s', l))
    && s.geos.Keys == k.geos.Keys && s'.geos == s.geos[geo := s'.geos[geo]] && s'.geos[geo].clean
  }

  lemma {:induction false} CoverStep(k: Content, s: GeoCaches, s': GeoCaches, t: GeoCaches, geo: Geometry, l: Layer)
    requires Covering(k, s, s', geo) && l in k.layers
    requires geo in t.geos && t.geos == s'.geos[geo := t.geos[geo]] && t.geos[geo].clean
    requires t.layers == s'.layers[l := Cache(true, Hull(LayerPoints(k.layers[l])))]
    ensures Covering(k, s, t, geo)
  {
    forall m {:trigger LayerOk(k, t, m)} | m in k.layers ensures LayerOk(k, t, m) {
      assert LayerOk(k, s', m);
    }
  }

  lemma {:induction false} CoverDone(k: Content, s: GeoCaches, s': GeoCaches, geo: Geometry)
    requires GeosOk(k, s) && Covering(k, s, s', geo) && s'.geos[geo].ext == GeoBox(k, geo)
    ensures GeosOk(k, s')
  {
    forall g {:trigger GeoOk(k, s', g)} | g in k.geos ensures GeoOk(k, s', g) {
      assert GeoOk(k, s, g);
    }
  }

  lemma {:induction false} ConcatSnoc(lists: seq<seq<Vec2>>, z: nat)
    requires z < |lists|
    ensures Hull(Concat(lists[..z + 1])) == Include(Hull(Concat(lists[..z])), Hull(lists[z]))
  {
    assert lists[..z + 1][..z] == lists[..z];
    HullConcat(Concat(lists[..z]), lists[z]);
  }

  method StartGeometry(geo: Geometry, ghost w: World, ghost k: Content)
    requires GeosOk(k, GeoSnap(w)) && geo in w.geos
    modifies geo`invalid, geo`ext
    ensures Covering(k, old(GeoSnap(w)), GeoSnap(w), geo) && geo.ext == RESET && geo.invalid == old(geo.invalid) - {EXTENTS}
  {
    ghost var s := GeoSnap(w);
    geo.invalid := geo.invalid - {EXTENTS};
    geo.ext := RESET;
    assert Layered(k, geo);
    forall l {:trigger LayerOk(k, GeoSnap(w), l)} | l in k.layers ensures LayerOk(k, GeoSnap(w), l) {
      assert LayerOk(k, s, l);
    }
    assert GeoSnap(w).geos == s.geos[geo := GeoCache(geo)];
  }

  /** phx_geometry_update_extents. */
  method UpdateGeometryExtents(geo: Geometry, ghost w: World, ghost k: Content)
    requires k.geos == GeoDatas(w.geos) && k.layers == LayerDatas(w.layers) && GeosOk(k, GeoSnap(w)) && geo in w.geos
    modifies geo`invalid, geo`ext, w.layers`invalid, w.layers`ext
    ensures GeosOk(k, GeoSnap(w)) && Layered(k, geo) && geo.ext == GeoBox(k, geo) && geo.invalid == old(geo.invalid) - {EXTENTS}
  {
    hide Covering, PointLists, Layered, GeosOk, GeoDatas, LayerDatas, GeoSnap, GeoBox, Hull, Concat;
    ghost var s := GeoSnap(w);
    StartGeometry(geo, w, k);
    ghost var lists := LayerLists(geo, w, k, s);
    for z := 0 to |geo.layers|
      invariant Covering(k, s, GeoSnap(w), geo) && geo.ext == Hull(Concat(lists[..z]))
      invariant geo.invalid == old(geo.invalid) - {EXTENTS} && k.geos[geo] == GeoDataOf(geo)
    {
      CoverNth(geo, z, w, k, s, lists);
    }
    FinishGeometry(geo, w, k, s, lists);
  }

  lemma {:induction false} LayerLists(geo: Geometry, w: World, k: Content, s: GeoCaches) returns (lists: seq<seq<Vec2>>)
    requires k.geos == GeoDatas(w.geos) && geo in w.geos && Covering(k, s, GeoSnap(w), geo)
    ensures Layered(k, geo) && geo in k.geos && k.geos[geo] == GeoDataOf(geo)
    ensures (forall n :: 0 <= n < |geo.layers| ==> geo.layers[n] in k.layers) && lists == PointLists(k, geo.layers)
    ensures |lists| == |geo.layers| && Hull(Concat(lists[..0])) == RESET
  {
    assert k.geos[geo] == GeoDataOf(geo);
    lists := PointLists(k, geo.layers);
  }

  lemma {:induction false} FinishGeometry(geo: Geometry, w: World, k: Content, s: GeoCaches, lists: seq<seq<Vec2>>)
    requires k.geos == GeoDatas(w.geos) && geo in w.geos && GeosOk(k, s) && Covering(k, s, GeoSnap(w), geo) && Layered(k, geo)
    requires forall n :: 0 <= n < |geo.layers| ==> geo.layers[n] in k.layers
    requires lists == PointLists(k, geo.layers) && geo.ext == Hull(Concat(lists[..|lists|]))
    ensures GeosOk(k, GeoSnap(w)) && geo.ext == GeoBox(k, geo)
  {
    assert k.geos[geo] == GeoDataOf(geo);
    assert lists[..|lists|] == lists;
    assert GeoSnap(w).geos[geo] == GeoCache(geo);
    CoverDone(k, s, GeoSnap(w), geo);
  }

  method CoverNth(geo: Geometry, z: nat, ghost w: World, ghost k: Content, ghost s: GeoCaches, ghost lists: seq<seq<Vec2>>)
    requires k.layers == LayerDatas(w.layers) && geo in w.geos && Covering(k, s, GeoSnap(w), geo)
    requires z < |geo.layers| && k.geos[geo] == GeoDataOf(geo) && lists == PointLists(k, geo.layers)
    requires geo.ext == Hull(Concat(lists[..z]))
    modifies geo`ext, w.layers`invalid, w.layers`ext
    ensures Covering(k, s, GeoSnap(w), geo) && geo.ext == Hull(Concat(lists[..z + 1]))
  {
    ghost var s' := GeoSnap(w);
    var layer := geo.layers[z];
    assert layer in k.layers;
    assert LayerOk(k, s', layer) && s'.geos[geo] == GeoCache(geo);
    CoverLayer(geo, layer, w, k);
    CoverStep(k, s, s', GeoSnap(w), geo, layer);
    assert GeoSnap(w).geos[geo] == GeoCache(geo);
    ConcatSnoc(lists, z);
  }

  /** phx_geometry_update: a recomputed geometry covers exactly its corners, whichever
      of its layers were up to date. */
  method UpdateGeometry(geo: Geometry, bits: set<Bit>, ghost w: World, ghost k: Content)
    requires k.geos == GeoDatas(w.geos) && k.layers == LayerDatas(w.layers) && GeosOk(k, GeoSnap(w)) && geo in w.geos
    modifies geo`invalid, geo`ext, w.layers`invalid, w.layers`ext
    ensures GeosOk(k, GeoSnap(w)) && Layered(k, geo)
    ensures EXTENTS in bits ==> geo.ext == GeoBox(k, geo) && geo.invalid == old(geo.invalid) - {EXTENTS}
    ensures EXTENTS !in bits ==> geo.ext == old(geo.ext) && geo.invalid == old(geo.invalid)
  {
    if EXTENTS in geo.invalid * bits {
      UpdateGeometryExtents(geo, w, k);
    } else {
      assert GeoOk(k, GeoSnap(w), geo);
    }
  }
}
