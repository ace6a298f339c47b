/** Drawing on layers (phx_layer_add_line, phx_layer_add_shape) and the invalidation that
    follows. */
module Drawing {
  import opened Marks
  import opened Extents
  import opened Design
  import opened Placement
  import opened GeometryUpdate
  import opened ExtentsCache
  import opened ExtentsUpdate
  import opened Edits

  // --- Contents that differ in geometry only -----------------------------------

  ghost predicate SameCells(k: Content, k': Content) {
    k'.cells == k.cells && k'.insts == k.insts
  }

  lemma {:induction false} SameCellsGrounded(k: Content, p: Plan, k': Content, p': Plan, s: Caches)
    requires IsPlan(k, p) && IsPlan(k', p') && SameCells(k, k') && Grounded(p, s)
    ensures Grounded(p', s)
  {
    forall c {:trigger s.cells[c]} | c in p'.own && s.cells[c].clean
      ensures forall n :: 0 <= n < |p'.insts[c]| ==> s.insts[p'.insts[c][n]].clean
    {
      assert CellPlanned(k, p, c) && CellPlanned(k', p', c);
    }
  }

  // The geometries of clean cells cover what they covered.
  ghost predicate DrawnLeft(k: Content, k': Content, s': Caches, g: Geometry)
    requires g in k.geos
  {
    k.geos[g].cell in s'.cells && s'.cells[k.geos[g].cell].clean ==> KeepsBox(k, k', g)
  }

  lemma {:induction false} DrawnParts(k: Content, s: Caches, k': Content, s': Caches)
    requires Wf(k) && SameCells(k, k') && s.cells.Keys == k.cells.Keys && s.insts.Keys == k.insts.Keys && Dirtied(s, s')
    requires forall g {:trigger DrawnLeft(k, k', s', g)} :: g in k.geos ==> DrawnLeft(k, k', s', g)
    ensures PartsLeft(k, s, k', s')
  {
    forall c {:trigger CellLeft(k, s, k', s', c)} | c in k'.cells ensures CellLeft(k, s, k', s', c) {
      assert WfCell(k, c) && DrawnLeft(k, k', s', c.geo);
      assert s'.cells[c].clean ==> s'.cells[c] == s.cells[c];
      forall n | 0 <= n < |k.cells[c].pins| ensures s'.cells[c].clean ==> KeepsBox(k, k', k.cells[c].pins[n].geo) {
        assert DrawnLeft(k, k', s', k.cells[c].pins[n].geo);
      }
    }
    forall i {:trigger InstLeft(k, s, k', s', i)} | i in k'.insts ensures InstLeft(k, s, k', s', i) {
      assert WfInst(k, i);
      assert s'.insts[i].clean ==> s'.insts[i] == s.insts[i];
    }
  }

  // --- Adding a line or a shape ------------------------------------------------

  // One layer has other corners; it, its geometry and its cell are dirty.
  ghost predicate Redrawn(k: Content, g: GeoCaches, k': Content, g': GeoCaches, layer: Layer, d: LayerData) {
    && SameCells(k, k') && layer in k.layers && layer.geo in k.geos
    && k'.geos == k.geos && k'.layers == k.layers[layer := d]
    && layer in g.layers && layer.geo in g.geos
    && g'.layers == g.layers[layer := Cache(false, g.layers[layer].ext)]
    && g'.geos == g.geos[layer.geo := Cache(false, g.geos[layer.geo].ext)]
  }

  lemma {:induction false} RedrawnWf(k: Content, k': Content, layer: Layer, d: LayerData)
    requires Wf(k) && SameCells(k, k') && k'.geos == k.geos && layer in k.layers && k'.layers == k.layers[layer := d]
    ensures Wf(k')
  {
    forall c {:trigger WfCell(k', c)} | c in k'.cells ensures WfCell(k', c) {
      assert WfCell(k, c);
    }
    forall i {:trigger WfInst(k', i)} | i in k'.insts ensures WfInst(k', i) {
      assert WfInst(k, i);
    }
    forall g {:trigger WfGeo(k', g)} | g in k'.geos ensures WfGeo(k', g) {
      assert WfGeo(k, g);
    }
    forall l {:trigger WfLayer(k', l)} | l in k'.layers ensures WfLayer(k', l) {
      assert WfLayer(k, l);
    }
  }

  // A geometry without the layer covers the same corners.
  lemma {:induction false} OtherGeoBox(k: Content, k': Content, layer: Layer, d: LayerData, g: Geometry)
    requires Wf(k) && k'.geos == k.geos && layer in k.layers && k'.layers == k.layers[layer := d]
    requires g in k.geos && g != layer.geo
    ensures KeepsBox(k, k', g)
  {
    assert WfGeo(k, g);
    var ls := k.geos[g].layers;
    forall n | 0 <= n < |ls| ensures ls[n] in k.layers && ls[n] in k'.layers && k'.layers[ls[n]] == k.layers[ls[n]] {
      assert ls[n].geo == g;
    }
    assert PointLists(k', ls) == PointLists(k, ls);
  }

  lemma {:induction false} RedrawnGeosOk(k: Content, g: GeoCaches, k': Content, g': GeoCaches, layer: Layer, d: LayerData)
    requires Wf(k) && Wf(k') && GeosOk(k, g) && Redrawn(k, g, k', g', layer, d)
    ensures GeosOk(k', g')
  {
    WfLayered(k');
    forall l {:trigger LayerOk(k', g', l)} | l in k'.layers ensures LayerOk(k', g', l) {
      assert LayerOk(k, g, l);
    }
    forall x {:trigger GeoOk(k', g', x)} | x in k'.geos ensures GeoOk(k', g', x) {
      assert Layered(k, x);
      assert GeoOk(k, g, x);
      if x != layer.geo {
        OtherGeoBox(k, k', layer, d, x);
      }
    }
  }

  lemma {:induction false} RedrawnIsOk(k: Content, p: Plan, s: Caches, g: GeoCaches,
                                       k': Content, p': Plan, s': Caches, g': GeoCaches, layer: Layer, d: LayerData)
    requires IsPlan(k, p) && AllOk(p, s) && Redrawn(k, g, k', g', layer, d) && IsPlan(k', p')
    requires Grounded(p', s') && Dirtied(s, s') && k.geos[layer.geo].cell in s'.cells && !s'.cells[k.geos[layer.geo].cell].clean
    ensures AllOk(p', s')
  {
    forall x {:trigger DrawnLeft(k, k', s', x)} | x in k.geos ensures DrawnLeft(k, k', s', x) {
      if x != layer.geo {
        OtherGeoBox(k, k', layer, d, x);
      }
    }
    DrawnParts(k, s, k', s');
    EditedIsOk(k, p, s, k', p', s');
  }

  // phx_layer_invalidate up to the cell.
  method FlagLayer(layer: Layer, ghost w: World)
    requires layer in w.layers && layer.geo in w.geos
    modifies layer`invalid, layer.geo`invalid
    ensures ContentOf(w) == old(ContentOf(w)) && Snap(w) == old(Snap(w))
    ensures var g := old(GeoSnap(w));
            && GeoSnap(w).layers == g.layers[layer := Cache(false, g.layers[layer].ext)]
            && GeoSnap(w).geos == g.geos[layer.geo := Cache(false, g.geos[layer.geo].ext)]
  {
    hide ContentOf;
    ghost var g := GeoSnap(w);
    assert g.layers[layer] == LayerCache(layer) && g.geos[layer.geo] == GeoCache(layer.geo);
    layer.invalid := layer.invalid + {EXTENTS};
    layer.geo.invalid := layer.geo.invalid + {EXTENTS};
    assert LayerCacheMap(w.layers)[layer] == LayerCache(layer) && GeoCacheMap(w.geos)[layer.geo] == GeoCache(layer.geo);
    OneChanged(g.layers, LayerCacheMap(w.layers), layer);
    OneChanged(g.geos, GeoCacheMap(w.geos), layer.geo);
  }

  method InvalidateLayer(layer: Layer, ghost w: World, ghost k: Content, ghost p: Plan)
    requires Touchable(w, k, p) && layer in w.layers
    modifies layer`invalid, layer.geo`invalid, w.cells`invalid, w.insts`invalid
    ensures layer.geo in w.geos && k.geos[layer.geo].cell in w.cells
    ensures Touchable(w, k, p) && Dirtied(old(Snap(w)), Snap(w)) && !Snap(w).cells[k.geos[layer.geo].cell].clean
    ensures var g := old(GeoSnap(w));
            && GeoSnap(w).layers == g.layers[layer := Cache(false, g.layers[layer].ext)]
            && GeoSnap(w).geos == g.geos[layer.geo := Cache(false, g.geos[layer.geo].ext)]
  {
    assert WfLayer(k, layer) && WfGeo(k, layer.geo) && k.geos[layer.geo] == GeoDataOf(layer.geo);
    FlagLayer(layer, w);
    TouchCell(layer.geo.cell, w, k, p);
  }

  method Append(layer: Layer, lines: seq<Line>, shapes: seq<Shape>, ghost w: World)
    requires layer in w.layers
    modifies layer`lines, layer`shapes
    ensures Snap(w) == old(Snap(w)) && GeoSnap(w) == old(GeoSnap(w))
    ensures ContentOf(w) == old(ContentOf(w)).(layers := old(ContentOf(w)).layers[layer := LayerData(old(layer.lines) + lines, old(layer.shapes) + shapes)])
  {
    hide GeoSnap, CellDatas;
    ghost var m := LayerDatas(w.layers);
    layer.lines := layer.lines + lines;
    layer.shapes := layer.shapes + shapes;
    assert LayerDatas(w.layers)[layer] == LayerDataOf(layer);
    OneChanged(m, LayerDatas(w.layers), layer);
  }

  method Draw(layer: Layer, lines: seq<Line>, shapes: seq<Shape>, ghost w: World)
    requires Coherent(w) && layer in w.layers
    modifies layer`lines, layer`shapes, layer`invalid, layer.geo`invalid, w.cells`invalid, w.insts`invalid
    ensures Coherent(w)
    ensures ContentOf(w) == old(ContentOf(w)).(layers := old(ContentOf(w)).layers[layer := LayerData(old(layer.lines) + lines, old(layer.shapes) + shapes)])
  {
    ghost var k, s, g := ContentOf(w), Snap(w), GeoSnap(w);
    ghost var p, d := PlanOf(k), LayerData(layer.lines + lines, layer.shapes + shapes);
    PlanIsPlan(k);
    OkIsGrounded(p, s);
    InvalidateLayer(layer, w, k, p);
    Append(layer, lines, shapes, w);
    DrawDone(k, p, s, g, ContentOf(w), Snap(w), GeoSnap(w), layer, d);
  }

  lemma {:induction false} DrawDone(k: Content, p: Plan, s: Caches, g: GeoCaches, k': Content, s': Caches, g': GeoCaches, layer: Layer, d: LayerData)
    requires IsPlan(k, p) && AllOk(p, s) && GeosOk(k, g) && Redrawn(k, g, k', g', layer, d)
    requires Grounded(p, s') && Dirtied(s, s') && k.geos[layer.geo].cell in s'.cells && !s'.cells[k.geos[layer.geo].cell].clean
    ensures CoherentValues(k', s', g')
  {
    RedrawnWf(k, k', layer, d);
    PlanIsPlan(k');
    SameCellsGrounded(k, p, k', PlanOf(k'), s');
    RedrawnIsOk(k, p, s, g, k', PlanOf(k'), s', g', layer, d);
    RedrawnGeosOk(k, g, k', g', layer, d);
  }

  /** phx_layer_add_line. */
  method AddLine(layer: Layer, width: real, pts: seq<Vec2>, ghost w: World)
    requires Coherent(w) && layer in w.layers && |pts| >= 2
    modifies layer`lines, layer`shapes, layer`invalid, layer.geo`invalid, w.cells`invalid, w.insts`invalid
    ensures Coherent(w)
    ensures layer.lines == old(layer.lines) + [Line(width, pts)] && layer.shapes == old(layer.shapes)
    ensures ContentOf(w) == old(ContentOf(w)).(layers := old(ContentOf(w)).layers[layer := LayerDataOf(layer)])
  {
    Draw(layer, [Line(width, pts)], [], w);
    assert LayerDatas(w.layers)[layer] == LayerDataOf(layer);
  }

  /** phx_layer_add_shape. */
  method AddShape(layer: Layer, pts: seq<Vec2>, ghost w: World)
    requires Coherent(w) && layer in w.layers && |pts| >= 3
    modifies layer`lines, layer`shapes, layer`invalid, layer.geo`invalid, w.cells`invalid, w.insts`invalid
    ensures Coherent(w)
    ensures layer.lines == old(layer.lines) && layer.shapes == old(layer.shapes) + [Shape(pts)]
    ensures ContentOf(w) == old(ContentOf(w)).(layers := old(ContentOf(w)).layers[layer := LayerDataOf(layer)])
  {
    Draw(layer, [], [Shape(pts)], w);
    assert LayerDatas(w.layers)[layer] == LayerDataOf(layer);
  }
}
