/** New layers (phx_geometry_on_layer) and pins (cell_find_pin): they are dirty but empty, so the
    cells above them may stay clean. */
module Growing {
  import opened Marks
  import opened Extents
  import opened Design
  import opened Placement
  import opened GeometryUpdate
  import opened ExtentsCache
  import opened ExtentsUpdate
  import opened Edits
  import opened Drawing

  // --- A layer -----------------------------------------------------------------

  ghost predicate LayerAdded(k: Content, g: GeoCaches, k': Content, g': GeoCaches, geo: Geometry, layer: Layer) {
    && SameCells(k, k') && geo in k.geos && layer !in k.layers && layer.geo == geo
    && k'.geos == k.geos[geo := GeoData(k.geos[geo].cell, k.geos[geo].layers + [layer])]
    && k'.layers == k.layers[layer := LayerData([], [])]
    && g'.geos == g.geos && layer in g'.layers && !g'.layers[layer].clean && g'.layers == g.layers[layer := g'.layers[layer]]
  }

  lemma {:induction false} LayerAddedWf(k: Content, g: GeoCaches, k': Content, g': GeoCaches, geo: Geometry, layer: Layer)
    requires Wf(k) && LayerAdded(k, g, k', g', geo, layer)
    ensures Wf(k')
  {
    forall c {:trigger WfCell(k', c)} | c in k'.cells ensures WfCell(k', c) {
      assert WfCell(k, c);
    }
    forall i {:trigger WfInst(k', i)} | i in k'.insts ensures WfInst(k', i) {
      assert WfInst(k, i);
    }
    forall x {:trigger WfGeo(k', x)} | x in k'.geos ensures WfGeo(k', x) {
      assert WfGeo(k, x);
    }
    forall l {:trigger WfLayer(k', l)} | l in k'.layers ensures WfLayer(k', l) {
      assert l != layer ==> WfLayer(k, l);
      assert layer in k.geos[geo].layers + [layer];
    }
  }

  // An empty layer covers nothing.
  lemma {:induction false} LayerAddedBox(k: Content, g: GeoCaches, k': Content, g': GeoCaches, geo: Geometry, layer: Layer, x: Geometry)
    requires Wf(k) && LayerAdded(k, g, k', g', geo, layer) && x in k.geos
    ensures KeepsBox(k, k', x)
  {
    assert WfGeo(k, x);
    var ls := k.geos[x].layers;
    assert PointLists(k', ls) == PointLists(k, ls);
    if x == geo {
      EmptyLayerBox(k', ls, layer);
    }
  }

  lemma {:induction false} EmptyLayerBox(k: Content, ls: seq<Layer>, layer: Layer)
    requires (forall n :: 0 <= n < |ls| ==> ls[n] in k.layers) && layer in k.layers && k.layers[layer] == LayerData([], [])
    ensures Concat(PointLists(k, ls + [layer])) == Concat(PointLists(k, ls))
  {
    var lists, more := PointLists(k, ls), PointLists(k, ls + [layer]);
    assert LayerPoints(LayerData([], [])) == [];
    assert more == lists + [[]] && more[..|lists|] == lists;
    assert Concat(lists) + [] == Concat(lists);
  }

  lemma {:induction false} LayerAddedIsOk(k: Content, p: Plan, s: Caches, g: GeoCaches, k': Content, g': GeoCaches, geo: Geometry, layer: Layer)
    requires IsPlan(k, p) && AllOk(p, s) && GeosOk(k, g) && LayerAdded(k, g, k', g', geo, layer)
    ensures CoherentValues(k', s, g')
  {
    LayerAddedWf(k, g, k', g', geo, layer);
    PlanIsPlan(k');
    OkIsGrounded(p, s);
    SameCellsGrounded(k, p, k', PlanOf(k'), s);
    forall x {:trigger DrawnLeft(k, k', s, x)} | x in k.geos ensures DrawnLeft(k, k', s, x) {
      LayerAddedBox(k, g, k', g', geo, layer, x);
    }
    DrawnParts(k, s, k', s);
    EditedIsOk(k, p, s, k', PlanOf(k'), s);
    LayerAddedGeosOk(k, g, k', g', geo, layer);
  }

  lemma {:induction false} LayerAddedGeosOk(k: Content, g: GeoCaches, k': Content, g': GeoCaches, geo: Geometry, layer: Layer)
    requires Wf(k) && Wf(k') && GeosOk(k, g) && LayerAdded(k, g, k', g', geo, layer)
    ensures GeosOk(k', g')
  {
    WfLayered(k');
    forall l {:trigger LayerOk(k', g', l)} | l in k'.layers ensures LayerOk(k', g', l) {
      assert l != layer ==> LayerOk(k, g, l);
    }
    forall x {:trigger GeoOk(k', g', x)} | x in k'.geos ensures GeoOk(k', g', x) {
      assert Layered(k, x);
      assert GeoOk(k, g, x);
      LayerAddedBox(k, g, k', g', geo, layer, x);
    }
  }

  method LinkLayer(geo: Geometry, layer: Layer, ghost w: World)
    requires geo in w.geos
    modifies geo`layers
    ensures geo.layers == old(geo.layers) + [layer] && GeoSnap(w) == old(GeoSnap(w)) && Snap(w) == old(Snap(w))
    ensures var k := old(ContentOf(w));
            ContentOf(w) == k.(geos := k.geos[geo := GeoData(k.geos[geo].cell, k.geos[geo].layers + [layer])])
  {
    ghost var m := GeoDatas(w.geos);
    assert m[geo] == GeoDataOf(geo);
    geo.layers := geo.layers + [layer];
    assert GeoDatas(w.geos)[geo] == GeoDataOf(geo);
    OneChanged(m, GeoDatas(w.geos), geo);
  }

  method PushLayer(geo: Geometry, layer: Layer, ghost w: World) returns (ghost w': World)
    requires geo in w.geos && layer !in w.layers && layer.geo == geo && layer.lines == [] && layer.shapes == [] && EXTENTS in layer.invalid
    modifies geo`layers
    ensures w' == w.(layers := w.layers + {layer}) && geo.layers == old(geo.layers) + [layer]
    ensures LayerAdded(old(ContentOf(w)), old(GeoSnap(w)), ContentOf(w'), GeoSnap(w'), geo, layer) && Snap(w') == old(Snap(w))
  {
    ghost var k, g := ContentOf(w), GeoSnap(w);
    LinkLayer(geo, layer, w);
    w' := w.(layers := w.layers + {layer});
    LayerEntries(layer, w.layers, w'.layers, k.layers, g.layers);
  }

  lemma {:induction false} LayerEntries(layer: Layer, layers: set<Layer>, layers': set<Layer>, k: map<Layer, LayerData>, g: map<Layer, Cache>)
    requires layers' == layers + {layer} && layer !in layers && layer.lines == [] && layer.shapes == [] && EXTENTS in layer.invalid
    requires k == LayerDatas(layers) && g == LayerCacheMap(layers)
    ensures LayerDatas(layers') == k[layer := LayerData([], [])]
    ensures layer in LayerCacheMap(layers') && !LayerCacheMap(layers')[layer].clean
    ensures LayerCacheMap(layers') == g[layer := LayerCacheMap(layers')[layer]]
  {
    assert LayerDatas(layers')[layer] == LayerDataOf(layer) && LayerCacheMap(layers')[layer] == LayerCache(layer);
  }

  // The binary search for a layer.  The layers need not be sorted, so it may miss one.
  method SearchLayer(layers: seq<Layer>, tech: nat) returns (found: bool, pos: nat)
    ensures found ==> pos < |layers| && layers[pos].tech == tech
    ensures (forall i, j :: 0 <= i < j < |layers| ==> layers[i].tech <= layers[j].tech) && !found ==>
              forall i :: 0 <= i < |layers| ==> layers[i].tech != tech
  {
    ghost var sorted := forall i, j :: 0 <= i < j < |layers| ==> layers[i].tech <= layers[j].tech;
    var start, end := 0, |layers|;
    while start < end
      invariant start <= end <= |layers|
      invariant sorted ==> forall i :: 0 <= i < start || end <= i < |layers| ==> layers[i].tech != tech
    {
      var mid := start + (end - start) / 2;
      if tech < layers[mid].tech {
        end := mid;
      } else if tech > layers[mid].tech {
        start := mid + 1;
      } else {
        return true, mid;
      }
    }
    return false, start;
  }

  method SearchStill(layers: seq<Layer>, tech: nat, ghost w: World) returns (found: bool, pos: nat)
    ensures found ==> pos < |layers| && layers[pos].tech == tech
    ensures ContentOf(w) == old(ContentOf(w)) && GeoSnap(w) == old(GeoSnap(w)) && Snap(w) == old(Snap(w))
  {
    found, pos := SearchLayer(layers, tech);
  }

  // More layers, and nothing else.
  ghost predicate Wider(w: World, w': World) {
    w'.cells == w.cells && w'.insts == w.insts && w'.geos == w.geos && w.layers <= w'.layers
  }

  /** Finding a layer to draw on changes no other geometry, no corner and no box. */
  ghost predicate KeepsDrawing(k: Content, k': Content, geo: Geometry) {
    && SameCells(k, k') && k'.geos.Keys == k.geos.Keys && KeepsBox(k, k', geo)
    && (forall g {:trigger k'.geos[g]} :: g in k.geos && g != geo ==> k'.geos[g] == k.geos[g])
    && (forall l {:trigger k'.layers[l]} {:trigger l in k'.layers} :: l in k.layers ==> l in k'.layers && k'.layers[l] == k.layers[l])
  }

  // The layer was there or is new and empty; the others are as they were.
  ghost predicate WithLayer(k: Content, k': Content, layer: Layer) {
    k'.layers == if layer in k.layers then k.layers else k.layers[layer := LayerData([], [])]
  }

  /** phx_geometry_on_layer: a new layer at the end when the search finds none. */
  method OnLayer(geo: Geometry, tech: nat, ghost w: World) returns (layer: Layer, ghost w': World)
    requires Coherent(w) && geo in w.geos
    modifies geo`layers
    ensures Coherent(w') && layer in w'.layers && layer.geo == geo && layer.tech == tech && layer in geo.layers
    ensures Wider(w, w') && w'.layers <= w.layers + {layer} && (layer in w.layers || fresh(layer))
    ensures forall l :: l in w'.layers ==> l in w.layers || fresh(l)
    ensures geo.layers == if layer in w.layers then old(geo.layers) else old(geo.layers) + [layer]
    ensures Snap(w') == old(Snap(w)) && KeepsDrawing(old(ContentOf(w)), ContentOf(w'), geo)
    ensures WithLayer(old(ContentOf(w)), ContentOf(w'), layer)
  {
    WfLayered(ContentOf(w));
    assert Layered(ContentOf(w), geo);
    var found, pos := SearchStill(geo.layers, tech, w);
    if found {
      layer, w' := geo.layers[pos], w;
      LayerOwned(geo, pos, w);
    } else {
      layer, w' := NewLayer(geo, tech, w);
    }
  }

  lemma {:induction false} LayerOwned(geo: Geometry, n: nat, w: World)
    requires Wf(ContentOf(w)) && geo in w.geos && n < |geo.layers|
    ensures geo.layers[n] in w.layers && geo.layers[n].geo == geo
  {
    var k := ContentOf(w);
    assert k.geos[geo] == GeoDataOf(geo) && WfGeo(k, geo);
  }

  method NewLayer(geo: Geometry, tech: nat, ghost w: World) returns (layer: Layer, ghost w': World)
    requires Coherent(w) && geo in w.geos
    modifies geo`layers
    ensures Coherent(w') && fresh(layer) && layer.geo == geo && layer.tech == tech
    ensures w' == w.(layers := w.layers + {layer}) && geo.layers == old(geo.layers) + [layer] && Snap(w') == old(Snap(w))
    ensures ContentOf(w').layers == old(ContentOf(w)).layers[layer := LayerData([], [])]
    ensures KeepsDrawing(old(ContentOf(w)), ContentOf(w'), geo)
    ensures forall l :: l in w'.layers ==> l in w.layers || fresh(l)
  {
    hide ContentOf, GeoSnap, AllOk;
    ghost var k, s, g := ContentOf(w), Snap(w), GeoSnap(w);
    PlanIsPlan(k);
    layer, w' := MakeLayer(geo, tech, w);
    LayerAddedBox(k, g, ContentOf(w'), GeoSnap(w'), geo, layer, geo);
    LayerAddedIsOk(k, PlanOf(k), s, g, ContentOf(w'), GeoSnap(w'), geo, layer);
  }

  method AllocLayer(geo: Geometry, tech: nat, ghost w: World) returns (layer: Layer)
    ensures fresh(layer) && layer.geo == geo && layer.tech == tech && layer.lines == [] && layer.shapes == [] && layer.invalid == ALL_BITS
    ensures ContentOf(w) == old(ContentOf(w)) && GeoSnap(w) == old(GeoSnap(w)) && Snap(w) == old(Snap(w))
  {
    layer := new Layer(geo, tech);
  }

  method MakeLayer(geo: Geometry, tech: nat, ghost w: World) returns (layer: Layer, ghost w': World)
    requires geo in w.geos
    modifies geo`layers
    ensures fresh(layer) && layer.geo == geo && layer.tech == tech
    ensures w' == w.(layers := w.layers + {layer}) && geo.layers == old(geo.layers) + [layer]
    ensures LayerAdded(old(ContentOf(w)), old(GeoSnap(w)), ContentOf(w'), GeoSnap(w'), geo, layer) && Snap(w') == old(Snap(w))
  {
    layer := AllocLayer(geo, tech, w);
    w' := PushLayer(geo, layer, w);
  }

  // --- A pin -------------------------------------------------------------------

  ghost predicate PinAdded(k: Content, g: GeoCaches, k': Content, g': GeoCaches, cell: Cell, pin: Pin) {
    && cell in k.cells && pin.geo !in k.geos
    && k'.insts == k.insts && k'.layers == k.layers
    && k'.cells == k.cells[cell := k.cells[cell].(pins := k.cells[cell].pins + [pin])]
    && k'.geos == k.geos[pin.geo := GeoData(cell, [])]
    && g'.layers == g.layers && pin.geo in g'.geos && !g'.geos[pin.geo].clean && g'.geos == g.geos[pin.geo := g'.geos[pin.geo]]
  }

  lemma {:induction false} PinAddedWf(k: Content, g: GeoCaches, k': Content, g': GeoCaches, cell: Cell, pin: Pin)
    requires Wf(k) && PinAdded(k, g, k', g', cell, pin)
    ensures Wf(k')
  {
    forall c {:trigger WfCell(k', c)} | c in k'.cells ensures WfCell(k', c) {
      assert WfCell(k, c);
    }
    forall i {:trigger WfInst(k', i)} | i in k'.insts ensures WfInst(k', i) {
      assert WfInst(k, i);
    }
    forall x {:trigger WfGeo(k', x)} | x in k'.geos ensures WfGeo(k', x) {
      if x == pin.geo {
        assert k'.cells[cell].pins[|k.cells[cell].pins|].geo == x;
      } else {
        assert WfGeo(k, x);
        var c := k.geos[x].cell;
        if x != c.geo {
          var n :| 0 <= n < |k.cells[c].pins| && k.cells[c].pins[n].geo == x;
          assert k'.cells[c].pins[n].geo == x;
        }
      }
    }
    forall l {:trigger WfLayer(k', l)} | l in k'.layers ensures WfLayer(k', l) {
      assert WfLayer(k, l);
    }
  }

  lemma {:induction false} PinAddedBoxes(k: Content, g: GeoCaches, k': Content, g': GeoCaches, cell: Cell, pin: Pin, x: Geometry)
    requires Wf(k) && PinAdded(k, g, k', g', cell, pin) && (x in k.geos || x == pin.geo)
    ensures x in k.geos ==> KeepsBox(k, k', x)
    ensures x == pin.geo ==> Layered(k', x) && GeoBox(k', x) == RESET
  {
    if x in k.geos {
      assert WfGeo(k, x);
      assert PointLists(k', k.geos[x].layers) == PointLists(k, k.geos[x].layers);
    } else {
      assert PointLists(k', []) == [];
    }
  }

  lemma {:induction false} PinAddedParts(k: Content, s: Caches, g: GeoCaches, k': Content, g': GeoCaches, cell: Cell, pin: Pin)
    requires Wf(k) && PinAdded(k, g, k', g', cell, pin) && s.cells.Keys == k.cells.Keys && s.insts.Keys == k.insts.Keys
    ensures PartsLeft(k, s, k', s)
  {
    forall c {:trigger CellLeft(k, s, k', s, c)} | c in k'.cells ensures CellLeft(k, s, k', s, c) {
      assert WfCell(k, c);
      PinAddedBoxes(k, g, k', g', cell, pin, c.geo);
      PinAddedBoxes(k, g, k', g', cell, pin, pin.geo);
      forall n | 0 <= n < |k.cells[c].pins| ensures KeepsBox(k, k', k.cells[c].pins[n].geo) {
        PinAddedBoxes(k, g, k', g', cell, pin, k.cells[c].pins[n].geo);
      }
    }
    forall i {:trigger InstLeft(k, s, k', s, i)} | i in k'.insts ensures InstLeft(k, s, k', s, i) {
      assert WfInst(k, i);
    }
  }

  lemma {:induction false} PinAddedGeosOk(k: Content, g: GeoCaches, k': Content, g': GeoCaches, cell: Cell, pin: Pin)
    requires Wf(k) && Wf(k') && GeosOk(k, g) && PinAdded(k, g, k', g', cell, pin)
    ensures GeosOk(k', g')
  {
    WfLayered(k');
    forall l {:trigger LayerOk(k', g', l)} | l in k'.layers ensures LayerOk(k', g', l) {
      assert LayerOk(k, g, l);
    }
    forall x {:trigger GeoOk(k', g', x)} | x in k'.geos ensures GeoOk(k', g', x) {
      if x != pin.geo {
        assert Layered(k, x);
        assert GeoOk(k, g, x);
        PinAddedBoxes(k, g, k', g', cell, pin, x);
      }
    }
  }

  lemma {:induction false} PinAddedIsOk(k: Content, p: Plan, s: Caches, g: GeoCaches, k': Content, g': GeoCaches, cell: Cell, pin: Pin)
    requires IsPlan(k, p) && AllOk(p, s) && GeosOk(k, g) && PinAdded(k, g, k', g', cell, pin)
    ensures CoherentValues(k', s, g')
  {
    PinAddedWf(k, g, k', g', cell, pin);
    PlanIsPlan(k');
    OkIsGrounded(p, s);
    PinAddedGrounded(k, p, g, k', PlanOf(k'), g', s, cell, pin);
    PinAddedParts(k, s, g, k', g', cell, pin);
    EditedIsOk(k, p, s, k', PlanOf(k'), s);
    PinAddedGeosOk(k, g, k', g', cell, pin);
  }

  lemma {:induction false} PinAddedGrounded(k: Content, p: Plan, g: GeoCaches, k': Content, p': Plan, g': GeoCaches, s: Caches, cell: Cell, pin: Pin)
    requires IsPlan(k, p) && IsPlan(k', p') && PinAdded(k, g, k', g', cell, pin) && Grounded(p, s)
    ensures Grounded(p', s)
  {
    hide CellPlanned, InstPlanned, Wf, Grounded;
    forall c | c in p.own ensures p'.insts[c] == p.insts[c] {
      OldInsts(k, p, k', p', c);
    }
    SameInstsGrounded(p, s, p');
  }

  lemma {:induction false} SameInstsGrounded(p: Plan, s: Caches, p': Plan)
    requires Grounded(p, s) && p'.own.Keys == p.own.Keys && p'.spots.Keys == p.spots.Keys && p'.insts.Keys == p.insts.Keys == p.own.Keys
    requires p'.pins.Keys == p.pins.Keys && forall c :: c in p.own ==> p'.insts[c] == p.insts[c]
    ensures Grounded(p', s)
  {
    hide Grounded;
    KeysOfGrounded(p, s);
    StaysGrounded(p, s, p', s);
  }

  method LinkPin(cell: Cell, pin: Pin, ghost w: World)
    requires cell in w.cells
    modifies cell`pins
    ensures cell.pins == old(cell.pins) + [pin] && GeoSnap(w) == old(GeoSnap(w)) && Snap(w) == old(Snap(w))
    ensures var k := old(ContentOf(w));
            ContentOf(w) == k.(cells := k.cells[cell := k.cells[cell].(pins := k.cells[cell].pins + [pin])])
  {
    hide GeoSnap, Snap, InstDatas, GeoDatas, LayerDatas;
    ghost var m := CellDatas(w.cells);
    assert m[cell] == CellDataOf(cell);
    cell.pins := cell.pins + [pin];
    assert CellDatas(w.cells)[cell] == CellDataOf(cell);
    OneChanged(m, CellDatas(w.cells), cell);
  }

  method PushPin(cell: Cell, pin: Pin, ghost w: World) returns (ghost w': World)
    requires cell in w.cells && pin.geo !in w.geos && pin.geo.cell == cell && pin.geo.layers == [] && EXTENTS in pin.geo.invalid
    modifies cell`pins
    ensures w' == w.(geos := w.geos + {pin.geo}) && cell.pins == old(cell.pins) + [pin]
    ensures PinAdded(old(ContentOf(w)), old(GeoSnap(w)), ContentOf(w'), GeoSnap(w'), cell, pin) && Snap(w') == old(Snap(w))
  {
    ghost var k, g := ContentOf(w), GeoSnap(w);
    LinkPin(cell, pin, w);
    w' := w.(geos := w.geos + {pin.geo});
    GeoEntries(pin.geo, w.geos, w'.geos, k.geos, g.geos);
  }

  lemma {:induction false} GeoEntries(geo: Geometry, geos: set<Geometry>, geos': set<Geometry>, k: map<Geometry, GeoData>, g: map<Geometry, Cache>)
    requires geos' == geos + {geo} && geo !in geos && EXTENTS in geo.invalid
    requires k == GeoDatas(geos) && g == GeoCacheMap(geos)
    ensures GeoDatas(geos') == k[geo := GeoData(geo.cell, geo.layers)]
    ensures geo in GeoCacheMap(geos') && !GeoCacheMap(geos')[geo].clean
    ensures GeoCacheMap(geos') == g[geo := GeoCacheMap(geos')[geo]]
  {
    assert GeoDatas(geos')[geo] == GeoDataOf(geo) && GeoCacheMap(geos')[geo] == GeoCache(geo);
  }

  method NewPin(cell: Cell, name: string, ghost w: World) returns (pin: Pin, ghost w': World)
    requires Coherent(w) && cell in w.cells
    modifies cell`pins
    ensures Coherent(w') && fresh(pin) && pin.name == name
    ensures w' == w.(geos := w.geos + {pin.geo}) && cell.pins == old(cell.pins) + [pin] && Snap(w') == old(Snap(w))
  {
    ghost var k, s, g := ContentOf(w), Snap(w), GeoSnap(w);
    PlanIsPlan(k);
    pin, w' := MakePin(cell, name, w);
    PinAddedIsOk(k, PlanOf(k), s, g, ContentOf(w'), GeoSnap(w'), cell, pin);
  }

  method AllocPin(cell: Cell, name: string, ghost w: World) returns (pin: Pin)
    ensures fresh(pin) && fresh(pin.geo) && pin.name == name
    ensures pin.geo.cell == cell && pin.geo.layers == [] && pin.geo.invalid == ALL_BITS
    ensures ContentOf(w) == old(ContentOf(w)) && GeoSnap(w) == old(GeoSnap(w)) && Snap(w) == old(Snap(w))
  {
    pin := new Pin(cell, name);
  }

  method MakePin(cell: Cell, name: string, ghost w: World) returns (pin: Pin, ghost w': World)
    requires cell in w.cells
    modifies cell`pins
    ensures fresh(pin) && pin.name == name
    ensures w' == w.(geos := w.geos + {pin.geo}) && cell.pins == old(cell.pins) + [pin]
    ensures PinAdded(old(ContentOf(w)), old(GeoSnap(w)), ContentOf(w'), GeoSnap(w'), cell, pin) && Snap(w') == old(Snap(w))
  {
    pin := AllocPin(cell, name, w);
    w' := PushPin(cell, pin, w);
  }

  /** cell_find_pin: the first pin of that name, made when there is none. */
  method FindPin(cell: Cell, name: string, ghost w: World) returns (pin: Pin, ghost w': World)
    requires Coherent(w) && cell in w.cells
    modifies cell`pins
    ensures Coherent(w') && pin in cell.pins && pin.name == name
    ensures if exists n :: 0 <= n < |old(cell.pins)| && old(cell.pins)[n].name == name
            then w' == w && cell.pins == old(cell.pins)
            else fresh(pin) && w' == w.(geos := w.geos + {pin.geo}) && cell.pins == old(cell.pins) + [pin]
    ensures Snap(w') == old(Snap(w))
  {
    hide *;
    for z := 0 to |cell.pins|
      invariant forall n :: 0 <= n < z ==> cell.pins[n].name != name
    {
      if cell.pins[z].name == name {
        return cell.pins[z], w;
      }
    }
    pin, w' := NewPin(cell, name, w);
  }
}
