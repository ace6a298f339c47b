/** New cells and instances (new_cell, new_inst).  A new instance is dirty and does not
    dirty its parent: the caches stay coherent exactly when the parent is dirty already. */
module Instantiation {
  import opened Marks
  import opened Extents
  import opened Design
  import opened Placement
  import opened GeometryUpdate
  import opened ExtentsCache
  import opened ExtentsUpdate
  import opened Edits
  import opened Placing

  lemma {:induction false} SameGeosOk(k: Content, k': Content, g: GeoCaches)
    requires k'.geos == k.geos && k'.layers == k.layers && GeosOk(k, g)
    ensures GeosOk(k', g)
  {
    forall x {:trigger Layered(k', x)} | x in k'.geos ensures Layered(k', x) {
      assert Layered(k, x);
    }
    forall l {:trigger LayerOk(k', g, l)} | l in k'.layers ensures LayerOk(k', g, l) {
      assert LayerOk(k, g, l);
    }
    forall x {:trigger GeoOk(k', g, x)} | x in k'.geos ensures GeoOk(k', g, x) {
      assert Layered(k, x);
      assert GeoOk(k, g, x);
      SameShapeBox(k, k', x);
    }
  }

  // --- An instance -------------------------------------------------------------

  function WithUse(m: map<Cell, CellData>, cell: Cell, inst: Inst): (r: map<Cell, CellData>)
    requires cell in m
    ensures r.Keys == m.Keys
  {
    m[cell := m[cell].(uses := m[cell].uses + [inst])]
  }

  function WithInst(m: map<Cell, CellData>, into: Cell, inst: Inst): (r: map<Cell, CellData>)
    requires into in m
    ensures r.Keys == m.Keys
  {
    m[into := m[into].(insts := m[into].insts + [inst])]
  }

  ghost predicate InstAdded(k: Content, s: Caches, k': Content, s': Caches, inst: Inst) {
    && inst.cell in k.cells && inst.parent in k.cells && inst !in k.insts && inst !in s.insts
    && k'.geos == k.geos && k'.layers == k.layers
    && k'.cells == WithInst(WithUse(k.cells, inst.cell, inst), inst.parent, inst)
    && k'.insts.Keys == k.insts.Keys + {inst} && (forall i {:trigger k'.insts[i]} :: i in k.insts ==> k'.insts[i] == k.insts[i])
    && s'.cells == s.cells && s'.insts.Keys == s.insts.Keys + {inst}
    && (forall i {:trigger s'.insts[i]} :: i in s.insts ==> s'.insts[i] == s.insts[i]) && !s'.insts[inst].clean
  }

  lemma {:induction false} InstAddedWf(k: Content, s: Caches, k': Content, s': Caches, inst: Inst)
    requires Wf(k) && InstAdded(k, s, k', s', inst)
    ensures Wf(k')
  {
    forall c {:trigger WfCell(k', c)} | c in k'.cells ensures WfCell(k', c) {
      assert WfCell(k, c);
    }
    forall i {:trigger WfInst(k', i)} | i in k'.insts ensures WfInst(k', i) {
      assert i != inst ==> WfInst(k, i);
    }
    forall g {:trigger WfGeo(k', g)} | g in k'.geos ensures WfGeo(k', g) {
      assert WfGeo(k, g);
      assert k'.cells[k.geos[g].cell].pins == k.cells[k.geos[g].cell].pins;
    }
    forall l {:trigger WfLayer(k', l)} | l in k'.layers ensures WfLayer(k', l) {
      assert WfLayer(k, l);
    }
  }

  lemma {:induction false} InstAddedParts(k: Content, s: Caches, k': Content, s': Caches, inst: Inst)
    requires Wf(k) && InstAdded(k, s, k', s', inst) && s.cells.Keys == k.cells.Keys && s.insts.Keys == k.insts.Keys
    requires !s.cells[inst.parent].clean
    ensures PartsLeft(k, s, k', s')
  {
    forall c {:trigger CellLeft(k, s, k', s', c)} | c in k'.cells ensures CellLeft(k, s, k', s', c) {
      assert WfCell(k, c);
      WfLayered(k);
      assert Layered(k, c.geo);
      SameShapeBox(k, k', c.geo);
      forall n | 0 <= n < |k.cells[c].pins| ensures KeepsBox(k, k', k.cells[c].pins[n].geo) {
        assert Layered(k, k.cells[c].pins[n].geo);
        SameShapeBox(k, k', k.cells[c].pins[n].geo);
      }
    }
    forall i {:trigger InstLeft(k, s, k', s', i)} | i in k'.insts ensures InstLeft(k, s, k', s', i) {
      assert i != inst ==> WfInst(k, i);
    }
  }

  lemma {:induction false} InstsKept(k: Content, k': Content, inst: Inst, c: Cell)
    requires inst.cell in k.cells && inst.parent in k.cells && k'.cells == WithInst(WithUse(k.cells, inst.cell, inst), inst.parent, inst)
    requires c in k.cells && c != inst.parent
    ensures c in k'.cells && k'.cells[c].insts == k.cells[c].insts
  {
  }

  lemma {:induction false} AddedFits(k: Content, p: Plan, s: Caches, k': Content, p': Plan, s': Caches, inst: Inst)
    requires IsPlan(k, p) && IsPlan(k', p') && InstAdded(k, s, k', s', inst) && Fits(p, s)
    ensures Fits(p', s') && inst.parent in p.own && p'.own.Keys == p.own.Keys && p.insts.Keys == p.own.Keys
  {
    hide CellPlanned, InstPlanned, Wf, WithInst, WithUse;
  }

  lemma {:induction false} OldCells(k: Content, p: Plan, s: Caches, k': Content, p': Plan, s': Caches, inst: Inst)
    requires IsPlan(k, p) && IsPlan(k', p') && InstAdded(k, s, k', s', inst) && Fits(p, s) && !s.cells[inst.parent].clean
    requires Fits(p', s') && p'.own.Keys == p.own.Keys
    ensures forall c {:trigger s'.cells[c]} :: c in p'.own && s'.cells[c].clean ==> c in p.own && s.cells[c].clean && p'.insts[c] == p.insts[c]
  {
    hide CellPlanned, InstPlanned, Wf, WithInst, WithUse;
    forall c {:trigger s'.cells[c]} | c in p'.own && s'.cells[c].clean ensures c in p.own && s.cells[c].clean && p'.insts[c] == p.insts[c] {
      InstsKept(k, k', inst, c);
      OldInsts(k, p, k', p', c);
    }
  }

  lemma {:induction false} OldEntries(k: Content, p: Plan, s: Caches, k': Content, p': Plan, s': Caches, inst: Inst)
    requires InstAdded(k, s, k', s', inst) && Fits(p, s) && Fits(p', s') && p'.own.Keys == p.own.Keys
    ensures forall c {:trigger s.cells[c]} :: c in p.own && s.cells[c].clean ==> c in p'.own && s'.cells[c].clean
    ensures forall i {:trigger s'.insts[i]} :: i in p'.spots && s'.insts[i].clean ==> i in p.spots && s.insts[i].clean
    ensures forall i {:trigger s.insts[i]} :: i in p.spots && s.insts[i].clean ==> i in p'.spots && s'.insts[i].clean
  {
    hide WithInst, WithUse, WfPlan;
  }

  lemma {:induction false} InstAddedGrounded(k: Content, p: Plan, s: Caches, k': Content, p': Plan, s': Caches, inst: Inst)
    requires IsPlan(k, p) && IsPlan(k', p') && InstAdded(k, s, k', s', inst) && Grounded(p, s) && !s.cells[inst.parent].clean
    ensures Grounded(p', s')
  {
    hide *;
    KeysOfGrounded(p, s);
    AddedFits(k, p, s, k', p', s', inst);
    OldCells(k, p, s, k', p', s', inst);
    OldEntries(k, p, s, k', p', s', inst);
    StaysGrounded(p, s, p', s');
  }

  /** A new instance keeps the caches coherent exactly when its parent is dirty: a clean
      parent would have to have clean instances only. */
  lemma {:induction false} InstAddedIff(k: Content, p: Plan, s: Caches, g: GeoCaches, k': Content, p': Plan, s': Caches, inst: Inst)
    requires IsPlan(k, p) && AllOk(p, s) && GeosOk(k, g) && InstAdded(k, s, k', s', inst) && IsPlan(k', p')
    ensures AllOk(p', s') && GeosOk(k', g) <==> !s.cells[inst.parent].clean
  {
    hide GeosOk, Wf, CellPlanned, InstPlanned, CellOk, InstOk;
    SameGeosOk(k, k', g);
    if s.cells[inst.parent].clean {
      DirtyInstInClean(k, s, k', p', s', inst);
    } else {
      OkIsGrounded(p, s);
      InstAddedGrounded(k, p, s, k', p', s', inst);
      InstAddedParts(k, s, k', s', inst);
      EditedIsOk(k, p, s, k', p', s');
    }
  }

  lemma {:induction false} DirtyInstInClean(k: Content, s: Caches, k': Content, p': Plan, s': Caches, inst: Inst)
    requires InstAdded(k, s, k', s', inst) && IsPlan(k', p') && inst.parent in s.cells && s.cells[inst.parent].clean
    ensures !AllOk(p', s')
  {
    hide WfCell, WfPlan, InstOk;
    assert CellPlanned(k', p', inst.parent);
    assert p'.insts[inst.parent][|k.cells[inst.parent].insts|] == inst;
    assert AllOk(p', s') ==> CellOk(p', s', inst.parent);
  }

  // --- The objects -------------------------------------------------------------

  method AllocInst(into: Cell, cell: Cell, ghost w: World) returns (inst: Inst)
    ensures fresh(inst) && inst.parent == into && inst.cell == cell && inst.invalid == ALL_BITS
    ensures inst.orientation == Orientation(false, false, false)
    ensures ContentOf(w) == old(ContentOf(w)) && GeoSnap(w) == old(GeoSnap(w)) && Snap(w) == old(Snap(w))
  {
    inst := new Inst(into, cell);
  }

  method AddUse(cell: Cell, inst: Inst, ghost w: World)
    requires cell in w.cells
    modifies cell`uses
    ensures ContentOf(w) == old(ContentOf(w)).(cells := WithUse(old(ContentOf(w)).cells, cell, inst))
    ensures GeoSnap(w) == old(GeoSnap(w)) && Snap(w) == old(Snap(w))
  {
    ghost var m := CellDatas(w.cells);
    assert m[cell] == CellDataOf(cell);
    cell.uses := cell.uses + [inst];
    assert CellDatas(w.cells)[cell] == CellDataOf(cell);
    OneChanged(m, CellDatas(w.cells), cell);
  }

  method AddInst(into: Cell, inst: Inst, ghost w: World)
    requires into in w.cells
    modifies into`insts
    ensures ContentOf(w) == old(ContentOf(w)).(cells := WithInst(old(ContentOf(w)).cells, into, inst))
    ensures GeoSnap(w) == old(GeoSnap(w)) && Snap(w) == old(Snap(w))
  {
    ghost var m := CellDatas(w.cells);
    assert m[into] == CellDataOf(into);
    into.insts := into.insts + [inst];
    assert CellDatas(w.cells)[into] == CellDataOf(into);
    OneChanged(m, CellDatas(w.cells), into);
  }

  method LinkInst(inst: Inst, ghost w: World) returns (ghost w': World)
    requires inst.cell in w.cells && inst.parent in w.cells && inst !in w.insts && EXTENTS in inst.invalid
    modifies inst.cell`uses, inst.parent`insts
    ensures w' == w.(insts := w.insts + {inst})
    ensures InstAdded(old(ContentOf(w)), old(Snap(w)), ContentOf(w'), Snap(w'), inst) && GeoSnap(w') == old(GeoSnap(w))
    ensures inst.orientation == old(inst.orientation) && inst.invalid == old(inst.invalid)
  {
    AddUse(inst.cell, inst, w);
    AddInst(inst.parent, inst, w);
    w' := w.(insts := w.insts + {inst});
    NewEntries(inst, w, w', ContentOf(w), Snap(w));
  }

  lemma {:induction false} NewEntries(inst: Inst, w: World, w': World, k: Content, s: Caches)
    requires w'.insts == w.insts + {inst} && k.insts == InstDatas(w.insts) && s.insts == InstCaches(w.insts) && EXTENTS in inst.invalid
    ensures InstDatas(w'.insts).Keys == k.insts.Keys + {inst} && InstCaches(w'.insts).Keys == s.insts.Keys + {inst}
    ensures forall i {:trigger InstDatas(w'.insts)[i]} :: i in k.insts ==> InstDatas(w'.insts)[i] == k.insts[i]
    ensures forall i {:trigger InstCaches(w'.insts)[i]} :: i in s.insts ==> InstCaches(w'.insts)[i] == s.insts[i]
    ensures !InstCaches(w'.insts)[inst].clean
  {
    assert InstCaches(w'.insts)[inst] == InstCache(inst);
    forall i {:trigger InstDatas(w'.insts)[i]} | i in k.insts ensures InstDatas(w'.insts)[i] == k.insts[i] {
      assert k.insts[i] == InstDataOf(i);
    }
    forall i {:trigger InstCaches(w'.insts)[i]} | i in s.insts ensures InstCaches(w'.insts)[i] == s.insts[i] {
      assert s.insts[i] == InstCache(i);
    }
  }

  /** new_inst. */
  method NewInst(into: Cell, cell: Cell, ghost w: World) returns (inst: Inst, ghost w': World)
    requires Coherent(w) && into in w.cells && cell in w.cells
    modifies cell`uses, into`insts
    ensures fresh(inst) && inst.cell == cell && inst.parent == into && w' == w.(insts := w.insts + {inst})
    ensures InstAdded(old(ContentOf(w)), old(Snap(w)), ContentOf(w'), Snap(w'), inst)
    ensures GeoSnap(w') == old(GeoSnap(w)) && inst.orientation == Orientation(false, false, false) && EXTENTS in inst.invalid
    ensures Coherent(w') <==> EXTENTS in old(into.invalid)
  {
    ghost var k, s, g := ContentOf(w), Snap(w), GeoSnap(w);
    PlanIsPlan(k);
    assert s.cells[into] == CellCache(into);
    inst := AllocInst(into, cell, w);
    w' := LinkInst(inst, w);
    ghost var k' := ContentOf(w');
    InstAddedWf(k, s, k', Snap(w'), inst);
    PlanIsPlan(k');
    InstAddedIff(k, PlanOf(k), s, g, k', PlanOf(k'), Snap(w'), inst);
  }

  // --- A cell --------------------------------------------------------------------

  ghost predicate CellAdded(k: Content, s: Caches, g: GeoCaches, k': Content, s': Caches, g': GeoCaches, cell: Cell) {
    && cell !in k.cells && cell.geo !in k.geos && cell !in s.cells
    && k'.insts == k.insts && k'.layers == k.layers && s'.insts == s.insts && g'.layers == g.layers
    && k'.cells == k.cells[cell := CellData([], [], [], Vec2(0.0, 0.0))] && k'.geos == k.geos[cell.geo := GeoData(cell, [])]
    && cell in s'.cells && !s'.cells[cell].clean && s'.cells == s.cells[cell := s'.cells[cell]]
    && cell.geo in g'.geos && !g'.geos[cell.geo].clean && g'.geos == g.geos[cell.geo := g'.geos[cell.geo]]
  }

  lemma {:induction false} CellAddedWf(k: Content, s: Caches, g: GeoCaches, k': Content, s': Caches, g': GeoCaches, cell: Cell)
    requires Wf(k) && CellAdded(k, s, g, k', s', g', cell)
    ensures Wf(k')
  {
    forall c {:trigger WfCell(k', c)} | c in k'.cells ensures WfCell(k', c) {
      assert c != cell ==> WfCell(k, c);
    }
    forall i {:trigger WfInst(k', i)} | i in k'.insts ensures WfInst(k', i) {
      assert WfInst(k, i);
    }
    forall x {:trigger WfGeo(k', x)} | x in k'.geos ensures WfGeo(k', x) {
      assert x != cell.geo ==> WfGeo(k, x);
    }
    forall l {:trigger WfLayer(k', l)} | l in k'.layers ensures WfLayer(k', l) {
      assert WfLayer(k, l);
    }
  }

  lemma {:induction false} CellAddedParts(k: Content, s: Caches, g: GeoCaches, k': Content, s': Caches, g': GeoCaches, cell: Cell)
    requires Wf(k) && CellAdded(k, s, g, k', s', g', cell) && s.cells.Keys == k.cells.Keys && s.insts.Keys == k.insts.Keys
    ensures PartsLeft(k, s, k', s')
  {
    forall c {:trigger CellLeft(k, s, k', s', c)} | c in k'.cells ensures CellLeft(k, s, k', s', c) {
      if c != cell {
        assert WfCell(k, c);
        OldBox(k, k', cell.geo, cell, c.geo);
        forall n | 0 <= n < |k.cells[c].pins| ensures KeepsBox(k, k', k.cells[c].pins[n].geo) {
          OldBox(k, k', cell.geo, cell, k.cells[c].pins[n].geo);
        }
      }
    }
    forall i {:trigger InstLeft(k, s, k', s', i)} | i in k'.insts ensures InstLeft(k, s, k', s', i) {
      assert WfInst(k, i);
    }
  }

  lemma {:induction false} OldBox(k: Content, k': Content, geo: Geometry, cell: Cell, x: Geometry)
    requires Wf(k) && k'.layers == k.layers && geo !in k.geos && k'.geos == k.geos[geo := GeoData(cell, [])] && x in k.geos
    ensures KeepsBox(k, k', x)
  {
    assert WfGeo(k, x);
    assert PointLists(k', k.geos[x].layers) == PointLists(k, k.geos[x].layers);
  }

  lemma {:induction false} CellAddedFits(k: Content, p: Plan, s: Caches, g: GeoCaches, k': Content, p': Plan, s': Caches, g': GeoCaches, cell: Cell)
    requires IsPlan(k, p) && Fits(p, s) && CellAdded(k, s, g, k', s', g', cell) && IsPlan(k', p')
    ensures Fits(p', s') && p'.spots.Keys == p.spots.Keys && p'.own.Keys == p.own.Keys + {cell} && cell !in p.own
  {
    hide CellPlanned, InstPlanned, Wf;
  }

  lemma {:induction false} CellAddedOld(k: Content, p: Plan, s: Caches, g: GeoCaches, k': Content, p': Plan, s': Caches, g': GeoCaches, cell: Cell)
    requires IsPlan(k, p) && Fits(p, s) && CellAdded(k, s, g, k', s', g', cell) && IsPlan(k', p') && Fits(p', s')
    requires p'.own.Keys == p.own.Keys + {cell} && cell !in p.own
    ensures forall c {:trigger s'.cells[c]} :: c in p'.own && s'.cells[c].clean ==> c in p.own && s.cells[c].clean && p'.insts[c] == p.insts[c]
    ensures forall c {:trigger s.cells[c]} :: c in p.own && s.cells[c].clean ==> c in p'.own && s'.cells[c].clean
  {
    hide CellPlanned, InstPlanned, Wf;
    forall c {:trigger s'.cells[c]} | c in p'.own && s'.cells[c].clean ensures c in p.own && s.cells[c].clean && p'.insts[c] == p.insts[c] {
      OldInsts(k, p, k', p', c);
    }
  }

  lemma {:induction false} CellAddedGrounded(k: Content, p: Plan, s: Caches, g: GeoCaches, k': Content, p': Plan, s': Caches, g': GeoCaches, cell: Cell)
    requires IsPlan(k, p) && Grounded(p, s) && CellAdded(k, s, g, k', s', g', cell) && IsPlan(k', p')
    ensures Grounded(p', s')
  {
    hide IsPlan, Grounded, Fits;
    KeysOfGrounded(p, s);
    CellAddedFits(k, p, s, g, k', p', s', g', cell);
    CellAddedOld(k, p, s, g, k', p', s', g', cell);
    StaysGrounded(p, s, p', s');
  }

  lemma {:induction false} CellAddedIsOk(k: Content, p: Plan, s: Caches, g: GeoCaches, k': Content, p': Plan, s': Caches, g': GeoCaches, cell: Cell)
    requires IsPlan(k, p) && AllOk(p, s) && GeosOk(k, g) && CellAdded(k, s, g, k', s', g', cell) && IsPlan(k', p')
    ensures AllOk(p', s') && GeosOk(k', g')
  {
    hide GeoOk, LayerOk, CellPlanned, InstPlanned, CellOk, InstOk, Grounded;
    CellAddedParts(k, s, g, k', s', g', cell);
    OkIsGrounded(p, s);
    CellAddedGrounded(k, p, s, g, k', p', s', g', cell);
    EditedIsOk(k, p, s, k', p', s');
    CellAddedGeosOk(k, s, g, k', s', g', cell);
  }

  lemma {:induction false} CellAddedGeosOk(k: Content, s: Caches, g: GeoCaches, k': Content, s': Caches, g': GeoCaches, cell: Cell)
    requires Wf(k) && Wf(k') && GeosOk(k, g) && CellAdded(k, s, g, k', s', g', cell)
    ensures GeosOk(k', g')
  {
    WfLayered(k');
    forall l {:trigger LayerOk(k', g', l)} | l in k'.layers ensures LayerOk(k', g', l) {
      assert LayerOk(k, g, l);
    }
    forall x {:trigger GeoOk(k', g', x)} | x in k'.geos ensures GeoOk(k', g', x) {
      if x != cell.geo {
        assert Layered(k, x);
        assert GeoOk(k, g, x);
        OldBox(k, k', cell.geo, cell, x);
      }
    }
  }

  method AllocCell(ghost w: World) returns (cell: Cell)
    ensures fresh(cell) && fresh(cell.geo) && CellDataOf(cell) == CellData([], [], [], Vec2(0.0, 0.0)) && cell.invalid == ALL_BITS
    ensures GeoDataOf(cell.geo) == GeoData(cell, []) && cell.geo.invalid == ALL_BITS
    ensures ContentOf(w) == old(ContentOf(w)) && GeoSnap(w) == old(GeoSnap(w)) && Snap(w) == old(Snap(w))
  {
    cell := new Cell();
  }

  /** new_cell. */
  method NewCell(ghost w: World) returns (cell: Cell, ghost w': World)
    requires Coherent(w)
    ensures fresh(cell) && w' == w.(cells := w.cells + {cell}, geos := w.geos + {cell.geo}) && Coherent(w')
    ensures ContentOf(w').cells == old(ContentOf(w)).cells[cell := CellData([], [], [], Vec2(0.0, 0.0))]
  {
    ghost var k, s, g := ContentOf(w), Snap(w), GeoSnap(w);
    PlanIsPlan(k);
    cell := AllocCell(w);
    w' := w.(cells := w.cells + {cell}, geos := w.geos + {cell.geo});
    CellEntries(cell, w, w');
    ghost var k' := ContentOf(w');
    CellAddedWf(k, s, g, k', Snap(w'), GeoSnap(w'), cell);
    PlanIsPlan(k');
    CellAddedIsOk(k, PlanOf(k), s, g, k', PlanOf(k'), Snap(w'), GeoSnap(w'), cell);
  }

  lemma {:induction false} CellEntries(cell: Cell, w: World, w': World)
    requires w' == w.(cells := w.cells + {cell}, geos := w.geos + {cell.geo}) && cell !in w.cells && cell.geo !in w.geos
    requires CellDataOf(cell) == CellData([], [], [], Vec2(0.0, 0.0)) && EXTENTS in cell.invalid
    requires GeoDataOf(cell.geo) == GeoData(cell, []) && EXTENTS in cell.geo.invalid
    ensures CellAdded(ContentOf(w), Snap(w), GeoSnap(w), ContentOf(w'), Snap(w'), GeoSnap(w'), cell)
  {
    assert CellDatas(w'.cells)[cell] == CellDataOf(cell) && CellCaches(w'.cells)[cell] == CellCache(cell);
    assert GeoDatas(w'.geos)[cell.geo] == GeoDataOf(cell.geo) && GeoCacheMap(w'.geos)[cell.geo] == GeoCache(cell.geo);
    assert CellDatas(w'.cells) == CellDatas(w.cells)[cell := CellDataOf(cell)];
    assert CellCaches(w'.cells) == CellCaches(w.cells)[cell := CellCache(cell)];
    assert GeoDatas(w'.geos) == GeoDatas(w.geos)[cell.geo := GeoDataOf(cell.geo)];
    assert GeoCacheMap(w'.geos) == GeoCacheMap(w.geos)[cell.geo := GeoCache(cell.geo)];
  }
}
