/** Moving, turning and re-anchoring instances (inst_set_pos, phx_inst_set_orientation,
    phx_cell_set_origin, phx_cell_set_size). */
module Placing {
  import opened Marks
  import opened Extents
  import opened Design
  import opened Placement
  import opened GeometryUpdate
  import opened ExtentsCache
  import opened ExtentsUpdate
  import opened Edits

  // Only origins and placements differ.
  ghost predicate SameShape(k: Content, k': Content) {
    && k'.geos == k.geos && k'.layers == k.layers && k'.insts.Keys == k.insts.Keys && k'.cells.Keys == k.cells.Keys
    && forall c {:trigger k'.cells[c]} :: c in k.cells ==>
         k'.cells[c].insts == k.cells[c].insts && k'.cells[c].uses == k.cells[c].uses && k'.cells[c].pins == k.cells[c].pins
  }

  lemma {:induction false} SameShapeWf(k: Content, k': Content)
    requires Wf(k) && SameShape(k, k')
    ensures Wf(k')
  {
    forall c {:trigger WfCell(k', c)} | c in k'.cells ensures WfCell(k', c) {
      assert WfCell(k, c);
    }
    forall i {:trigger WfInst(k', i)} | i in k'.insts ensures WfInst(k', i) {
      assert WfInst(k, i);
    }
    forall g {:trigger WfGeo(k', g)} | g in k'.geos ensures WfGeo(k', g) {
      assert WfGeo(k, g);
      assert k'.cells[k.geos[g].cell].pins == k.cells[k.geos[g].cell].pins;
    }
    forall l {:trigger WfLayer(k', l)} | l in k'.layers ensures WfLayer(k', l) {
      assert WfLayer(k, l);
    }
  }

  lemma {:induction false} SameShapeGrounded(k: Content, p: Plan, k': Content, p': Plan, s: Caches)
    requires IsPlan(k, p) && IsPlan(k', p') && SameShape(k, k') && Grounded(p, s)
    ensures Grounded(p', s)
  {
    forall c {:trigger s.cells[c]} | c in p'.own && s.cells[c].clean
      ensures forall n :: 0 <= n < |p'.insts[c]| ==> s.insts[p'.insts[c][n]].clean
    {
      assert CellPlanned(k, p, c) && CellPlanned(k', p', c);
    }
  }

  lemma {:induction false} SameShapeBox(k: Content, k': Content, g: Geometry)
    requires k'.geos == k.geos && k'.layers == k.layers && Layered(k, g)
    ensures KeepsBox(k, k', g)
  {
    assert PointLists(k', k.geos[g].layers) == PointLists(k, k.geos[g].layers);
  }

  // A clean instance is where it was.
  ghost predicate SpotLeft(k: Content, k': Content, s': Caches, i: Inst)
    requires i in k.insts && i in k'.insts && i in s'.insts && k'.cells.Keys == k.cells.Keys
  {
    s'.insts[i].clean ==> k'.insts[i] == k.insts[i] && i.cell in k.cells && k'.cells[i.cell].origin == k.cells[i.cell].origin
  }

  /** A design of the same shape in which the clean instances are where they were. */
  lemma {:induction false} ReshapedIsCoherent(k: Content, p: Plan, s: Caches, g: GeoCaches, k': Content, p': Plan, s': Caches)
    requires IsPlan(k, p) && AllOk(p, s) && GeosOk(k, g) && SameShape(k, k') && IsPlan(k', p')
    requires Grounded(p', s') && Dirtied(s, s')
    requires forall i {:trigger SpotLeft(k, k', s', i)} :: i in k.insts ==> SpotLeft(k, k', s', i)
    ensures AllOk(p', s') && GeosOk(k', g)
  {
    SameShapeLeft(k, s, k', s', g);
    EditedIsOk(k, p, s, k', p', s');
  }

  lemma {:induction false} SameShapeLeft(k: Content, s: Caches, k': Content, s': Caches, g: GeoCaches)
    requires Wf(k) && SameShape(k, k') && s.cells.Keys == k.cells.Keys && s.insts.Keys == k.insts.Keys && Dirtied(s, s') && GeosOk(k, g)
    requires forall i {:trigger SpotLeft(k, k', s', i)} :: i in k.insts ==> SpotLeft(k, k', s', i)
    ensures PartsLeft(k, s, k', s') && GeosOk(k', g)
  {
    forall c {:trigger CellLeft(k, s, k', s', c)} | c in k'.cells ensures CellLeft(k, s, k', s', c) {
      assert WfCell(k, c);
      assert Layered(k, c.geo);
      SameShapeBox(k, k', c.geo);
      forall n | 0 <= n < |k.cells[c].pins| ensures KeepsBox(k, k', k.cells[c].pins[n].geo) {
        assert Layered(k, k.cells[c].pins[n].geo);
        SameShapeBox(k, k', k.cells[c].pins[n].geo);
      }
      assert s'.cells[c].clean ==> s'.cells[c] == s.cells[c];
    }
    forall i {:trigger InstLeft(k, s, k', s', i)} | i in k'.insts ensures InstLeft(k, s, k', s', i) {
      assert SpotLeft(k, k', s', i);
      assert s'.insts[i].clean ==> s'.insts[i] == s.insts[i];
    }
    SameShapeGeosOk(k, k', g);
  }

  lemma {:induction false} SameShapeGeosOk(k: Content, k': Content, g: GeoCaches)
    requires SameShape(k, k') && GeosOk(k, g)
    ensures GeosOk(k', g)
  {
    forall x {:trigger Layered(k', x)} | x in k'.geos ensures Layered(k', x) {
      assert Layered(k, x);
    }
    forall l {:trigger LayerOk(k', g, l)} | l in k'.layers ensures LayerOk(k', g, l) {
      assert LayerOk(k, g, l);
    }
    forall x {:trigger GeoOk(k', g, x)} | x in k'.geos ensures GeoOk(k', g, x) {
      assert Layered(k, x);
      assert GeoOk(k, g, x);
      SameShapeBox(k, k', x);
    }
  }

  // --- Moving an instance ----------------------------------------------------

  method AssignInst(inst: Inst, pos: Vec2, orientation: Orientation, ghost w: World)
    requires inst in w.insts
    modifies inst`pos, inst`orientation
    ensures ContentOf(w) == old(ContentOf(w)).(insts := old(ContentOf(w)).insts[inst := InstData(orientation, pos)])
    ensures Snap(w) == old(Snap(w)) && GeoSnap(w) == old(GeoSnap(w))
  {
    ghost var m := InstDatas(w.insts);
    inst.pos := pos;
    inst.orientation := orientation;
    assert InstDatas(w.insts)[inst] == InstDataOf(inst);
    OneChanged(m, InstDatas(w.insts), inst);
  }

  lemma {:induction false} InstMoved(k: Content, p: Plan, k': Content, s: Caches, inst: Inst, d: InstData)
    requires IsPlan(k, p) && Grounded(p, s) && inst in k.insts && k' == k.(insts := k.insts[inst := d])
    ensures SameShape(k, k') && Wf(k') && IsPlan(k', PlanOf(k')) && Grounded(PlanOf(k'), s)
  {
    hide WfPlan;
    SameShapeWf(k, k');
    PlanIsPlan(k');
    SameShapeGrounded(k, p, k', PlanOf(k'), s);
  }

  // From the state after the assignment and the dirtying.
  lemma {:induction false} MoveIsCoherent(k: Content, p: Plan, s: Caches, g: GeoCaches, k': Content, p': Plan, s': Caches, inst: Inst, d: InstData)
    requires IsPlan(k, p) && AllOk(p, s) && GeosOk(k, g) && inst in k.insts && k'.insts == k.insts[inst := d] && k'.cells == k.cells
    requires SameShape(k, k') && IsPlan(k', p') && Grounded(p', s') && Dirtied(s, s') && !s'.insts[inst].clean
    ensures AllOk(p', s') && GeosOk(k', g)
  {
    MovedSpots(k, k', s', inst, d);
    ReshapedIsCoherent(k, p, s, g, k', p', s');
  }

  lemma {:induction false} MovedSpots(k: Content, k': Content, s': Caches, inst: Inst, d: InstData)
    requires Wf(k) && inst in k.insts && k'.insts == k.insts[inst := d] && k'.cells == k.cells
    requires s'.insts.Keys == k.insts.Keys && !s'.insts[inst].clean
    ensures forall i {:trigger SpotLeft(k, k', s', i)} :: i in k.insts ==> SpotLeft(k, k', s', i)
  {
    forall i {:trigger SpotLeft(k, k', s', i)} | i in k.insts ensures SpotLeft(k, k', s', i) {
      assert WfInst(k, i);
    }
  }

  method PlaceInst(inst: Inst, pos: Vec2, orientation: Orientation, ghost w: World)
    requires Coherent(w) && inst in w.insts
    modifies inst`pos, inst`orientation, w.cells`invalid, w.insts`invalid
    ensures Coherent(w)
    ensures ContentOf(w) == old(ContentOf(w)).(insts := old(ContentOf(w)).insts[inst := InstData(orientation, pos)])
  {
    hide PlanOf, GeosOk, AllOk, Grounded, Dirtied, IsPlan;
    ghost var k, s, g, d := ContentOf(w), Snap(w), GeoSnap(w), InstData(orientation, pos);
    PlanIsPlan(k);
    OkIsGrounded(PlanOf(k), s);
    AssignInst(inst, pos, orientation, w);
    ghost var k' := ContentOf(w);
    InstMoved(k, PlanOf(k), k', s, inst, d);
    TouchInst(inst, w, k', PlanOf(k'));
    MoveIsCoherent(k, PlanOf(k), s, g, k', PlanOf(k'), Snap(w), inst, d);
  }

  /** inst_set_pos. */
  method SetPos(inst: Inst, pos: Vec2, ghost w: World)
    requires Coherent(w) && inst in w.insts
    modifies inst`pos, inst`orientation, w.cells`invalid, w.insts`invalid
    ensures Coherent(w)
    ensures ContentOf(w) == old(ContentOf(w)).(insts := old(ContentOf(w)).insts[inst := InstData(old(inst.orientation), pos)])
  {
    PlaceInst(inst, pos, inst.orientation, w);
  }

  /** phx_inst_set_orientation: an unchanged orientation dirties nothing. */
  method SetOrientation(inst: Inst, orientation: Orientation, ghost w: World)
    requires Coherent(w) && inst in w.insts
    modifies inst`pos, inst`orientation, w.cells`invalid, w.insts`invalid
    ensures Coherent(w)
    ensures ContentOf(w) == old(ContentOf(w)).(insts := old(ContentOf(w)).insts[inst := InstData(orientation, old(inst.pos))])
    ensures orientation == old(inst.orientation) ==> Snap(w) == old(Snap(w))
  {
    hide Coherent;
    if inst.orientation != orientation {
      PlaceInst(inst, inst.pos, orientation, w);
    } else {
      ghost var m := InstDatas(w.insts);
      assert m[inst] == InstDataOf(inst);
      assert m == m[inst := m[inst]];
    }
  }

  // --- Moving a cell's origin --------------------------------------------------

  method AssignOrigin(cell: Cell, origin: Vec2, ghost w: World)
    requires cell in w.cells
    modifies cell`origin
    ensures ContentOf(w) == old(ContentOf(w)).(cells := old(ContentOf(w)).cells[cell := old(ContentOf(w)).cells[cell].(origin := origin)])
    ensures Snap(w) == old(Snap(w)) && GeoSnap(w) == old(GeoSnap(w))
  {
    ghost var m := CellDatas(w.cells);
    assert m[cell] == CellDataOf(cell);
    cell.origin := origin;
    assert CellDatas(w.cells)[cell] == CellDataOf(cell);
    OneChanged(m, CellDatas(w.cells), cell);
  }

  lemma {:induction false} OriginMoved(k: Content, p: Plan, k': Content, s: Caches, cell: Cell, origin: Vec2)
    requires IsPlan(k, p) && Grounded(p, s) && cell in k.cells && k' == k.(cells := k.cells[cell := k.cells[cell].(origin := origin)])
    ensures SameShape(k, k') && Wf(k') && IsPlan(k', PlanOf(k')) && Grounded(PlanOf(k'), s)
  {
    hide WfPlan, Grounded;
    SameShapeWf(k, k');
    PlanIsPlan(k');
    SameShapeGrounded(k, p, k', PlanOf(k'), s);
  }

  // The instances of a dirty cell are dirty: their boxes are recomputed with the new origin.
  lemma {:induction false} OriginIsCoherent(k: Content, p: Plan, s: Caches, g: GeoCaches, k': Content, p': Plan, s': Caches, cell: Cell, o: Vec2)
    requires IsPlan(k, p) && AllOk(p, s) && GeosOk(k, g) && cell in k.cells
    requires k'.insts == k.insts && k'.cells == k.cells[cell := k.cells[cell].(origin := o)]
    requires SameShape(k, k') && IsPlan(k', p') && Grounded(p', s') && Dirtied(s, s') && !s'.cells[cell].clean
    ensures AllOk(p', s') && GeosOk(k', g)
  {
    ShiftedSpots(k, k', p', s', cell, o);
    ReshapedIsCoherent(k, p, s, g, k', p', s');
  }

  lemma {:induction false} ShiftedSpots(k: Content, k': Content, p': Plan, s': Caches, cell: Cell, o: Vec2)
    requires Wf(k) && cell in k.cells && k'.insts == k.insts && k'.cells == k.cells[cell := k.cells[cell].(origin := o)]
    requires p'.spots.Keys == k.insts.Keys && Grounded(p', s') && cell in s'.cells && !s'.cells[cell].clean
    ensures forall i {:trigger SpotLeft(k, k', s', i)} :: i in k.insts ==> SpotLeft(k, k', s', i)
  {
    forall i {:trigger SpotLeft(k, k', s', i)} | i in k.insts ensures SpotLeft(k, k', s', i) {
      assert WfInst(k, i);
      assert i in p'.spots && (s'.insts[i].clean ==> s'.cells[i.cell].clean);
    }
  }

  /** phx_cell_set_origin. */
  method SetOrigin(cell: Cell, origin: Vec2, ghost w: World)
    requires Coherent(w) && cell in w.cells
    modifies cell`origin, w.cells`invalid, w.insts`invalid
    ensures Coherent(w)
    ensures ContentOf(w) == old(ContentOf(w)).(cells := old(ContentOf(w)).cells[cell := old(ContentOf(w)).cells[cell].(origin := origin)])
  {
    hide PlanOf, GeosOk, AllOk, Grounded, Dirtied, IsPlan;
    ghost var k, s, g := ContentOf(w), Snap(w), GeoSnap(w);
    PlanIsPlan(k);
    OkIsGrounded(PlanOf(k), s);
    AssignOrigin(cell, origin, w);
    ghost var k' := ContentOf(w);
    OriginMoved(k, PlanOf(k), k', s, cell, origin);
    TouchCell(cell, w, k', PlanOf(k'));
    OriginIsCoherent(k, PlanOf(k), s, g, k', PlanOf(k'), Snap(w), cell, origin);
  }

  /** phx_cell_set_size: the extents do not depend on the size, but are recomputed. */
  method SetSize(cell: Cell, size: Vec2, ghost w: World)
    requires Coherent(w) && cell in w.cells
    modifies cell`size, w.cells`invalid, w.insts`invalid
    ensures Coherent(w) && ContentOf(w) == old(ContentOf(w)) && cell.size == size && EXTENTS in cell.invalid
  {
    hide PlanOf, GeosOk, AllOk, Wf, Grounded, Dirtied, IsPlan;
    ghost var k, s, g := ContentOf(w), Snap(w), GeoSnap(w);
    PlanIsPlan(k);
    OkIsGrounded(PlanOf(k), s);
    AssignSize(cell, size, w);
    TouchCell(cell, w, k, PlanOf(k));
    DirtyIsCoherent(k, PlanOf(k), s, g, Snap(w));
    assert Snap(w).cells[cell] == CellCache(cell);
  }

  lemma {:induction false} DirtyIsCoherent(k: Content, p: Plan, s: Caches, g: GeoCaches, s': Caches)
    requires IsPlan(k, p) && AllOk(p, s) && GeosOk(k, g) && Grounded(p, s') && Dirtied(s, s')
    ensures AllOk(p, s')
  {
    forall i {:trigger SpotLeft(k, k, s', i)} | i in k.insts ensures SpotLeft(k, k, s', i) {
      assert InstPlanned(k, p, i);
    }
    ReshapedIsCoherent(k, p, s, g, k, p, s');
  }

  method AssignSize(cell: Cell, size: Vec2, ghost w: World)
    modifies cell`size
    ensures ContentOf(w) == old(ContentOf(w)) && Snap(w) == old(Snap(w)) && GeoSnap(w) == old(GeoSnap(w)) && cell.size == size
  {
    cell.size := size;
  }
}
