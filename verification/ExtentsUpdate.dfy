/** The incremental extents pass over cells and instances. */
module ExtentsUpdate {
  import opened Marks
  import opened Extents
  import opened Design
  import opened Placement
  import opened GeometryUpdate
  import opened ExtentsCache

  // --- Reading the caches and the plan off the objects ---------------------

  ghost function CellCache(c: Cell): Cache
    reads c`invalid, c`ext
  {
    Cache(EXTENTS !in c.invalid, c.ext)
  }

  ghost function InstCache(i: Inst): Cache
    reads i`invalid, i`ext
  {
    Cache(EXTENTS !in i.invalid, i.ext)
  }

  ghost function CellCaches(cells: set<Cell>): (m: map<Cell, Cache>)
    reads cells`invalid, cells`ext
    ensures m.Keys == cells && forall c {:trigger m[c]} :: c in cells ==> m[c] == CellCache(c)
  {
    map c | c in cells :: CellCache(c)
  }

  ghost function InstCaches(insts: set<Inst>): (m: map<Inst, Cache>)
    reads insts`invalid, insts`ext
    ensures m.Keys == insts && forall i {:trigger m[i]} :: i in insts ==> m[i] == InstCache(i)
  {
    map i | i in insts :: InstCache(i)
  }

  ghost function Snap(w: World): (s: Caches)
    reads w.cells`invalid, w.cells`ext, w.insts`invalid, w.insts`ext
  {
    Caches(CellCaches(w.cells), InstCaches(w.insts))
  }

  // The bits that the extents pass leaves alone.
  ghost function OtherBits(w: World, b: Bit): (map<Cell, set<Bit>>, map<Inst, set<Bit>>)
    reads w.cells`invalid, w.insts`invalid
  {
    (CellRests(w.cells, b), InstRests(w.insts, b))
  }

  // --- The plan of a design ------------------------------------------------

  lemma {:induction false} WfLayered(k: Content)
    requires Wf(k)
    ensures AllLayered(k)
  {
    forall g {:trigger Layered(k, g)} | g in k.geos ensures Layered(k, g) {
      assert WfGeo(k, g);
    }
  }

  ghost function PinBoxes(k: Content, c: Cell): (bs: seq<Box>)
    requires Wf(k) && c in k.cells
    ensures |bs| == |k.cells[c].pins|
    ensures forall n :: 0 <= n < |bs| ==> Layered(k, k.cells[c].pins[n].geo) && bs[n] == GeoBox(k, k.cells[c].pins[n].geo)
  {
    assert WfCell(k, c);
    WfLayered(k);
    seq(|k.cells[c].pins|, n requires 0 <= n < |k.cells[c].pins| && Layered(k, k.cells[c].pins[n].geo) => GeoBox(k, k.cells[c].pins[n].geo))
  }

  ghost function OwnBox(k: Content, c: Cell): (b: Box)
    requires Wf(k) && c in k.cells
    ensures Layered(k, c.geo) && b == GeoBox(k, c.geo)
  {
    assert WfCell(k, c);
    WfLayered(k);
    GeoBox(k, c.geo)
  }

  ghost function SpotIn(k: Content, i: Inst): Spot
    requires Wf(k) && i in k.insts
  {
    assert WfInst(k, i);
    Spot(k.insts[i].orientation, k.insts[i].pos, k.cells[i.cell].origin)
  }

  /** What the extents depend on, with the geometries' boxes taken from scratch. */
  ghost function PlanOf(k: Content): (p: Plan)
    requires Wf(k)
  {
    Plan(map c | c in k.cells :: OwnBox(k, c), map c | c in k.cells :: PinBoxes(k, c),
         map c | c in k.cells :: k.cells[c].insts, map i | i in k.insts :: SpotIn(k, i))
  }

  ghost predicate CellPlanned(k: Content, p: Plan, c: Cell)
    requires Wf(k)
  {
    && c in k.cells && c in p.own && c in p.pins && c in p.insts && WfCell(k, c)
    && p.own[c] == OwnBox(k, c) && p.pins[c] == PinBoxes(k, c) && p.insts[c] == k.cells[c].insts
  }

  ghost predicate InstPlanned(k: Content, p: Plan, i: Inst)
    requires Wf(k)
  {
    i in k.insts && i in p.spots && WfInst(k, i) && p.spots[i] == SpotIn(k, i)
  }

  ghost predicate IsPlan(k: Content, p: Plan) {
    && Wf(k) && WfPlan(p) && p.own.Keys == k.cells.Keys && p.spots.Keys == k.insts.Keys
    && (forall c {:trigger CellPlanned(k, p, c)} :: c in k.cells ==> CellPlanned(k, p, c))
    && (forall i {:trigger InstPlanned(k, p, i)} :: i in k.insts ==> InstPlanned(k, p, i))
  }

  lemma {:induction false} PlanOfCell(k: Content, c: Cell)
    requires Wf(k) && c in k.cells
    ensures CellPlanned(k, PlanOf(k), c)
  {
    assert WfCell(k, c);
  }

  lemma {:induction false} PlanOfInst(k: Content, i: Inst)
    requires Wf(k) && i in k.insts
    ensures InstPlanned(k, PlanOf(k), i)
  {
    assert WfInst(k, i);
  }

  lemma {:induction false} PlanIsPlan(k: Content)
    requires Wf(k)
    ensures IsPlan(k, PlanOf(k))
  {
    hide GeoBox, CellPlanned, InstPlanned, WfPlan, Wf;
    var p := PlanOf(k);
    forall c | c in k.cells ensures CellPlanned(k, p, c) {
      PlanOfCell(k, c);
    }
    forall i | i in k.insts ensures InstPlanned(k, p, i) {
      PlanOfInst(k, i);
    }
    PlannedIsWf(k, p);
  }

  lemma {:induction false} PlannedIsWf(k: Content, p: Plan)
    requires Wf(k) && p.own.Keys == p.pins.Keys == p.insts.Keys == k.cells.Keys && p.spots.Keys == k.insts.Keys
    requires forall c {:trigger CellPlanned(k, p, c)} :: c in k.cells ==> CellPlanned(k, p, c)
    requires forall i {:trigger InstPlanned(k, p, i)} :: i in k.insts ==> InstPlanned(k, p, i)
    ensures WfPlan(p)
  {
    forall c {:trigger p.insts[c]} | c in p.own
      ensures forall n :: 0 <= n < |p.insts[c]| ==> p.insts[c][n] in p.spots && p.insts[c][n].parent == c
    {
      assert CellPlanned(k, p, c);
    }
    forall i {:trigger i in p.spots} | i in p.spots ensures i.cell in p.own && i.parent in p.own {
      assert InstPlanned(k, p, i);
    }
  }

  /** What every step of the pass needs and keeps. */
  ghost predicate Ready(w: World, k: Content)
    reads w.cells`insts, w.cells`uses, w.cells`pins, w.cells`origin, w.insts`orientation, w.insts`pos
    reads w.geos`cell, w.geos`layers, w.layers`lines, w.layers`shapes
    reads w.geos`invalid, w.geos`ext, w.layers`invalid, w.layers`ext
  {
    ContentOf(w) == k && GeosOk(k, GeoSnap(w))
  }

  // --- The steps on one object ---------------------------------------------

  method StoreCell(cell: Cell, x: Box, ghost w: World)
    requires cell in w.cells
    modifies cell`ext
    ensures Snap(w) == SetCell(old(Snap(w)), cell, Cache(old(Snap(w)).cells[cell].clean, x))
    ensures ContentOf(w) == old(ContentOf(w)) && GeoSnap(w) == old(GeoSnap(w))
    ensures OtherBits(w, EXTENTS) == old(OtherBits(w, EXTENTS))
  {
    hide GeoSnap, ContentOf;
    ghost var m := CellCaches(w.cells);
    assert m[cell] == CellCache(cell);
    cell.ext := x;
    OneChanged(m, CellCaches(w.cells), cell);
    assert CellCaches(w.cells)[cell] == CellCache(cell);
  }

  method ClearCell(cell: Cell, ghost w: World)
    requires cell in w.cells
    modifies cell`invalid
    ensures Snap(w) == SetCell(old(Snap(w)), cell, Cache(true, old(Snap(w)).cells[cell].ext))
    ensures ContentOf(w) == old(ContentOf(w)) && GeoSnap(w) == old(GeoSnap(w))
    ensures OtherBits(w, EXTENTS) == old(OtherBits(w, EXTENTS))
  {
    hide ContentOf;
    ghost var m, rests := CellCaches(w.cells), CellRests(w.cells, EXTENTS);
    assert m[cell] == CellCache(cell) && rests[cell] == CellRest(cell, EXTENTS);
    cell.invalid := cell.invalid - {EXTENTS};
    assert CellRest(cell, EXTENTS) == old(CellRest(cell, EXTENTS));
    SameMap(rests, CellRests(w.cells, EXTENTS));
    OneChanged(m, CellCaches(w.cells), cell);
    assert CellCaches(w.cells)[cell] == CellCache(cell);
  }

  method StoreInst(inst: Inst, x: Box, ghost w: World)
    requires inst in w.insts
    modifies inst`ext
    ensures Snap(w) == SetInst(old(Snap(w)), inst, Cache(old(Snap(w)).insts[inst].clean, x))
    ensures ContentOf(w) == old(ContentOf(w)) && GeoSnap(w) == old(GeoSnap(w))
    ensures OtherBits(w, EXTENTS) == old(OtherBits(w, EXTENTS))
  {
    ghost var m := InstCaches(w.insts);
    assert m[inst] == InstCache(inst);
    inst.ext := x;
    OneChanged(m, InstCaches(w.insts), inst);
    assert InstCaches(w.insts)[inst] == InstCache(inst);
  }

  method ClearInst(inst: Inst, ghost w: World)
    requires inst in w.insts
    modifies inst`invalid
    ensures Snap(w) == SetInst(old(Snap(w)), inst, Cache(true, old(Snap(w)).insts[inst].ext))
    ensures ContentOf(w) == old(ContentOf(w)) && GeoSnap(w) == old(GeoSnap(w))
    ensures OtherBits(w, EXTENTS) == old(OtherBits(w, EXTENTS))
  {
    hide ContentOf;
    ghost var m, rests := InstCaches(w.insts), InstRests(w.insts, EXTENTS);
    assert m[inst] == InstCache(inst) && rests[inst] == InstRest(inst, EXTENTS);
    inst.invalid := inst.invalid - {EXTENTS};
    assert InstRest(inst, EXTENTS) == old(InstRest(inst, EXTENTS));
    SameMap(rests, InstRests(w.insts, EXTENTS));
    OneChanged(m, InstCaches(w.insts), inst);
    assert InstCaches(w.insts)[inst] == InstCache(inst);
  }

  method MoveInst(inst: Inst, x: Box, ghost w: World)
    requires inst in w.insts
    modifies inst`invalid, inst`ext
    ensures Snap(w) == SetInst(old(Snap(w)), inst, Cache(true, x))
    ensures ContentOf(w) == old(ContentOf(w)) && GeoSnap(w) == old(GeoSnap(w))
    ensures OtherBits(w, EXTENTS) == old(OtherBits(w, EXTENTS))
  {
    hide ContentOf, Snap;
    ghost var m := InstCaches(w.insts);
    ClearInst(inst, w);
    StoreInst(inst, x, w);
    assert m[inst := Cache(true, m[inst].ext)][inst := Cache(true, x)] == m[inst := Cache(true, x)];
  }

  lemma {:induction false} SetTwice(s: Caches, c: Cell, x: Cache, y: Cache)
    ensures SetCell(SetCell(s, c, x), c, y) == SetCell(s, c, y)
  {
    assert s.cells[c := x][c := y] == s.cells[c := y];
  }

  // The start of the recomputation of a cell.
  method StartCell(cell: Cell, ghost w: World)
    requires cell in w.cells
    modifies cell`invalid, cell`ext
    ensures Snap(w) == SetCell(old(Snap(w)), cell, Cache(true, RESET))
    ensures ContentOf(w) == old(ContentOf(w)) && GeoSnap(w) == old(GeoSnap(w))
    ensures OtherBits(w, EXTENTS) == old(OtherBits(w, EXTENTS))
  {
    ghost var s := Snap(w);
    ClearCell(cell, w);
    StoreCell(cell, RESET, w);
    SetTwice(s, cell, Cache(true, s.cells[cell].ext), Cache(true, RESET));
  }

  method RefreshGeo(geo: Geometry, ghost w: World, ghost k: Content)
    requires Ready(w, k) && geo in w.geos
    modifies w.geos`invalid, w.geos`ext, w.layers`invalid, w.layers`ext
    ensures Ready(w, k) && Layered(k, geo) && geo.ext == GeoBox(k, geo)
    ensures Snap(w) == old(Snap(w)) && OtherBits(w, EXTENTS) == old(OtherBits(w, EXTENTS))
  {
    hide ContentOf;
    RefreshContent(geo, w, k);
  }

  method RefreshContent(geo: Geometry, ghost w: World, ghost k: Content)
    requires Ready(w, k) && geo in w.geos
    modifies w.geos`invalid, w.geos`ext, w.layers`invalid, w.layers`ext
    ensures ContentOf(w) == k && GeosOk(k, GeoSnap(w)) && Layered(k, geo) && geo.ext == GeoBox(k, geo)
  {
    hide GeoDatas, CellDatas;
    UpdateGeometry(geo, {EXTENTS}, w, k);
  }

  method IncludeGeo(cell: Cell, geo: Geometry, ghost w: World, ghost k: Content)
    requires Ready(w, k) && cell in w.cells && geo in w.geos
    modifies cell`ext, w.geos`invalid, w.geos`ext, w.layers`invalid, w.layers`ext
    ensures Ready(w, k) && Layered(k, geo)
    ensures var s := old(Snap(w)); Snap(w) == SetCell(s, cell, Cache(s.cells[cell].clean, Include(s.cells[cell].ext, GeoBox(k, geo))))
    ensures OtherBits(w, EXTENTS) == old(OtherBits(w, EXTENTS))
  {
    ghost var s := Snap(w);
    assert s.cells[cell] == CellCache(cell);
    RefreshGeo(geo, w, k);
    StoreCell(cell, Include(cell.ext, geo.ext), w);
  }

  // The start of the recomputation, with the cell's own geometry.
  method CoverOwn(cell: Cell, ghost w: World, ghost k: Content)
    requires Ready(w, k) && Wf(k) && cell in w.cells
    modifies cell`invalid, cell`ext, w.geos`invalid, w.geos`ext, w.layers`invalid, w.layers`ext
    ensures Ready(w, k) && Snap(w) == SetCell(old(Snap(w)), cell, Cache(true, Include(RESET, OwnBox(k, cell))))
    ensures OtherBits(w, EXTENTS) == old(OtherBits(w, EXTENTS))
    ensures DirtyCells(Snap(w)) <= old(DirtyCells(Snap(w))) - {cell}
  {
    ghost var s := Snap(w);
    assert WfCell(k, cell);
    StartCell(cell, w);
    IncludeGeo(cell, cell.geo, w, k);
    SetTwice(s, cell, Cache(true, RESET), Cache(true, Include(RESET, OwnBox(k, cell))));
    DirtySet(s, cell, Cache(true, Include(RESET, OwnBox(k, cell))));
  }

  lemma {:induction false} DirtySet(s: Caches, c: Cell, x: Cache)
    requires c in s.cells && (s.cells[c].clean ==> x.clean)
    ensures DirtyCells(SetCell(s, c, x)) <= DirtyCells(s) - (if x.clean then {c} else {})
  {
  }

  method IncludeInst(cell: Cell, inst: Inst, ghost w: World)
    requires cell in w.cells && inst in w.insts
    modifies cell`ext
    ensures var s := old(Snap(w)); Snap(w) == SetCell(s, cell, Cache(s.cells[cell].clean, Include(s.cells[cell].ext, s.insts[inst].ext)))
    ensures ContentOf(w) == old(ContentOf(w)) && GeoSnap(w) == old(GeoSnap(w))
    ensures OtherBits(w, EXTENTS) == old(OtherBits(w, EXTENTS))
    ensures DirtyCells(Snap(w)) <= old(DirtyCells(Snap(w)))
  {
    ghost var s := Snap(w);
    assert s.insts[inst] == InstCache(inst) && s.cells[cell] == CellCache(cell);
    StoreCell(cell, Include(cell.ext, inst.ext), w);
    DirtySet(s, cell, Cache(s.cells[cell].clean, Include(s.cells[cell].ext, s.insts[inst].ext)));
  }

  // The loop over the pins.
  method IncludePins(cell: Cell, ghost w: World, ghost k: Content, ghost bs: seq<Box>)
    requires Ready(w, k) && Wf(k) && cell in w.cells && bs == PinBoxes(k, cell)
    modifies cell`ext, w.geos`invalid, w.geos`ext, w.layers`invalid, w.layers`ext
    ensures Ready(w, k)
    ensures var s := old(Snap(w)); Snap(w) == SetCell(s, cell, Cache(s.cells[cell].clean, IncludeAll(s.cells[cell].ext, bs)))
    ensures OtherBits(w, EXTENTS) == old(OtherBits(w, EXTENTS))
    ensures DirtyCells(Snap(w)) <= old(DirtyCells(Snap(w)))
  {
    hide GeosOk, OwnBox, Fits;
    ghost var s := Snap(w);
    assert k.cells[cell] == CellDataOf(cell) && WfCell(k, cell);
    for z := 0 to |cell.pins|
      invariant Ready(w, k) && OtherBits(w, EXTENTS) == old(OtherBits(w, EXTENTS))
      invariant Snap(w) == SetCell(s, cell, Cache(s.cells[cell].clean, IncludeAll(s.cells[cell].ext, bs[..z])))
    {
      IncludePin(cell, z, w, k, bs, s);
    }
    assert bs[..|cell.pins|] == bs;
    DirtySet(s, cell, Cache(s.cells[cell].clean, IncludeAll(s.cells[cell].ext, bs)));
  }

  // The body of the loop over the pins.
  method IncludePin(cell: Cell, z: nat, ghost w: World, ghost k: Content, ghost bs: seq<Box>, ghost s: Caches)
    requires Ready(w, k) && cell in w.cells && cell in s.cells && z < |cell.pins| == |bs|
    requires cell.pins[z].geo in w.geos && Layered(k, cell.pins[z].geo) && bs[z] == GeoBox(k, cell.pins[z].geo)
    requires Snap(w) == SetCell(s, cell, Cache(s.cells[cell].clean, IncludeAll(s.cells[cell].ext, bs[..z])))
    modifies cell`ext, w.geos`invalid, w.geos`ext, w.layers`invalid, w.layers`ext
    ensures Ready(w, k) && OtherBits(w, EXTENTS) == old(OtherBits(w, EXTENTS))
    ensures Snap(w) == SetCell(s, cell, Cache(s.cells[cell].clean, IncludeAll(s.cells[cell].ext, bs[..z + 1])))
  {
    hide ContentOf;
    ghost var x := s.cells[cell];
    IncludeGeo(cell, cell.pins[z].geo, w, k);
    assert bs[..z + 1][..z] == bs[..z];
    SetTwice(s, cell, Cache(x.clean, IncludeAll(x.ext, bs[..z])), Cache(x.clean, IncludeAll(x.ext, bs[..z + 1])));
  }

  /** phx_inst_update_extents. */
  method UpdateInstExtents(inst: Inst, ghost w: World, ghost k: Content, ghost p: Plan)
    requires ContentOf(w) == k && IsPlan(k, p) && inst in w.insts
    modifies inst`invalid, inst`ext
    ensures inst.cell in w.cells
    ensures Snap(w) == SetInst(old(Snap(w)), inst, Cache(true, BoxToParent(p.spots[inst], old(Snap(w)).cells[inst.cell].ext)))
    ensures OtherBits(w, EXTENTS) == old(OtherBits(w, EXTENTS))
    ensures ContentOf(w) == old(ContentOf(w)) && GeoSnap(w) == old(GeoSnap(w))
  {
    assert InstPlanned(k, p, inst) && Snap(w).cells[inst.cell] == CellCache(inst.cell);
    assert k.insts[inst] == InstDataOf(inst) && k.cells[inst.cell] == CellDataOf(inst.cell);
    var x := BoxToParent(SpotOf(inst), inst.cell.ext);
    MoveInst(inst, x, w);
  }

  // --- The recursion -------------------------------------------------------

  /** phx_cell_update for the extents.  It terminates on every instantiation graph, as
      each recomputation removes a cell from the dirty ones; on an acyclic graph it
      leaves coherent caches at and below the cell. */
  method UpdateCell(cell: Cell, ghost w: World, ghost k: Content, ghost p: Plan, ghost rank: map<Cell, nat>)
    requires Ready(w, k) && IsPlan(k, p) && cell in w.cells
    modifies w.cells`invalid, w.cells`ext, w.insts`invalid, w.insts`ext
    modifies w.geos`invalid, w.geos`ext, w.layers`invalid, w.layers`ext
    ensures Ready(w, k) && OtherBits(w, EXTENTS) == old(OtherBits(w, EXTENTS))
    ensures Refreshed(p, rank, old(Snap(w)), Snap(w), cell)
    ensures DirtyCells(Snap(w)) <= old(DirtyCells(Snap(w))) - {cell}
    ensures EXTENTS !in old(cell.invalid) ==> Snap(w) == old(Snap(w))
    decreases DirtyCells(Snap(w)), 1
  {
    assert Snap(w).cells[cell] == CellCache(cell);
    if EXTENTS in cell.invalid {
      UpdateCellExtents(cell, w, k, p, rank);
    } else {
      NothingToRefresh(p, rank, Snap(w), cell);
    }
  }

  /** phx_cell_update_extents. */
  method UpdateCellExtents(cell: Cell, ghost w: World, ghost k: Content, ghost p: Plan, ghost rank: map<Cell, nat>)
    requires Ready(w, k) && IsPlan(k, p) && cell in w.cells && cell in DirtyCells(Snap(w))
    modifies w.cells`invalid, w.cells`ext, w.insts`invalid, w.insts`ext
    modifies w.geos`invalid, w.geos`ext, w.layers`invalid, w.layers`ext
    ensures Ready(w, k) && OtherBits(w, EXTENTS) == old(OtherBits(w, EXTENTS))
    ensures Refreshed(p, rank, old(Snap(w)), Snap(w), cell)
    ensures DirtyCells(Snap(w)) <= old(DirtyCells(Snap(w))) - {cell}
    decreases DirtyCells(Snap(w)), 0
  {
    hide OtherBits, GeoSnap, Refreshed, Looping, GeosOk;
    ghost var s := Snap(w);
    assert CellPlanned(k, p, cell);
    CoverOwn(cell, w, k);
    LoopStart(p, rank, s, cell);
    CoverInsts(cell, w, k, p, rank, s);
    ghost var s' := Snap(w);
    IncludePins(cell, w, k, p.pins[cell]);
    LoopDone(p, rank, s, s', cell);
  }

  // The loop over the instances.
  method CoverInsts(cell: Cell, ghost w: World, ghost k: Content, ghost p: Plan, ghost rank: map<Cell, nat>, ghost s: Caches)
    requires Ready(w, k) && IsPlan(k, p) && cell in w.cells && cell !in DirtyCells(Snap(w)) && Looping(p, rank, s, Snap(w), cell, 0)
    modifies w.cells`invalid, w.cells`ext, w.insts`invalid, w.insts`ext
    modifies w.geos`invalid, w.geos`ext, w.layers`invalid, w.layers`ext
    ensures Ready(w, k) && OtherBits(w, EXTENTS) == old(OtherBits(w, EXTENTS))
    ensures Looping(p, rank, s, Snap(w), cell, |cell.insts|) && |p.insts[cell]| == |cell.insts|
    ensures DirtyCells(Snap(w)) <= old(DirtyCells(Snap(w)))
    decreases DirtyCells(Snap(w)), 4
  {
    hide OtherBits, GeoSnap, Looping, DirtyCells, GeosOk, Fits, WfPlan, WfCell;
    assert k.cells[cell] == CellDataOf(cell) && CellPlanned(k, p, cell);
    var z := 0;
    while z < |cell.insts|
      invariant z <= |cell.insts| && Ready(w, k) && OtherBits(w, EXTENTS) == old(OtherBits(w, EXTENTS))
      invariant Looping(p, rank, s, Snap(w), cell, z)
      invariant DirtyCells(Snap(w)) <= old(DirtyCells(Snap(w)))
      decreases |cell.insts| - z
    {
      CoverInst(cell, z, w, k, p, rank, s);
      z := z + 1;
    }
  }

  // The body of the loop over the instances.
  method CoverInst(cell: Cell, z: nat, ghost w: World, ghost k: Content, ghost p: Plan, ghost rank: map<Cell, nat>, ghost s: Caches)
    requires Ready(w, k) && IsPlan(k, p) && cell in w.cells && z < |cell.insts|
    requires Looping(p, rank, s, Snap(w), cell, z) && cell !in DirtyCells(Snap(w))
    modifies w.cells`invalid, w.cells`ext, w.insts`invalid, w.insts`ext
    modifies w.geos`invalid, w.geos`ext, w.layers`invalid, w.layers`ext
    ensures Ready(w, k) && OtherBits(w, EXTENTS) == old(OtherBits(w, EXTENTS))
    ensures Looping(p, rank, s, Snap(w), cell, z + 1)
    ensures DirtyCells(Snap(w)) <= old(DirtyCells(Snap(w)))
    decreases DirtyCells(Snap(w)), 3
  {
    hide WfPlan;
    ghost var s' := Snap(w);
    assert k.cells[cell] == CellDataOf(cell) && CellPlanned(k, p, cell);
    UpdateInst(cell.insts[z], w, k, p, rank);
    ghost var t := Snap(w);
    LoopStep(p, rank, s, s', t, cell, z);
    IncludeInst(cell, cell.insts[z], w);
  }

  /** phx_inst_update for the extents. */
  method UpdateInst(inst: Inst, ghost w: World, ghost k: Content, ghost p: Plan, ghost rank: map<Cell, nat>)
    requires Ready(w, k) && IsPlan(k, p) && inst in w.insts
    modifies w.cells`invalid, w.cells`ext, w.insts`invalid, w.insts`ext
    modifies w.geos`invalid, w.geos`ext, w.layers`invalid, w.layers`ext
    ensures Ready(w, k) && OtherBits(w, EXTENTS) == old(OtherBits(w, EXTENTS))
    ensures InstRefreshed(p, rank, old(Snap(w)), Snap(w), inst)
    ensures DirtyCells(Snap(w)) <= old(DirtyCells(Snap(w)))
    decreases DirtyCells(Snap(w)), 2
  {
    hide WfPlan, Wf;
    ghost var s := Snap(w);
    assert InstPlanned(k, p, inst);
    UpdateCell(inst.cell, w, k, p, rank);
    ghost var s' := Snap(w);
    assert s'.insts[inst] == InstCache(inst);
    if EXTENTS in inst.invalid {
      UpdateInstExtents(inst, w, k, p);
    }
    InstanceDone(p, rank, s, s', Snap(w), inst);
  }
}
