/** A new instance in a clean parent (new_inst does not dirty it): what the parent's extents are
    worth after further placing and updating. */
module CleanParent {
  import opened Marks
  import opened Extents
  import opened Design
  import opened Placement
  import opened Invalidation
  import opened GeometryUpdate
  import opened ExtentsCache
  import opened ExtentsUpdate
  import opened Edits
  import opened Placing
  import opened Instantiation

  /** The plan with one more instance, at the end of its parent's list. */
  ghost predicate PlanGrown(p: Plan, p': Plan, inst: Inst) {
    && WfPlan(p) && WfPlan(p') && inst.parent in p.own && inst.cell in p.own
    && p'.own == p.own && p'.pins == p.pins
    && p'.insts == p.insts[inst.parent := p.insts[inst.parent] + [inst]]
    && p'.spots.Keys == p.spots.Keys + {inst} && forall i {:trigger p'.spots[i]} :: i in p.spots ==> p'.spots[i] == p.spots[i]
  }

  lemma {:induction false} RankedBefore(p: Plan, p': Plan, inst: Inst, rank: map<Cell, nat>)
    requires PlanGrown(p, p', inst) && Ranked(p', rank)
    ensures Ranked(p, rank)
  {
    forall i {:trigger i in p.spots} | i in p.spots ensures rank[i.cell] < rank[i.parent] {
      assert i in p'.spots;
    }
  }

  // Below the parent nothing has changed.
  lemma {:induction false} SameBelow(p: Plan, p': Plan, inst: Inst, rank: map<Cell, nat>, c: Cell)
    requires PlanGrown(p, p', inst) && Ranked(p, rank) && Ranked(p', rank) && c in p.own && rank[c] < rank[inst.parent]
    ensures Scratch(p', rank, c) == Scratch(p, rank, c)
    decreases rank[c], |p.insts[c]| + 1
  {
    SameInsts(p, p', inst, rank, c, |p.insts[c]|);
  }

  lemma {:induction false} SameInsts(p: Plan, p': Plan, inst: Inst, rank: map<Cell, nat>, c: Cell, n: nat)
    requires PlanGrown(p, p', inst) && Ranked(p, rank) && Ranked(p', rank) && c in p.own && rank[c] <= rank[inst.parent] && n <= |p.insts[c]|
    ensures n <= |p'.insts[c]| && ScratchInsts(p', rank, c, n) == ScratchInsts(p, rank, c, n)
    decreases rank[c], n
  {
    if n > 0 {
      var i := p.insts[c][n - 1];
      assert i in p.spots && i in p'.spots && p'.insts[c][n - 1] == i;
      SameInsts(p, p', inst, rank, c, n - 1);
      SameBelow(p, p', inst, rank, i.cell);
    }
  }

  lemma {:induction false} IncludeLast(b: Box, bs: seq<Box>, x: Box)
    ensures IncludeAll(Include(b, x), bs) == Include(IncludeAll(b, bs), x)
  {
    if bs != [] {
      var n := |bs| - 1;
      IncludeLast(b, bs[..n], x);
      IncludeAssociative(IncludeAll(b, bs[..n]), x, bs[n]);
      IncludeAssociative(IncludeAll(b, bs[..n]), bs[n], x);
      IncludeAssociative(x, bs[n], RESET);
    }
  }

  // The parent from scratch: what it was and the new instance's box.
  lemma {:induction false} ScratchGrows(p: Plan, p': Plan, inst: Inst, rank: map<Cell, nat>)
    requires PlanGrown(p, p', inst) && Ranked(p, rank) && Ranked(p', rank)
    ensures Scratch(p', rank, inst.parent)
            == Include(Scratch(p, rank, inst.parent), BoxToParent(p'.spots[inst], Scratch(p', rank, inst.cell)))
  {
    var c, n := inst.parent, |p.insts[inst.parent]|;
    var x, b := BoxToParent(p'.spots[inst], Scratch(p', rank, inst.cell)), Include(RESET, p.own[inst.parent]);
    SameInsts(p, p', inst, rank, c, n);
    var bs := ScratchInsts(p, rank, c, n);
    assert ScratchInsts(p', rank, c, n + 1) == bs + [x] && (bs + [x])[..n] == bs;
    assert IncludeAll(b, bs + [x]) == Include(IncludeAll(b, bs), x);
    IncludeLast(IncludeAll(b, bs), p.pins[c], x);
  }

  /** The extents of a clean parent, which nothing recomputes, are right exactly when the new
      instance lies inside them already. */
  lemma {:induction false} CleanParentIff(p: Plan, s: Caches, p': Plan, inst: Inst, rank: map<Cell, nat>)
    requires AllOk(p, s) && PlanGrown(p, p', inst) && Ranked(p', rank) && s.cells[inst.parent].clean
    ensures var ext := s.cells[inst.parent].ext;
            ext == Scratch(p', rank, inst.parent) <==> Include(ext, BoxToParent(p'.spots[inst], Scratch(p', rank, inst.cell))) == ext
  {
    RankedBefore(p, p', inst, rank);
    CoherentIsScratch(p, s, rank, inst.parent);
    ScratchGrows(p, p', inst, rank);
  }

  const UNIT := Box(Fin(0.0), Fin(0.0), Fin(1.0), Fin(1.0))

  // A clean and empty cell a, and a clean cell b with a unit square.
  ghost predicate TwoCells(a: Cell, b: Cell, p: Plan, s: Caches) {
    && a != b && p == Plan(map[a := RESET, b := UNIT], map[a := [], b := []], map[a := [], b := []], map[])
    && s == Caches(map[a := Cache(true, RESET), b := Cache(true, UNIT)], map[])
  }

  lemma {:induction false} TwoCellsOk(a: Cell, b: Cell, p: Plan, s: Caches)
    requires TwoCells(a, b, p, s)
    ensures AllOk(p, s)
  {
    assert IncludeAll(RESET, []) == RESET && IncludeAll(UNIT, []) == UNIT;
    assert CellExt(p, s, a) == RESET && CellExt(p, s, b) == UNIT;
  }

  lemma {:induction false} TwoCellsScratch(a: Cell, b: Cell, p: Plan, s: Caches, rank: map<Cell, nat>)
    requires TwoCells(a, b, p, s) && Ranked(p, rank)
    ensures Scratch(p, rank, a) == RESET && Scratch(p, rank, b) == UNIT
  {
    assert IncludeAll(RESET, []) == RESET && IncludeAll(UNIT, []) == UNIT;
  }

  /** An instance of b put into a where it stands: a's extents stay empty, and should be the square. */
  lemma {:induction false} StaleExample(a: Cell, b: Cell, p: Plan, s: Caches, i: Inst, p': Plan, rank: map<Cell, nat>)
    requires TwoCells(a, b, p, s) && i.parent == a && i.cell == b && rank == map[a := 1, b := 0]
    requires p' == p.(insts := p.insts[a := [i]], spots := map[i := Spot(Orientation(false, false, false), Vec2(0.0, 0.0), Vec2(0.0, 0.0))])
    ensures AllOk(p, s) && PlanGrown(p, p', i) && Ranked(p', rank) && s.cells[a].clean
    ensures s.cells[a].ext == RESET && Scratch(p', rank, a) == UNIT
  {
    TwoCellsOk(a, b, p, s);
    assert [] + [i] == [i];
    assert p'.insts == p.insts[a := p.insts[a] + [i]];
    RankedBefore(p, p', i, rank);
    TwoCellsScratch(a, b, p, s, rank);
    SameBelow(p, p', i, rank, b);
    ScratchGrows(p, p', i, rank);
  }

  // --- On the objects ----------------------------------------------------------------

  // The content with one more instance, wherever it is placed.
  ghost predicate Grown(k: Content, k': Content, inst: Inst) {
    && inst.cell in k.cells && inst.parent in k.cells && inst !in k.insts
    && k'.geos == k.geos && k'.layers == k.layers
    && k'.cells == WithInst(WithUse(k.cells, inst.cell, inst), inst.parent, inst)
    && k'.insts.Keys == k.insts.Keys + {inst} && forall i {:trigger k'.insts[i]} :: i in k.insts ==> k'.insts[i] == k.insts[i]
  }

  lemma {:induction false} GrownCell(k: Content, k': Content, inst: Inst, c: Cell)
    requires Wf(k) && Wf(k') && Grown(k, k', inst) && c in k.cells
    ensures OwnBox(k', c) == OwnBox(k, c) && PinBoxes(k', c) == PinBoxes(k, c)
  {
    assert WfCell(k, c);
    WfLayered(k);
    assert k'.cells[c].pins == k.cells[c].pins;
    SameShapeBox(k, k', c.geo);
    forall n | 0 <= n < |k.cells[c].pins| ensures PinBoxes(k', c)[n] == PinBoxes(k, c)[n] {
      SameShapeBox(k, k', k.cells[c].pins[n].geo);
    }
  }

  lemma {:induction false} GrownCellPlan(k: Content, p: Plan, k': Content, p': Plan, inst: Inst, c: Cell)
    requires IsPlan(k, p) && IsPlan(k', p') && Grown(k, k', inst) && c in k.cells
    ensures p'.own[c] == p.own[c] && p'.pins[c] == p.pins[c]
    ensures p'.insts[c] == if c == inst.parent then p.insts[c] + [inst] else p.insts[c]
  {
    assert CellPlanned(k, p, c) && CellPlanned(k', p', c);
    GrownCell(k, k', inst, c);
  }

  lemma {:induction false} GrownPlan(k: Content, p: Plan, k': Content, p': Plan, inst: Inst)
    requires IsPlan(k, p) && IsPlan(k', p') && Grown(k, k', inst)
    ensures PlanGrown(p, p', inst)
  {
    hide WfPlan;
    forall c {:trigger p'.insts[c]} | c in p.own ensures GrownAt(p, p', inst, c) {
      GrownCellPlan(k, p, k', p', inst, c);
    }
    forall i {:trigger p'.spots[i]} | i in p.spots ensures p'.spots[i] == p.spots[i] {
      GrownSpot(k, p, k', p', inst, i);
    }
    GrownFrom(p, p', inst);
  }

  lemma {:induction false} GrownSpot(k: Content, p: Plan, k': Content, p': Plan, inst: Inst, i: Inst)
    requires IsPlan(k, p) && IsPlan(k', p') && Grown(k, k', inst) && i in p.spots
    ensures i in p'.spots && p'.spots[i] == p.spots[i]
  {
    assert InstPlanned(k, p, i);
    assert InstPlanned(k', p', i);
    assert k'.cells[i.cell].origin == k.cells[i.cell].origin;
  }

  ghost predicate GrownAt(p: Plan, p': Plan, inst: Inst, c: Cell)
    requires WfPlan(p) && WfPlan(p') && c in p.own && c in p'.own
  {
    && p'.own[c] == p.own[c] && p'.pins[c] == p.pins[c]
    && p'.insts[c] == if c == inst.parent then p.insts[c] + [inst] else p.insts[c]
  }

  lemma {:induction false} GrownFrom(p: Plan, p': Plan, inst: Inst)
    requires WfPlan(p) && WfPlan(p') && inst.parent in p.own && inst.cell in p.own && p'.own.Keys == p.own.Keys
    requires forall c {:trigger p'.insts[c]} :: c in p.own ==> GrownAt(p, p', inst, c)
    requires p'.spots.Keys == p.spots.Keys + {inst} && forall i {:trigger p'.spots[i]} :: i in p.spots ==> p'.spots[i] == p.spots[i]
    ensures PlanGrown(p, p', inst)
  {
    forall c | c in p.own ensures p'.own[c] == p.own[c] && p'.pins[c] == p.pins[c] {
      assert GrownAt(p, p', inst, c);
      var _ := p'.insts[c];
    }
    assert p'.own == p.own && p'.pins == p.pins;
    assert p'.insts == p.insts[inst.parent := p.insts[inst.parent] + [inst]];
  }

  /** On an acyclic design, these extents of the instance's parent are those from scratch exactly
      when they cover the instance. */
  ghost predicate RightIffInside(k: Content, rank: map<Cell, nat>, inst: Inst, ext: Box) {
    && Wf(k) && inst.parent in k.cells && inst.cell in k.cells && inst in k.insts
    && (Ranked(PlanOf(k), rank) ==>
          (ext == ScratchExtents(k, rank, inst.parent)
           <==> Include(ext, BoxToParent(SpotIn(k, inst), ScratchExtents(k, rank, inst.cell))) == ext))
  }

  // Moving the new instance keeps all that.
  lemma {:induction false} NewStays(k: Content, s: Caches, k': Content, s': Caches, k'': Content, inst: Inst, d: InstData)
    requires Wf(k) && InstAdded(k, s, k', s', inst) && k'' == k'.(insts := k'.insts[inst := d])
    ensures Wf(k'') && Grown(k, k'', inst)
  {
    InstAddedWf(k, s, k', s', inst);
    assert SameShape(k', k'');
    SameShapeWf(k', k'');
  }

  /** inst_set_pos on a dirty instance: nothing above it is dirtied. */
  method MoveNew(inst: Inst, pos: Vec2, ghost w: World, ghost k: Content)
    requires ContentOf(w) == k && Wf(k) && inst in w.insts && EXTENTS in inst.invalid
    modifies inst`pos, inst`orientation, w.cells`invalid, w.insts`invalid
    ensures ContentOf(w) == k.(insts := k.insts[inst := InstData(old(inst.orientation), pos)])
    ensures Snap(w) == old(Snap(w)) && GeoSnap(w) == old(GeoSnap(w))
  {
    AssignInst(inst, pos, inst.orientation, w);
    ghost var k' := ContentOf(w);
    assert SameShape(k, k');
    SameShapeWf(k, k');
    WfGraph(w);
    SpreadInst(inst, w, Graph(w));
  }

  // An update of a clean cell.
  method UpdateClean(cell: Cell, ghost w: World, ghost k: Content, ghost rank: map<Cell, nat>)
    requires Ready(w, k) && Wf(k) && cell in w.cells && EXTENTS !in cell.invalid
    modifies w.cells`invalid, w.cells`ext, w.insts`invalid, w.insts`ext
    modifies w.geos`invalid, w.geos`ext, w.layers`invalid, w.layers`ext
    ensures Snap(w) == old(Snap(w)) && ContentOf(w) == k
  {
    PlanIsPlan(k);
    UpdateCell(cell, w, k, PlanOf(k), rank);
  }

  /** new_inst into a clean parent, inst_set_pos on the new instance, and phx_cell_update: the
      parent is still clean and its extents are what they were, which is right exactly when the
      instance lies inside them. */
  method PlaceIntoClean(into: Cell, cell: Cell, pos: Vec2, ghost w: World, ghost rank: map<Cell, nat>) returns (inst: Inst, ghost w': World)
    requires Coherent(w) && into in w.cells && cell in w.cells && EXTENTS !in into.invalid
    modifies cell`uses, into`insts, w.cells`invalid, w.cells`ext, w.insts`invalid, w.insts`ext
    modifies w.geos`invalid, w.geos`ext, w.layers`invalid, w.layers`ext
    ensures fresh(inst) && w' == w.(insts := w.insts + {inst}) && inst.pos == pos && EXTENTS in inst.invalid
    ensures EXTENTS !in into.invalid && into.ext == old(into.ext)
    ensures inst.parent == into && inst.cell == cell && RightIffInside(ContentOf(w'), rank, inst, into.ext)
  {
    ghost var k, s := ContentOf(w), Snap(w);
    assert s.cells[into] == CellCache(into);
    inst, w' := NewInst(into, cell, w);
    PlaceNew(inst, pos, w, w', rank, k, s);
  }

  // The same step with the old design's objects and the new instance as its frame.
  method PlaceNew(inst: Inst, pos: Vec2, ghost w: World, ghost w': World, ghost rank: map<Cell, nat>, ghost k: Content, ghost s: Caches)
    requires w' == w.(insts := w.insts + {inst})
    requires CoherentValues(k, s, GeoSnap(w')) && InstAdded(k, s, ContentOf(w'), Snap(w'), inst)
    requires inst.parent in w.cells && inst.cell in w.cells && EXTENTS in inst.invalid && EXTENTS !in inst.parent.invalid
    modifies inst`pos, inst`orientation, inst`invalid, inst`ext, w.cells`invalid, w.cells`ext, w.insts`invalid, w.insts`ext
    modifies w.geos`invalid, w.geos`ext, w.layers`invalid, w.layers`ext
    ensures inst.pos == pos && EXTENTS in inst.invalid
    ensures EXTENTS !in inst.parent.invalid && inst.parent.ext == old(inst.parent.ext)
    ensures RightIffInside(ContentOf(w'), rank, inst, inst.parent.ext)
  {
    hide *;
    PlaceAndUpdate(inst, pos, w', rank, k, s);
  }

  method PlaceAndUpdate(inst: Inst, pos: Vec2, ghost w: World, ghost rank: map<Cell, nat>, ghost k: Content, ghost s: Caches)
    requires CoherentValues(k, s, GeoSnap(w)) && InstAdded(k, s, ContentOf(w), Snap(w), inst)
    requires inst.parent in w.cells && inst.cell in w.cells && inst in w.insts && EXTENTS in inst.invalid && EXTENTS !in inst.parent.invalid
    modifies inst`pos, inst`orientation, w.cells`invalid, w.cells`ext, w.insts`invalid, w.insts`ext
    modifies w.geos`invalid, w.geos`ext, w.layers`invalid, w.layers`ext
    ensures inst.pos == pos && EXTENTS in inst.invalid
    ensures EXTENTS !in inst.parent.invalid && inst.parent.ext == old(inst.parent.ext)
    ensures RightIffInside(ContentOf(w), rank, inst, inst.parent.ext)
  {
    ghost var k', s' := ContentOf(w), Snap(w);
    var into := inst.parent;
    assert s'.cells[into] == CellCache(into) && s'.insts[inst] == InstCache(inst);
    ghost var d := InstData(inst.orientation, pos);
    NewStays(k, s, k', s', k'.(insts := k'.insts[inst := d]), inst, d);
    InstAddedWf(k, s, k', s', inst);
    MoveNew(inst, pos, w, k');
    ghost var k'' := ContentOf(w);
    SameGeosOk(k, k'', GeoSnap(w));
    assert k''.insts[inst] == InstDataOf(inst);
    UpdateClean(into, w, k'', rank);
    assert Snap(w).cells[into] == CellCache(into) && Snap(w).insts[inst] == InstCache(inst);
    assert k''.insts[inst] == InstDataOf(inst);
    StaleIff(k, s, k'', inst, rank);
  }

  lemma {:induction false} StaleIff(k: Content, s: Caches, k': Content, inst: Inst, rank: map<Cell, nat>)
    requires Wf(k) && Wf(k') && AllOk(PlanOf(k), s) && Grown(k, k', inst) && inst.parent in s.cells && s.cells[inst.parent].clean
    requires inst in k'.insts
    ensures RightIffInside(k', rank, inst, s.cells[inst.parent].ext)
  {
    var p, p' := PlanOf(k), PlanOf(k');
    PlanIsPlan(k);
    PlanIsPlan(k');
    GrownPlan(k, p, k', p', inst);
    if Ranked(p', rank) {
      CleanParentIff(p, s, p', inst, rank);
      assert InstPlanned(k', p', inst);
    }
  }
}
