/** Editing a design between updates: every edit dirties what it touches and everything
    above, so the extents caches stay coherent over any run of edits and updates. */
module Edits {
  import opened Marks
  import opened Extents
  import opened Design
  import opened Placement
  import opened Invalidation
  import opened GeometryUpdate
  import opened ExtentsCache
  import opened ExtentsUpdate

  /** The invariant of every run. */
  ghost predicate Coherent(w: World)
    reads w.cells`insts, w.cells`uses, w.cells`pins, w.cells`origin, w.insts`orientation, w.insts`pos
    reads w.geos`cell, w.geos`layers, w.layers`lines, w.layers`shapes
    reads w.geos`invalid, w.geos`ext, w.layers`invalid, w.layers`ext
    reads w.cells`invalid, w.cells`ext, w.insts`invalid, w.insts`ext
  {
    CoherentValues(ContentOf(w), Snap(w), GeoSnap(w))
  }

  ghost predicate CoherentValues(k: Content, s: Caches, g: GeoCaches) {
    Wf(k) && AllOk(PlanOf(k), s) && GeosOk(k, g)
  }

  /** The extents of a cell by recursion over the design, with no cache read. */
  ghost function ScratchExtents(k: Content, rank: map<Cell, nat>, c: Cell): Box
    requires Wf(k) && Ranked(PlanOf(k), rank) && c in k.cells
  {
    Scratch(PlanOf(k), rank, c)
  }

  /** phx_cell_update for the extents, on an acyclic design: whatever edits and updates
      came before, the cell ends up with the extents that the uncached recursion gives. */
  method UpdateExtents(cell: Cell, ghost w: World, ghost rank: map<Cell, nat>)
    requires Coherent(w) && cell in w.cells && Ranked(PlanOf(ContentOf(w)), rank)
    modifies w.cells`invalid, w.cells`ext, w.insts`invalid, w.insts`ext
    modifies w.geos`invalid, w.geos`ext, w.layers`invalid, w.layers`ext
    ensures Coherent(w) && ContentOf(w) == old(ContentOf(w))
    ensures cell.ext == ScratchExtents(ContentOf(w), rank, cell)
    ensures OtherBits(w, EXTENTS) == old(OtherBits(w, EXTENTS))
  {
    ghost var k, s := ContentOf(w), Snap(w);
    ghost var p := PlanOf(k);
    PlanIsPlan(k);
    UpdateCell(cell, w, k, p, rank);
    RefreshedKeepsAllOk(p, rank, s, Snap(w), cell);
    CoherentIsScratch(p, Snap(w), rank, cell);
    assert Snap(w).cells[cell] == CellCache(cell);
  }

  // --- What an edit has to show --------------------------------------------

  // The geometry covers the same corners as before.
  ghost predicate KeepsBox(k: Content, k': Content, g: Geometry) {
    Layered(k, g) && Layered(k', g) && GeoBox(k', g) == GeoBox(k, g)
  }

  ghost predicate KeepsPins(k: Content, k': Content, c: Cell)
    requires c in k.cells && c in k'.cells
  {
    var pins, pins' := k.cells[c].pins, k'.cells[c].pins;
    && pins <= pins'
    && (forall n :: 0 <= n < |pins| ==> KeepsBox(k, k', pins[n].geo))
    && (forall n :: |pins| <= n < |pins'| ==> Layered(k', pins'[n].geo) && GeoBox(k', pins'[n].geo) == RESET)
  }

  ghost predicate CellLeft(k: Content, s: Caches, k': Content, s': Caches, c: Cell)
    requires c in s'.cells && c in k'.cells
  {
    s'.cells[c].clean ==>
      && c in k.cells && c in s.cells && s'.cells[c] == s.cells[c]
      && k'.cells[c].insts == k.cells[c].insts && KeepsBox(k, k', c.geo) && KeepsPins(k, k', c)
  }

  ghost predicate InstLeft(k: Content, s: Caches, k': Content, s': Caches, i: Inst)
    requires i in s'.insts && i in k'.insts
  {
    s'.insts[i].clean ==>
      && i in k.insts && i in s.insts && s'.insts[i] == s.insts[i] && k'.insts[i] == k.insts[i]
      && i.cell in k.cells && i.cell in k'.cells && k'.cells[i.cell].origin == k.cells[i.cell].origin
  }

  ghost predicate PartsLeft(k: Content, s: Caches, k': Content, s': Caches) {
    && s'.cells.Keys == k'.cells.Keys && s'.insts.Keys == k'.insts.Keys
    && (forall c {:trigger CellLeft(k, s, k', s', c)} :: c in k'.cells ==> CellLeft(k, s, k', s', c))
    && (forall i {:trigger InstLeft(k, s, k', s', i)} :: i in k'.insts ==> InstLeft(k, s, k', s', i))
  }

  lemma {:induction false} LeftIsEdited(k: Content, p: Plan, s: Caches, k': Content, p': Plan, s': Caches, c: Cell)
    requires Wf(k) && Wf(k') && Fits(p, s) && Fits(p', s')
    requires c in k'.cells && CellPlanned(k', p', c) && CellLeft(k, s, k', s', c)
    requires c in k.cells ==> CellPlanned(k, p, c)
    ensures CellEdited(p, s, p', s', c)
  {
    if s'.cells[c].clean {
      var n := |p.pins[c]|;
      forall j | 0 <= j < |p'.pins[c]| ensures p'.pins[c][j] == if j < n then p.pins[c][j] else RESET {
        assert j < n ==> KeepsBox(k, k', k.cells[c].pins[j].geo);
      }
      assert p'.pins[c][..n] == p.pins[c];
    }
  }

  lemma {:induction false} EditedIsOk(k: Content, p: Plan, s: Caches, k': Content, p': Plan, s': Caches)
    requires IsPlan(k, p) && IsPlan(k', p') && AllOk(p, s) && Grounded(p', s') && PartsLeft(k, s, k', s')
    ensures AllOk(p', s')
  {
    forall c {:trigger CellEdited(p, s, p', s', c)} | c in p'.own ensures CellEdited(p, s, p', s', c) {
      assert CellLeft(k, s, k', s', c) && CellPlanned(k', p', c);
      assert c in k.cells ==> CellPlanned(k, p, c);
      LeftIsEdited(k, p, s, k', p', s', c);
    }
    forall i {:trigger InstEdited(p, s, p', s', i)} | i in p'.spots ensures InstEdited(p, s, p', s', i) {
      assert InstLeft(k, s, k', s', i) && InstPlanned(k', p', i);
      assert s'.insts[i].clean ==> InstPlanned(k, p, i);
    }
    EditKeepsOk(p, s, p', s');
  }

  // --- Dirtying ------------------------------------------------------------

  // Entries have been dirtied, nothing else.
  ghost predicate Dirtied(s: Caches, s': Caches) {
    && s'.cells.Keys == s.cells.Keys && s'.insts.Keys == s.insts.Keys
    && (forall c {:trigger s'.cells[c]} :: c in s.cells ==> s'.cells[c].ext == s.cells[c].ext && (s'.cells[c].clean ==> s.cells[c].clean))
    && (forall i {:trigger s'.insts[i]} :: i in s.insts ==> s'.insts[i].ext == s.insts[i].ext && (s'.insts[i].clean ==> s.insts[i].clean))
  }

  // The caches as marks on the graph.
  ghost predicate Marked(s: Caches, m: map<Node, set<Bit>>) {
    && (forall c {:trigger s.cells[c]} :: c in s.cells ==> CellNode(c) in m && (s.cells[c].clean <==> EXTENTS !in m[CellNode(c)]))
    && (forall i {:trigger s.insts[i]} :: i in s.insts ==> InstNode(i) in m && (s.insts[i].clean <==> EXTENTS !in m[InstNode(i)]))
    && (forall n {:trigger m[n]} :: n in m ==> if n.CellNode? then n.cell in s.cells else n.inst in s.insts)
  }

  lemma {:induction false} SnapMarked(w: World)
    ensures Marked(Snap(w), Invalid(w))
  {
  }

  ghost function InstNodes(insts: seq<Inst>): (s: set<Node>)
    ensures forall n :: 0 <= n < |insts| ==> InstNode(insts[n]) in s
    ensures forall n :: n in s ==> n.InstNode? && n.inst in insts
  {
    set i | i in insts :: InstNode(i)
  }

  // The graph of a design, from its contents.
  ghost predicate GraphIs(k: Content, up: map<Node, set<Node>>) {
    && (forall n {:trigger n in up} :: n in up ==> if n.CellNode? then n.cell in k.cells else n.inst in k.insts)
    && (forall c {:trigger up[CellNode(c)]} :: c in k.cells ==> CellNode(c) in up && up[CellNode(c)] == InstNodes(k.cells[c].uses))
    && (forall i {:trigger up[InstNode(i)]} :: i in k.insts ==> InstNode(i) in up && up[InstNode(i)] == {CellNode(i.parent)})
  }

  lemma {:induction false} GraphOfContent(w: World)
    ensures GraphIs(ContentOf(w), Graph(w))
  {
    var k, up := ContentOf(w), Graph(w);
    forall c {:trigger up[CellNode(c)]} | c in k.cells
      ensures CellNode(c) in up && up[CellNode(c)] == InstNodes(k.cells[c].uses)
    {
      assert up[CellNode(c)] == Above(w, CellNode(c)) && k.cells[c] == CellDataOf(c);
    }
    forall i {:trigger up[InstNode(i)]} | i in k.insts ensures InstNode(i) in up && up[InstNode(i)] == {CellNode(i.parent)} {
      assert up[InstNode(i)] == Above(w, InstNode(i));
    }
  }

  lemma {:induction false} GroundedIsClosed(k: Content, p: Plan, s: Caches, up: map<Node, set<Node>>, m: map<Node, set<Bit>>)
    requires IsPlan(k, p) && GraphIs(k, up) && IsGraph(up) && m.Keys == up.Keys && Marked(s, m) && Grounded(p, s)
    ensures Closed(up, m, EXTENTS)
  {
    forall n, t | n in up && t in up[n] ensures EXTENTS in m[n] ==> EXTENTS in m[t] {
      match n
      case CellNode(c) =>
        assert CellPlanned(k, p, c) && t.InstNode? && t.inst.cell == c;
        assert s.insts[t.inst].clean ==> s.cells[c].clean;
      case InstNode(i) =>
        assert InstPlanned(k, p, i) && CellPlanned(k, p, i.parent) && i in p.insts[i.parent];
        assert s.cells[i.parent].clean ==> s.insts[i].clean;
    }
  }

  lemma {:induction false} ClosedIsGrounded(k: Content, p: Plan, s: Caches, up: map<Node, set<Node>>, m: map<Node, set<Bit>>)
    requires IsPlan(k, p) && GraphIs(k, up) && IsGraph(up) && m.Keys == up.Keys && Marked(s, m) && Fits(p, s)
    requires Closed(up, m, EXTENTS)
    ensures Grounded(p, s)
  {
    hide InstNodes;
    forall c {:trigger s.cells[c]} | c in p.own && s.cells[c].clean
      ensures forall n :: 0 <= n < |p.insts[c]| ==> s.insts[p.insts[c][n]].clean
    {
      forall n | 0 <= n < |p.insts[c]| ensures s.insts[p.insts[c][n]].clean {
        var i := p.insts[c][n];
        assert i in p.spots && i.parent == c;
        assert CellNode(c) in up[InstNode(i)];
      }
    }
    forall i {:trigger s.insts[i]} | i in p.spots && s.insts[i].clean ensures s.cells[i.cell].clean {
      assert InstPlanned(k, p, i) && InstNode(i) in up[CellNode(i.cell)];
    }
  }

  // Where clean cells have the instances they had, and clean instances are old, nothing is lost.
  lemma {:induction false} StaysGrounded(p: Plan, s: Caches, p': Plan, s': Caches)
    requires Grounded(p, s) && Fits(p', s')
    requires forall c {:trigger s'.cells[c]} :: c in p'.own && s'.cells[c].clean ==> c in p.own && s.cells[c].clean && p'.insts[c] == p.insts[c]
    requires forall c {:trigger s.cells[c]} :: c in p.own && s.cells[c].clean ==> c in p'.own && s'.cells[c].clean
    requires forall i {:trigger s'.insts[i]} :: i in p'.spots && s'.insts[i].clean ==> i in p.spots && s.insts[i].clean
    requires forall i {:trigger s.insts[i]} :: i in p.spots && s.insts[i].clean ==> i in p'.spots && s'.insts[i].clean
    ensures Grounded(p', s')
  {
  }

  lemma {:induction false} KeysOfGrounded(p: Plan, s: Caches)
    requires Grounded(p, s)
    ensures Fits(p, s)
  {
  }

  lemma {:induction false} OldInsts(k: Content, p: Plan, k': Content, p': Plan, c: Cell)
    requires IsPlan(k, p) && IsPlan(k', p') && c in k.cells && c in k'.cells && k'.cells[c].insts == k.cells[c].insts
    ensures p'.insts[c] == p.insts[c]
  {
    assert CellPlanned(k, p, c) && CellPlanned(k', p', c);
  }

  // What remains known when the walk starts: the marks are closed, the caches as given.
  ghost predicate Touchable(w: World, k: Content, p: Plan)
    reads w.cells`insts, w.cells`uses, w.cells`pins, w.cells`origin, w.insts`orientation, w.insts`pos
    reads w.geos`cell, w.geos`layers, w.layers`lines, w.layers`shapes
    reads w.cells`invalid, w.cells`ext, w.insts`invalid, w.insts`ext
  {
    ContentOf(w) == k && IsPlan(k, p) && Grounded(p, Snap(w))
  }

  lemma {:induction false} SpreadGrounds(k: Content, p: Plan, s: Caches, s': Caches, up: map<Node, set<Node>>,
                                         m: map<Node, set<Bit>>, m': map<Node, set<Bit>>, n: Node)
    requires IsPlan(k, p) && GraphIs(k, up) && IsGraph(up) && m.Keys == up.Keys && Marked(s, m) && Marked(s', m') && Grounded(p, s)
    requires Fits(p, s') && Spread(up, m, m', n, {EXTENTS}) && SameBoxes(s, s')
    ensures Grounded(p, s') && Dirtied(s, s') && EXTENTS in m'[n]
  {
    hide Fits, WfPlan, IsPlan, Add;
    GroundedIsClosed(k, p, s, up, m);
    SpreadIsReachability(up, m, m', n, {EXTENTS}, EXTENTS);
    ClosedIsGrounded(k, p, s', up, m');
    forall c {:trigger s'.cells[c]} | c in s.cells ensures s'.cells[c].clean ==> s.cells[c].clean {
      assert CellNode(c) in up && (EXTENTS in m[CellNode(c)] ==> EXTENTS in m'[CellNode(c)]);
    }
    forall i {:trigger s'.insts[i]} | i in s.insts ensures s'.insts[i].clean ==> s.insts[i].clean {
      assert InstNode(i) in up && (EXTENTS in m[InstNode(i)] ==> EXTENTS in m'[InstNode(i)]);
    }
  }

  ghost predicate SameBoxes(s: Caches, s': Caches) {
    && s'.cells.Keys == s.cells.Keys && s'.insts.Keys == s.insts.Keys
    && (forall c {:trigger s'.cells[c]} :: c in s.cells ==> s'.cells[c].ext == s.cells[c].ext)
    && (forall i {:trigger s'.insts[i]} :: i in s.insts ==> s'.insts[i].ext == s.insts[i].ext)
  }

  ghost function CellBoxes(cells: set<Cell>): (m: map<Cell, Box>)
    reads cells`ext
    ensures m.Keys == cells && forall c {:trigger m[c]} :: c in cells ==> m[c] == c.ext
  {
    map c | c in cells :: c.ext
  }

  ghost function InstBoxes(insts: set<Inst>): (m: map<Inst, Box>)
    reads insts`ext
    ensures m.Keys == insts && forall i {:trigger m[i]} :: i in insts ==> m[i] == i.ext
  {
    map i | i in insts :: i.ext
  }

  ghost predicate BoxesAre(s: Caches, cells: map<Cell, Box>, insts: map<Inst, Box>) {
    && s.cells.Keys == cells.Keys && s.insts.Keys == insts.Keys
    && (forall c {:trigger s.cells[c]} :: c in s.cells ==> s.cells[c].ext == cells[c])
    && (forall i {:trigger s.insts[i]} :: i in s.insts ==> s.insts[i].ext == insts[i])
  }

  lemma {:induction false} SnapBoxes(w: World)
    ensures BoxesAre(Snap(w), CellBoxes(w.cells), InstBoxes(w.insts))
  {
  }

  lemma {:induction false} SameBoxesFrom(s: Caches, s': Caches, cells: map<Cell, Box>, insts: map<Inst, Box>)
    requires BoxesAre(s, cells, insts) && BoxesAre(s', cells, insts)
    ensures SameBoxes(s, s')
  {
  }

  // The invalidation moves no content and no box; one thing that stays is added at a time.
  method FlagCell(cell: Cell, ghost w: World, ghost up: map<Node, set<Node>>)
    requires up == Graph(w) && IsGraph(up) && cell in w.cells
    modifies w.cells`invalid, w.insts`invalid
    ensures Spread(up, old(Invalid(w)), Invalid(w), CellNode(cell), {EXTENTS}) && ContentOf(w) == old(ContentOf(w))
  {
    InvalidateCell(cell, {EXTENTS}, w, up);
  }

  method MarkCell(cell: Cell, ghost w: World, ghost up: map<Node, set<Node>>)
    requires up == Graph(w) && IsGraph(up) && cell in w.cells
    modifies w.cells`invalid, w.insts`invalid
    ensures Spread(up, old(Invalid(w)), Invalid(w), CellNode(cell), {EXTENTS}) && ContentOf(w) == old(ContentOf(w))
    ensures CellBoxes(w.cells) == old(CellBoxes(w.cells)) && InstBoxes(w.insts) == old(InstBoxes(w.insts))
  {
    hide *;
    FlagCell(cell, w, up);
  }

  method HoldCell(cell: Cell, ghost w: World, ghost up: map<Node, set<Node>>)
    requires up == Graph(w) && IsGraph(up) && cell in w.cells
    modifies w.cells`invalid, w.insts`invalid
    ensures Spread(up, old(Invalid(w)), Invalid(w), CellNode(cell), {EXTENTS}) && ContentOf(w) == old(ContentOf(w))
    ensures CellBoxes(w.cells) == old(CellBoxes(w.cells)) && InstBoxes(w.insts) == old(InstBoxes(w.insts))
    ensures GeoSnap(w) == old(GeoSnap(w))
  {
    MarkCell(cell, w, up);
  }

  method SpreadCell(cell: Cell, ghost w: World, ghost up: map<Node, set<Node>>)
    requires up == Graph(w) && IsGraph(up) && cell in w.cells
    modifies w.cells`invalid, w.insts`invalid
    ensures Spread(up, old(Invalid(w)), Invalid(w), CellNode(cell), {EXTENTS}) && ContentOf(w) == old(ContentOf(w))
    ensures GeoSnap(w) == old(GeoSnap(w)) && SameBoxes(old(Snap(w)), Snap(w))
  {
    ghost var s, cells, insts := Snap(w), CellBoxes(w.cells), InstBoxes(w.insts);
    SnapBoxes(w);
    HoldCell(cell, w, up);
    SnapBoxes(w);
    SameBoxesFrom(s, Snap(w), cells, insts);
  }

  method TouchCell(cell: Cell, ghost w: World, ghost k: Content, ghost p: Plan)
    requires Touchable(w, k, p) && cell in w.cells
    modifies w.cells`invalid, w.insts`invalid
    ensures Touchable(w, k, p) && Dirtied(old(Snap(w)), Snap(w)) && !Snap(w).cells[cell].clean
    ensures GeoSnap(w) == old(GeoSnap(w))
  {
    hide Marked, Closed;
    ghost var s, m, up := Snap(w), Invalid(w), Graph(w);
    GraphOfContent(w);
    WfGraph(w);
    SnapMarked(w);
    SpreadCell(cell, w, up);
    SnapMarked(w);
    SpreadGrounds(k, p, s, Snap(w), up, m, Invalid(w), CellNode(cell));
  }

  // The invalidation moves no content and no box; one thing that stays is added at a time.
  method FlagInst(inst: Inst, ghost w: World, ghost up: map<Node, set<Node>>)
    requires up == Graph(w) && IsGraph(up) && inst in w.insts
    modifies w.cells`invalid, w.insts`invalid
    ensures Spread(up, old(Invalid(w)), Invalid(w), InstNode(inst), {EXTENTS}) && ContentOf(w) == old(ContentOf(w))
    ensures EXTENTS in old(inst.invalid) ==> Invalid(w) == old(Invalid(w))
  {
    hide *;
    InvalidateInst(inst, {EXTENTS}, w, up);
  }

  method MarkInst(inst: Inst, ghost w: World, ghost up: map<Node, set<Node>>)
    requires up == Graph(w) && IsGraph(up) && inst in w.insts
    modifies w.cells`invalid, w.insts`invalid
    ensures Spread(up, old(Invalid(w)), Invalid(w), InstNode(inst), {EXTENTS}) && ContentOf(w) == old(ContentOf(w))
    ensures CellBoxes(w.cells) == old(CellBoxes(w.cells)) && InstBoxes(w.insts) == old(InstBoxes(w.insts))
    ensures EXTENTS in old(inst.invalid) ==> Invalid(w) == old(Invalid(w))
  {
    hide *;
    FlagInst(inst, w, up);
  }

  method HoldInst(inst: Inst, ghost w: World, ghost up: map<Node, set<Node>>)
    requires up == Graph(w) && IsGraph(up) && inst in w.insts
    modifies w.cells`invalid, w.insts`invalid
    ensures Spread(up, old(Invalid(w)), Invalid(w), InstNode(inst), {EXTENTS}) && ContentOf(w) == old(ContentOf(w))
    ensures CellBoxes(w.cells) == old(CellBoxes(w.cells)) && InstBoxes(w.insts) == old(InstBoxes(w.insts))
    ensures GeoSnap(w) == old(GeoSnap(w))
    ensures EXTENTS in old(inst.invalid) ==> Invalid(w) == old(Invalid(w))
  {
    hide *;
    MarkInst(inst, w, up);
  }

  // The same marks and boxes are the same caches.
  lemma {:induction false} SameSnap(s: Caches, s': Caches, m: map<Node, set<Bit>>)
    requires SameBoxes(s, s') && Marked(s, m) && Marked(s', m)
    ensures s == s'
  {
    forall c {:trigger s'.cells[c]} | c in s.cells ensures s'.cells[c] == s.cells[c] {
    }
    forall i {:trigger s'.insts[i]} | i in s.insts ensures s'.insts[i] == s.insts[i] {
    }
  }

  method SpreadInst(inst: Inst, ghost w: World, ghost up: map<Node, set<Node>>)
    requires up == Graph(w) && IsGraph(up) && inst in w.insts
    modifies w.cells`invalid, w.insts`invalid
    ensures Spread(up, old(Invalid(w)), Invalid(w), InstNode(inst), {EXTENTS}) && ContentOf(w) == old(ContentOf(w))
    ensures GeoSnap(w) == old(GeoSnap(w)) && SameBoxes(old(Snap(w)), Snap(w))
    ensures EXTENTS in old(inst.invalid) ==> Snap(w) == old(Snap(w))
  {
    ghost var s, cells, insts := Snap(w), CellBoxes(w.cells), InstBoxes(w.insts);
    ghost var m := Invalid(w);
    SnapMarked(w);
    SnapBoxes(w);
    HoldInst(inst, w, up);
    SnapBoxes(w);
    SameBoxesFrom(s, Snap(w), cells, insts);
    SnapMarked(w);
    if Invalid(w) == m {
      SameSnap(s, Snap(w), m);
    }
  }

  method TouchInst(inst: Inst, ghost w: World, ghost k: Content, ghost p: Plan)
    requires Touchable(w, k, p) && inst in w.insts
    modifies w.cells`invalid, w.insts`invalid
    ensures Touchable(w, k, p) && Dirtied(old(Snap(w)), Snap(w)) && !Snap(w).insts[inst].clean
    ensures GeoSnap(w) == old(GeoSnap(w))
  {
    hide Wf, WfPlan;
    ghost var s, m, up := Snap(w), Invalid(w), Graph(w);
    GraphOfContent(w);
    WfGraph(w);
    SnapMarked(w);
    SpreadInst(inst, w, up);
    SnapMarked(w);
    SpreadGrounds(k, p, s, Snap(w), up, m, Invalid(w), InstNode(inst));
  }
}
