/** Invalidation: flags travel from a cell to the instances that use it, from an
    instance to its parent cell, and stop where all the bits are set already. */
module Invalidation {
  import opened Marks
  import opened Extents
  import opened Design

  // Setting the bits of one object.
  method MarkCell(cell: Cell, bits: set<Bit>, ghost w: World)
    requires cell in w.cells
    modifies cell`invalid
    ensures Invalid(w) == old(Invalid(w))[CellNode(cell) := old(cell.invalid) + bits]
  {
    cell.invalid := cell.invalid + bits;
  }

  method MarkInst(inst: Inst, bits: set<Bit>, ghost w: World)
    requires inst in w.insts
    modifies inst`invalid
    ensures Invalid(w) == old(Invalid(w))[InstNode(inst) := old(inst.invalid) + bits]
  {
    inst.invalid := inst.invalid + bits;
  }

  // The first u users have all the bits.
  ghost predicate Visited(cell: Cell, m: map<Node, set<Bit>>, bits: set<Bit>, u: nat)
    reads cell`uses
  {
    u <= |cell.uses| && forall k :: 0 <= k < u ==> InstNode(cell.uses[k]) in m && bits <= m[InstNode(cell.uses[k])]
  }

  /** phx_cell_invalidate.  Terminates on every graph, cyclic ones included: each call
      that goes on removes one node from those with a clear bit. */
  method InvalidateCell(cell: Cell, bits: set<Bit>, ghost w: World, ghost up: map<Node, set<Node>>)
    requires up == Graph(w) && IsGraph(up) && cell in w.cells
    modifies w.cells`invalid, w.insts`invalid
    ensures Spread(up, old(Invalid(w)), Invalid(w), CellNode(cell), bits)
    ensures bits <= old(cell.invalid) ==> Invalid(w) == old(Invalid(w))
    decreases Clear(Invalid(w), bits), 0
  {
    ghost var m, c := Invalid(w), CellNode(cell);
    if bits <= cell.invalid {
      SpreadNothing(up, m, c, bits);
      return;
    }
    MarkCell(cell, bits, w);
    MarkingStart(up, m, Invalid(w), c, bits);
    var u := 0;
    while u < |cell.uses|
      invariant u <= |cell.uses|
      invariant Marking(up, m, Invalid(w), c, bits, {c}) && Visited(cell, Invalid(w), bits, u)
      invariant Clear(Invalid(w), bits) < Clear(m, bits)
    {
      InvalidateUser(cell, u, bits, w, up, m);
      u := u + 1;
    }
    UsersVisited(cell, Invalid(w), bits, w);
    MarkingDone(up, m, Invalid(w), c, bits);
  }

  lemma {:induction false} UsersVisited(cell: Cell, m: map<Node, set<Bit>>, bits: set<Bit>, w: World)
    requires Visited(cell, m, bits, |cell.uses|) && cell in w.cells
    ensures forall s :: s in Graph(w)[CellNode(cell)] ==> s in m && bits <= m[s]
  {
    assert Graph(w)[CellNode(cell)] == Above(w, CellNode(cell));
  }

  // One turn of the loop over the users of a cell.
  method InvalidateUser(cell: Cell, u: nat, bits: set<Bit>, ghost w: World, ghost up: map<Node, set<Node>>, ghost m: map<Node, set<Bit>>)
    requires up == Graph(w) && IsGraph(up) && cell in w.cells && u < |cell.uses|
    requires Marking(up, m, Invalid(w), CellNode(cell), bits, {CellNode(cell)}) && Visited(cell, Invalid(w), bits, u)
    modifies w.cells`invalid, w.insts`invalid
    ensures Marking(up, m, Invalid(w), CellNode(cell), bits, {CellNode(cell)}) && Visited(cell, Invalid(w), bits, u + 1)
    ensures Clear(Invalid(w), bits) <= old(Clear(Invalid(w), bits))
    decreases Clear(Invalid(w), bits), 1
  {
    ghost var m' := Invalid(w);
    assert InstNode(cell.uses[u]) in Above(w, CellNode(cell));
    InvalidateInst(cell.uses[u], bits, w, up);
    UserVisited(cell, u, bits, up, m, m', Invalid(w));
  }

  lemma {:induction false} UserVisited(cell: Cell, u: nat, bits: set<Bit>, up: map<Node, set<Node>>,
                                       m: map<Node, set<Bit>>, m': map<Node, set<Bit>>, m'': map<Node, set<Bit>>)
    requires Marking(up, m, m', CellNode(cell), bits, {CellNode(cell)}) && Visited(cell, m', bits, u)
    requires u < |cell.uses| && InstNode(cell.uses[u]) in up[CellNode(cell)]
    requires Spread(up, m', m'', InstNode(cell.uses[u]), bits)
    ensures Marking(up, m, m'', CellNode(cell), bits, {CellNode(cell)}) && Visited(cell, m'', bits, u + 1)
    ensures Clear(m'', bits) <= Clear(m', bits)
  {
    var s := InstNode(cell.uses[u]);
    MarkingStep(up, m, m', m'', CellNode(cell), s, bits);
    MarkingClears(up, m', m'', s, bits, {});
  }

  /** phx_inst_invalidate. */
  method InvalidateInst(inst: Inst, bits: set<Bit>, ghost w: World, ghost up: map<Node, set<Node>>)
    requires up == Graph(w) && IsGraph(up) && inst in w.insts
    modifies w.cells`invalid, w.insts`invalid
    ensures Spread(up, old(Invalid(w)), Invalid(w), InstNode(inst), bits)
    ensures bits <= old(inst.invalid) ==> Invalid(w) == old(Invalid(w))
    decreases Clear(Invalid(w), bits), 0
  {
    ghost var m, c := Invalid(w), InstNode(inst);
    if bits <= inst.invalid {
      SpreadNothing(up, m, c, bits);
      return;
    }
    MarkInst(inst, bits, w);
    MarkingStart(up, m, Invalid(w), c, bits);
    ghost var m' := Invalid(w);
    assert up[c] == Above(w, c) == {CellNode(inst.parent)};
    InvalidateCell(inst.parent, bits, w, up);
    MarkingStep(up, m, m', Invalid(w), c, CellNode(inst.parent), bits);
    MarkingDone(up, m, Invalid(w), c, bits);
  }
}
