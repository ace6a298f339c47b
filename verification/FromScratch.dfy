/** What extents from scratch are: the least box around what a cell draws, its pins and its
    instances. */
module FromScratch {
  import opened Extents
  import opened Design
  import opened Placement
  import opened GeometryUpdate
  import opened ExtentsCache
  import opened ExtentsUpdate

  // --- Drawings ------------------------------------------------------------

  /** The square with the line's width around each of its points is in the box. */
  predicate LineInside(b: Box, l: Line) {
    forall i :: 0 <= i < |l.pts| ==>
      && Contains(b, Vec2(l.pts[i].x - l.width / 2.0, l.pts[i].y - l.width / 2.0))
      && Contains(b, Vec2(l.pts[i].x + l.width / 2.0, l.pts[i].y + l.width / 2.0))
  }

  predicate ShapeInside(b: Box, s: Shape) {
    forall i :: 0 <= i < |s.pts| ==> Contains(b, s.pts[i])
  }

  predicate LayerInside(b: Box, d: LayerData) {
    && (forall j :: 0 <= j < |d.lines| ==> LineInside(b, d.lines[j]))
    && (forall j :: 0 <= j < |d.shapes| ==> ShapeInside(b, d.shapes[j]))
  }

  lemma {:induction false} ContainsConcat(b: Box, x: seq<Vec2>, y: seq<Vec2>)
    ensures ContainsAll(b, x + y) <==> ContainsAll(b, x) && ContainsAll(b, y)
  {
    if ContainsAll(b, x + y) {
      forall i | 0 <= i < |x| ensures Contains(b, x[i]) {
        assert (x + y)[i] == x[i];
      }
      forall i | 0 <= i < |y| ensures Contains(b, y[i]) {
        assert (x + y)[|x| + i] == y[i];
      }
    }
  }

  lemma {:induction false} WidenedInside(b: Box, l: Line, n: nat)
    requires n <= |l.pts|
    ensures ContainsAll(b, Widened(l.pts[..n], l.width / 2.0)) <==> LineInside(b, Line(l.width, l.pts[..n]))
  {
    hide Contains;
    if n > 0 {
      var hw, p := l.width / 2.0, l.pts[n - 1];
      WidenedInside(b, l, n - 1);
      assert l.pts[..n][..n - 1] == l.pts[..n - 1];
      var corners := [Vec2(p.x - hw, p.y - hw), Vec2(p.x + hw, p.y + hw)];
      ContainsConcat(b, Widened(l.pts[..n - 1], hw), corners);
      assert ContainsAll(b, corners) <==> Contains(b, corners[0]) && Contains(b, corners[1]);
      LineSnoc(b, l, n);
    }
  }

  lemma {:induction false} LineSnoc(b: Box, l: Line, n: nat)
    requires 0 < n <= |l.pts|
    ensures LineInside(b, Line(l.width, l.pts[..n])) <==>
            LineInside(b, Line(l.width, l.pts[..n - 1]))
            && Contains(b, Vec2(l.pts[n - 1].x - l.width / 2.0, l.pts[n - 1].y - l.width / 2.0))
            && Contains(b, Vec2(l.pts[n - 1].x + l.width / 2.0, l.pts[n - 1].y + l.width / 2.0))
  {
    hide Contains;
    assert forall i :: 0 <= i < n - 1 ==> l.pts[..n][i] == l.pts[..n - 1][i];
    assert l.pts[..n][n - 1] == l.pts[n - 1];
  }

  lemma {:induction false} WholeLineInside(b: Box, l: Line)
    ensures ContainsAll(b, Widened(l.pts, l.width / 2.0)) <==> LineInside(b, l)
  {
    WidenedInside(b, l, |l.pts|);
    assert l.pts[..|l.pts|] == l.pts;
  }

  lemma {:induction false} LinesInside(b: Box, lines: seq<Line>)
    ensures ContainsAll(b, LinePoints(lines)) <==> forall j :: 0 <= j < |lines| ==> LineInside(b, lines[j])
  {
    if lines != [] {
      hide Contains, ContainsAll, LineInside, Widened, LinePoints;
      var n := |lines| - 1;
      LinesInside(b, lines[..n]);
      LinesStep(lines, n);
      assert lines[..n + 1] == lines;
      ContainsConcat(b, LinePoints(lines[..n]), Widened(lines[n].pts, lines[n].width / 2.0));
      WholeLineInside(b, lines[n]);
      assert forall j :: 0 <= j < n ==> lines[..n][j] == lines[j];
    }
  }

  lemma {:induction false} ShapesInside(b: Box, shapes: seq<Shape>)
    ensures ContainsAll(b, ShapePoints(shapes)) <==> forall j :: 0 <= j < |shapes| ==> ShapeInside(b, shapes[j])
  {
    hide Contains;
    if shapes != [] {
      var n := |shapes| - 1;
      ShapesInside(b, shapes[..n]);
      ContainsConcat(b, ShapePoints(shapes[..n]), shapes[n].pts);
      assert forall j :: 0 <= j < n ==> shapes[..n][j] == shapes[j];
    }
  }

  lemma {:induction false} ConcatInside(b: Box, lists: seq<seq<Vec2>>)
    ensures ContainsAll(b, Concat(lists)) <==> forall n :: 0 <= n < |lists| ==> ContainsAll(b, lists[n])
  {
    if lists != [] {
      var n := |lists| - 1;
      ConcatInside(b, lists[..n]);
      ContainsConcat(b, Concat(lists[..n]), lists[n]);
      assert forall j :: 0 <= j < n ==> lists[..n][j] == lists[j];
    }
  }

  /** A geometry's box is the least one around the points of the shapes and the widened lines in its
      layers: the boxes that contain it are those that contain all of them. */
  lemma {:induction false} GeoBoxIsLeast(k: Content, g: Geometry, b: Box)
    requires Layered(k, g)
    ensures Within(GeoBox(k, g), b) <==> forall n :: 0 <= n < |k.geos[g].layers| ==> LayerInside(b, k.layers[k.geos[g].layers[n]])
  {
    hide LineInside, ShapeInside, Within, ContainsAll;
    var ls := k.geos[g].layers;
    var lists := PointLists(k, ls);
    HullIsLeast(Concat(lists), b);
    ConcatInside(b, lists);
    forall n | 0 <= n < |ls| ensures ContainsAll(b, lists[n]) <==> LayerInside(b, k.layers[ls[n]]) {
      var d := k.layers[ls[n]];
      ContainsConcat(b, LinePoints(d.lines), ShapePoints(d.shapes));
      LinesInside(b, d.lines);
      ShapesInside(b, d.shapes);
    }
  }

  // --- Cells ---------------------------------------------------------------

  lemma {:induction false} IncludeIsLeast(a: Box, o: Box, b: Box)
    ensures Within(Include(a, o), b) <==> Within(a, b) && Within(o, b)
  {
  }

  lemma {:induction false} IncludeAllIsLeast(a: Box, bs: seq<Box>, b: Box)
    ensures Within(IncludeAll(a, bs), b) <==> Within(a, b) && forall n :: 0 <= n < |bs| ==> Within(bs[n], b)
  {
    hide Within, Include;
    if bs != [] {
      var n := |bs| - 1;
      IncludeAllIsLeast(a, bs[..n], b);
      IncludeIsLeast(IncludeAll(a, bs[..n]), bs[n], b);
      assert forall j :: 0 <= j < n ==> bs[..n][j] == bs[j];
    }
  }

  lemma {:induction false} ScratchInst(p: Plan, rank: map<Cell, nat>, c: Cell, n: nat, j: nat)
    requires Ranked(p, rank) && c in p.own && j < n <= |p.insts[c]|
    ensures var i := p.insts[c][j]; ScratchInsts(p, rank, c, n)[j] == BoxToParent(p.spots[i], Scratch(p, rank, i.cell))
    decreases n
  {
    if j < n - 1 {
      ScratchInst(p, rank, c, n - 1, j);
    }
  }

  lemma {:induction false} PlannedIsLeast(p: Plan, rank: map<Cell, nat>, c: Cell, b: Box)
    requires Ranked(p, rank) && c in p.own
    ensures Within(Scratch(p, rank, c), b) <==>
            && Within(p.own[c], b)
            && (forall n :: 0 <= n < |p.pins[c]| ==> Within(p.pins[c][n], b))
            && (forall n :: 0 <= n < |p.insts[c]| ==> Within(BoxToParent(p.spots[p.insts[c][n]], Scratch(p, rank, p.insts[c][n].cell)), b))
  {
    hide Within, Include, IncludeAll;
    var bs := ScratchInsts(p, rank, c, |p.insts[c]|);
    IncludeIsLeast(RESET, p.own[c], b);
    ResetWithin(b);
    IncludeAllIsLeast(Include(RESET, p.own[c]), bs, b);
    IncludeAllIsLeast(IncludeAll(Include(RESET, p.own[c]), bs), p.pins[c], b);
    forall n | 0 <= n < |p.insts[c]| ensures bs[n] == BoxToParent(p.spots[p.insts[c][n]], Scratch(p, rank, p.insts[c][n].cell)) {
      ScratchInst(p, rank, c, |p.insts[c]|, n);
    }
  }

  lemma {:induction false} ResetWithin(b: Box)
    ensures Within(RESET, b)
  {
  }

  // The content of a cell is well formed.
  lemma {:induction false} CellParts(k: Content, c: Cell)
    requires Wf(k) && c in k.cells
    ensures Layered(k, c.geo) && forall n :: 0 <= n < |k.cells[c].pins| ==> Layered(k, k.cells[c].pins[n].geo)
    ensures forall n :: 0 <= n < |k.cells[c].insts| ==> k.cells[c].insts[n] in k.insts && k.cells[c].insts[n].cell in k.cells
  {
    assert WfCell(k, c) && OwnBox(k, c) == OwnBox(k, c) && PinBoxes(k, c) == PinBoxes(k, c);
    forall n | 0 <= n < |k.cells[c].insts| ensures k.cells[c].insts[n] in k.insts && k.cells[c].insts[n].cell in k.cells {
      assert WfInst(k, k.cells[c].insts[n]);
    }
  }

  /** The extents of a cell are the least box around its geometry, the geometries of its pins, and its
      instances' boxes: the boxes that contain it are those that contain all of them. */
  lemma {:induction false} ScratchIsLeast(k: Content, rank: map<Cell, nat>, c: Cell, b: Box)
    requires Wf(k) && Ranked(PlanOf(k), rank) && c in k.cells
    ensures Layered(k, c.geo) && forall n :: 0 <= n < |k.cells[c].pins| ==> Layered(k, k.cells[c].pins[n].geo)
    ensures forall n :: 0 <= n < |k.cells[c].insts| ==> k.cells[c].insts[n] in k.insts && k.cells[c].insts[n].cell in k.cells
    ensures Within(Scratch(PlanOf(k), rank, c), b) <==>
            && Within(GeoBox(k, c.geo), b)
            && (forall n :: 0 <= n < |k.cells[c].pins| ==> Within(GeoBox(k, k.cells[c].pins[n].geo), b))
            && (forall n :: 0 <= n < |k.cells[c].insts| ==>
                  var i := k.cells[c].insts[n];
                  Within(BoxToParent(Spot(k.insts[i].orientation, k.insts[i].pos, k.cells[i.cell].origin), Scratch(PlanOf(k), rank, i.cell)), b))
  {
    hide Within, Scratch, BoxToParent, GeoBox, Wf, Ranked;
    var p := PlanOf(k);
    CellParts(k, c);
    PlannedIsLeast(p, rank, c, b);
    assert p.own[c] == OwnBox(k, c) && p.pins[c] == PinBoxes(k, c) && p.insts[c] == k.cells[c].insts;
    assert forall i :: i in k.insts ==> p.spots[i] == SpotIn(k, i);
  }
}
