/** The cached extents of a hierarchy, as values: when the caches are coherent, what a
    recursive update may do to them, and why coherent caches agree with the recursion
    that uses no cache. */
module ExtentsCache {
  import opened Extents
  import opened Design
  import opened Placement
  import opened GeometryUpdate

  /** The cache entries of all cells and instances. */
  datatype Caches = Caches(cells: map<Cell, Cache>, insts: map<Inst, Cache>)

  /** What the extents depend on and an update leaves alone: the boxes of the cells' own
      geometries and pins, their instances, and where those are placed. */
  datatype Plan = Plan(own: map<Cell, Box>, pins: map<Cell, seq<Box>>, insts: map<Cell, seq<Inst>>, spots: map<Inst, Spot>)

  ghost predicate WfPlan(p: Plan) {
    && p.own.Keys == p.pins.Keys == p.insts.Keys
    && (forall c {:trigger p.insts[c]} :: c in p.own ==> forall k :: 0 <= k < |p.insts[c]| ==> p.insts[c][k] in p.spots && p.insts[c][k].parent == c)
    && (forall i {:trigger p.spots[i]} {:trigger i in p.spots} :: i in p.spots ==> i.cell in p.own && i.parent in p.own)
  }

  ghost predicate Fits(p: Plan, s: Caches) {
    WfPlan(p) && s.cells.Keys == p.own.Keys && s.insts.Keys == p.spots.Keys
  }

  function IncludeAll(b: Box, bs: seq<Box>): Box {
    if bs == [] then b else Include(IncludeAll(b, bs[..|bs| - 1]), bs[|bs| - 1])
  }

  ghost function InstBoxes(m: map<Inst, Cache>, insts: seq<Inst>): (bs: seq<Box>)
    requires forall k :: 0 <= k < |insts| ==> insts[k] in m
    ensures |bs| == |insts| && forall k :: 0 <= k < |insts| ==> bs[k] == m[insts[k]].ext
  {
    seq(|insts|, k requires 0 <= k < |insts| => m[insts[k]].ext)
  }

  // A cell's extents from those of its instances.
  ghost function CellExt(p: Plan, s: Caches, c: Cell): Box
    requires Fits(p, s) && c in p.own
  {
    IncludeAll(IncludeAll(Include(RESET, p.own[c]), InstBoxes(s.insts, p.insts[c])), p.pins[c])
  }

  /** A clean cell covers its own geometry, its instances and its pins, and its
      instances are clean. */
  ghost predicate CellOk(p: Plan, s: Caches, c: Cell)
    requires Fits(p, s) && c in p.own
  {
    s.cells[c].clean ==>
      && s.cells[c].ext == CellExt(p, s, c)
      && forall k :: 0 <= k < |p.insts[c]| ==> s.insts[p.insts[c][k]].clean
  }

  /** A clean instance has the box of its cell, which is clean. */
  ghost predicate InstOk(p: Plan, s: Caches, i: Inst)
    requires Fits(p, s) && i in p.spots
  {
    s.insts[i].clean ==> s.cells[i.cell].clean && s.insts[i].ext == BoxToParent(p.spots[i], s.cells[i.cell].ext)
  }

  /** All caches are coherent. */
  ghost predicate AllOk(p: Plan, s: Caches) {
    && Fits(p, s)
    && (forall c {:trigger CellOk(p, s, c)} :: c in p.own ==> CellOk(p, s, c))
    && (forall i {:trigger InstOk(p, s, i)} :: i in p.spots ==> InstOk(p, s, i))
  }

  /** No cell contains itself: every instance leads to a cell of lower rank. */
  ghost predicate Ranked(p: Plan, rank: map<Cell, nat>) {
    && WfPlan(p) && p.own.Keys <= rank.Keys
    && forall i {:trigger i in p.spots} :: i in p.spots ==> rank[i.cell] < rank[i.parent]
  }

  // Coherence of everything below a rank.
  ghost predicate OkBelow(p: Plan, s: Caches, rank: map<Cell, nat>, r: nat) {
    && Fits(p, s) && Ranked(p, rank)
    && (forall c {:trigger CellOk(p, s, c)} :: c in p.own && rank[c] < r ==> CellOk(p, s, c))
    && (forall i {:trigger InstOk(p, s, i)} :: i in p.spots && rank[i.parent] < r ==> InstOk(p, s, i))
  }

  // --- From scratch --------------------------------------------------------

  /** The extents of a cell by recursion through the hierarchy, with no caches. */
  ghost function Scratch(p: Plan, rank: map<Cell, nat>, c: Cell): Box
    requires Ranked(p, rank) && c in p.own
    decreases rank[c], |p.insts[c]| + 1
  {
    IncludeAll(IncludeAll(Include(RESET, p.own[c]), ScratchInsts(p, rank, c, |p.insts[c]|)), p.pins[c])
  }

  // The boxes of the first n instances.
  ghost function ScratchInsts(p: Plan, rank: map<Cell, nat>, c: Cell, n: nat): (bs: seq<Box>)
    requires Ranked(p, rank) && c in p.own && n <= |p.insts[c]|
    ensures |bs| == n
    decreases rank[c], n
  {
    if n == 0 then [] else
      var i := p.insts[c][n - 1];
      ScratchInsts(p, rank, c, n - 1) + [BoxToParent(p.spots[i], Scratch(p, rank, i.cell))]
  }

  /** Where the caches are coherent, a clean cell's extents are those from scratch. */
  lemma {:induction false} CoherentIsScratch(p: Plan, s: Caches, rank: map<Cell, nat>, c: Cell)
    requires Ranked(p, rank) && c in p.own && OkBelow(p, s, rank, rank[c] + 1) && s.cells[c].clean
    ensures s.cells[c].ext == Scratch(p, rank, c)
    decreases rank[c], |p.insts[c]| + 1
  {
    assert CellOk(p, s, c);
    CoherentInsts(p, s, rank, c, |p.insts[c]|);
    assert InstBoxes(s.insts, p.insts[c]) == ScratchInsts(p, rank, c, |p.insts[c]|);
  }

  lemma {:induction false} CoherentInsts(p: Plan, s: Caches, rank: map<Cell, nat>, c: Cell, n: nat)
    requires Ranked(p, rank) && c in p.own && OkBelow(p, s, rank, rank[c] + 1) && s.cells[c].clean && n <= |p.insts[c]|
    ensures forall k :: 0 <= k < n ==> ScratchInsts(p, rank, c, n)[k] == s.insts[p.insts[c][k]].ext
    decreases rank[c], n
  {
    if n > 0 {
      CoherentInsts(p, s, rank, c, n - 1);
      var i := p.insts[c][n - 1];
      assert i in p.spots;
      assert CellOk(p, s, c) && InstOk(p, s, i);
      CoherentIsScratch(p, s, rank, i.cell);
    }
  }

  // --- What an update does -------------------------------------------------

  // An entry is kept, or was dirty, has become clean, and belongs below the rank.
  predicate Kept(a: Cache, b: Cache, may: bool) {
    a == b || (!a.clean && b.clean && may)
  }

  // Only dirty entries below rank r, and the instance `open`, have changed.
  ghost predicate Progress(p: Plan, s: Caches, s': Caches, rank: map<Cell, nat>, r: nat, open: set<Inst>) {
    && Fits(p, s) && Fits(p, s') && Ranked(p, rank)
    && (forall c {:trigger s'.cells[c]} :: c in p.own ==> Kept(s.cells[c], s'.cells[c], rank[c] < r))
    && (forall i {:trigger s'.insts[i]} :: i in p.spots ==> Kept(s.insts[i], s'.insts[i], rank[i.parent] < r || i in open))
  }

  lemma {:induction false} CellStaysOk(p: Plan, s: Caches, s': Caches, c: Cell)
    requires Fits(p, s) && Fits(p, s') && c in p.own && CellOk(p, s, c) && s'.cells[c] == s.cells[c]
    requires forall i {:trigger s'.insts[i]} :: i in p.spots && s.insts[i].clean ==> s'.insts[i] == s.insts[i]
    ensures CellOk(p, s', c)
  {
    if s.cells[c].clean {
      forall k | 0 <= k < |p.insts[c]| ensures s'.insts[p.insts[c][k]] == s.insts[p.insts[c][k]] {
        assert s.insts[p.insts[c][k]].clean;
      }
      assert InstBoxes(s'.insts, p.insts[c]) == InstBoxes(s.insts, p.insts[c]);
    }
  }

  // Coherence spreads from the part that was updated to all that was coherent before.
  lemma {:induction false} ProgressKeepsOk(p: Plan, s: Caches, s': Caches, rank: map<Cell, nat>, low: nat, high: nat, open: set<Inst>)
    requires Progress(p, s, s', rank, low, open) && OkBelow(p, s, rank, high) && OkBelow(p, s', rank, low) && low <= high
    requires forall i {:trigger InstOk(p, s', i)} :: i in open && i in p.spots ==> InstOk(p, s', i)
    requires forall c {:trigger s.cells[c]} :: c in p.own && low <= rank[c] < high ==> s'.cells[c] == s.cells[c]
    ensures OkBelow(p, s', rank, high)
  {
    forall i {:trigger s'.insts[i]} | i in p.spots && s.insts[i].clean ensures s'.insts[i] == s.insts[i] {
    }
    forall c {:trigger CellOk(p, s', c)} | c in p.own && rank[c] < high ensures CellOk(p, s', c) {
      if low <= rank[c] {
        assert CellOk(p, s, c);
        CellStaysOk(p, s, s', c);
      }
    }
    forall i {:trigger InstOk(p, s', i)} | i in p.spots && rank[i.parent] < high ensures InstOk(p, s', i) {
      if low <= rank[i.parent] && i !in open {
        assert InstOk(p, s, i);
        assert s'.insts[i] == s.insts[i];
        assert Kept(s.cells[i.cell], s'.cells[i.cell], rank[i.cell] < low);
      }
    }
  }

  /** The contract of a recursive update of one cell, on an acyclic hierarchy. */
  ghost predicate Refreshed(p: Plan, rank: map<Cell, nat>, s: Caches, s': Caches, c: Cell) {
    Ranked(p, rank) && c in p.own && OkBelow(p, s, rank, rank[c] + 1) ==>
      && Progress(p, s, s', rank, rank[c] + 1, {})
      && (forall d {:trigger s'.cells[d]} :: d in p.own && rank[d] == rank[c] && d != c ==> s'.cells[d] == s.cells[d])
      && OkBelow(p, s', rank, rank[c] + 1) && s'.cells[c].clean
  }

  /** The contract of the update of one instance: also below the parent, where the
      parent itself is being updated. */
  ghost predicate InstRefreshed(p: Plan, rank: map<Cell, nat>, s: Caches, s': Caches, i: Inst) {
    Ranked(p, rank) && i in p.spots && OkBelow(p, s, rank, rank[i.parent]) && InstOk(p, s, i) ==>
      && Progress(p, s, s', rank, rank[i.parent], {i})
      && OkBelow(p, s', rank, rank[i.parent]) && s'.insts[i].clean && InstOk(p, s', i)
  }

  lemma {:induction false} NothingToRefresh(p: Plan, rank: map<Cell, nat>, s: Caches, c: Cell)
    requires Fits(p, s) && c in p.own && s.cells[c].clean
    ensures Refreshed(p, rank, s, s, c)
  {
  }

  // --- The recomputation of one cell ---------------------------------------

  function SetCell(s: Caches, c: Cell, x: Cache): Caches {
    s.(cells := s.cells[c := x])
  }

  function SetInst(s: Caches, i: Inst, x: Cache): Caches {
    s.(insts := s.insts[i := x])
  }

  // While c is recomputed: c counts as clean, its first n instances are.
  ghost predicate Refreshing(p: Plan, rank: map<Cell, nat>, s: Caches, s': Caches, c: Cell, n: nat)
    requires Ranked(p, rank) && c in p.own
  {
    && Fits(p, s) && Fits(p, s') && n <= |p.insts[c]| && s'.cells[c].clean
    && (forall d {:trigger s'.cells[d]} :: d in p.own && d != c ==> Kept(s.cells[d], s'.cells[d], rank[d] < rank[c]))
    && (forall i {:trigger s'.insts[i]} :: i in p.spots ==> Kept(s.insts[i], s'.insts[i], rank[i.parent] < rank[c] || i.parent == c))
    && OkBelow(p, s', rank, rank[c])
    && (forall i {:trigger InstOk(p, s', i)} :: i in p.spots && i.parent == c ==> InstOk(p, s', i))
    && (forall k :: 0 <= k < n ==> s'.insts[p.insts[c][k]].clean)
  }

  // What c's extents are while the first u instances have been included.
  ghost function PartExt(p: Plan, s: Caches, c: Cell, u: nat): Box
    requires Fits(p, s) && c in p.own && u <= |p.insts[c]|
  {
    IncludeAll(Include(RESET, p.own[c]), InstBoxes(s.insts, p.insts[c])[..u])
  }

  lemma {:induction false} RefreshingStart(p: Plan, rank: map<Cell, nat>, s: Caches, c: Cell, x: Box)
    requires Ranked(p, rank) && c in p.own && OkBelow(p, s, rank, rank[c] + 1)
    ensures Refreshing(p, rank, s, SetCell(s, c, Cache(true, x)), c, 0)
  {
    var s' := SetCell(s, c, Cache(true, x));
    forall d {:trigger CellOk(p, s', d)} | d in p.own && rank[d] < rank[c] ensures CellOk(p, s', d) {
      assert CellOk(p, s, d);
    }
    forall i {:trigger InstOk(p, s', i)} | i in p.spots && rank[i.parent] <= rank[c] ensures InstOk(p, s', i) {
      assert InstOk(p, s, i);
    }
  }

  // Changing the extents of the open cell disturbs nothing.
  lemma {:induction false} RefreshingSet(p: Plan, rank: map<Cell, nat>, s: Caches, s': Caches, c: Cell, n: nat, x: Box)
    requires Ranked(p, rank) && c in p.own && Refreshing(p, rank, s, s', c, n)
    ensures Refreshing(p, rank, s, SetCell(s', c, Cache(true, x)), c, n)
  {
    var t := SetCell(s', c, Cache(true, x));
    forall d {:trigger t.cells[d]} | d in p.own && d != c ensures t.cells[d] == s'.cells[d] {
    }
    forall i {:trigger t.insts[i]} | i in p.spots ensures t.insts[i] == s'.insts[i] {
    }
    forall d {:trigger CellOk(p, t, d)} | d in p.own && rank[d] < rank[c] ensures CellOk(p, t, d) {
      assert CellOk(p, s', d);
    }
    forall i {:trigger InstOk(p, t, i)} | i in p.spots && (rank[i.parent] < rank[c] || i.parent == c) ensures InstOk(p, t, i) {
      assert InstOk(p, s', i);
      assert i in p.spots && rank[i.cell] < rank[c];
    }
  }

  // The update of one instance of c leaves another one as it was.
  lemma {:induction false} OtherInstOk(p: Plan, rank: map<Cell, nat>, s': Caches, t: Caches, c: Cell, i: Inst, j: Inst)
    requires Ranked(p, rank) && c in p.own && Progress(p, s', t, rank, rank[c], {i}) && j in p.spots && j.parent == c && j != i && InstOk(p, s', j)
    ensures InstOk(p, t, j)
  {
    assert t.insts[j] == s'.insts[j];
    assert Kept(s'.cells[j.cell], t.cells[j.cell], rank[j.cell] < rank[c]);
  }

  // One instance updated.
  lemma {:induction false} RefreshingStep(p: Plan, rank: map<Cell, nat>, s: Caches, s': Caches, t: Caches, c: Cell, u: nat)
    requires Ranked(p, rank) && c in p.own && Refreshing(p, rank, s, s', c, u) && u < |p.insts[c]|
    requires InstRefreshed(p, rank, s', t, p.insts[c][u])
    ensures Refreshing(p, rank, s, t, c, u + 1) && t.cells[c] == s'.cells[c]
    ensures PartExt(p, t, c, u) == PartExt(p, s', c, u)
  {
    var i := p.insts[c][u];
    assert i in p.spots && i.parent == c;
    assert InstOk(p, s', i);
    assert t.cells[c] == s'.cells[c];
    forall d {:trigger t.cells[d]} | d in p.own && d != c ensures Kept(s.cells[d], t.cells[d], rank[d] < rank[c]) {
      assert Kept(s.cells[d], s'.cells[d], rank[d] < rank[c]);
    }
    forall j {:trigger t.insts[j]} | j in p.spots ensures Kept(s.insts[j], t.insts[j], rank[j.parent] < rank[c] || j.parent == c) {
      assert Kept(s.insts[j], s'.insts[j], rank[j.parent] < rank[c] || j.parent == c);
    }
    forall j {:trigger InstOk(p, t, j)} | j in p.spots && j.parent == c ensures InstOk(p, t, j) {
      if j != i {
        OtherInstOk(p, rank, s', t, c, i, j);
      }
    }
    forall k | 0 <= k <= u ensures t.insts[p.insts[c][k]].clean && (k < u ==> t.insts[p.insts[c][k]] == s'.insts[p.insts[c][k]]) {
      assert k < u ==> s'.insts[p.insts[c][k]].clean;
    }
    SameInstBoxes(p.insts[c], s'.insts, t.insts, u);
  }

  lemma {:induction false} SameInstBoxes(insts: seq<Inst>, m: map<Inst, Cache>, m': map<Inst, Cache>, u: nat)
    requires u <= |insts| && (forall k :: 0 <= k < |insts| ==> insts[k] in m && insts[k] in m')
    requires forall k :: 0 <= k < u ==> m'[insts[k]] == m[insts[k]]
    ensures InstBoxes(m', insts)[..u] == InstBoxes(m, insts)[..u]
  {
  }

  lemma {:induction false} PartStep(p: Plan, s: Caches, c: Cell, u: nat)
    requires Fits(p, s) && c in p.own && u < |p.insts[c]|
    ensures p.insts[c][u] in s.insts
    ensures PartExt(p, s, c, u + 1) == Include(PartExt(p, s, c, u), s.insts[p.insts[c][u]].ext)
  {
    var bs := InstBoxes(s.insts, p.insts[c]);
    assert bs[..u + 1][..u] == bs[..u];
  }

  // All instances and pins included.
  lemma {:induction false} RefreshingOk(p: Plan, rank: map<Cell, nat>, s: Caches, s': Caches, c: Cell)
    requires Ranked(p, rank) && c in p.own && OkBelow(p, s, rank, rank[c] + 1) && Refreshing(p, rank, s, s', c, |p.insts[c]|)
    requires s'.cells[c].ext == IncludeAll(PartExt(p, s', c, |p.insts[c]|), p.pins[c])
    ensures OkBelow(p, s', rank, rank[c] + 1)
  {
    hide Less, BoxToParent;
    var bs := InstBoxes(s'.insts, p.insts[c]);
    assert bs[..|p.insts[c]|] == bs;
    assert CellOk(p, s', c);
    forall d {:trigger CellOk(p, s', d)} | d in p.own && rank[d] <= rank[c] ensures CellOk(p, s', d) {
      if rank[d] == rank[c] && d != c {
        CellBesideStaysOk(p, rank, s, s', c, d);
      }
    }
    forall i {:trigger InstOk(p, s', i)} | i in p.spots && rank[i.parent] <= rank[c] ensures InstOk(p, s', i) {
      if rank[i.parent] == rank[c] && i.parent != c {
        BesideStaysOk(p, rank, s, s', c, i);
      }
    }
  }

  lemma {:induction false} RefreshingDone(p: Plan, rank: map<Cell, nat>, s: Caches, s': Caches, c: Cell)
    requires Ranked(p, rank) && c in p.own && OkBelow(p, s, rank, rank[c] + 1) && !s.cells[c].clean
    requires Refreshing(p, rank, s, s', c, |p.insts[c]|)
    requires s'.cells[c].ext == IncludeAll(PartExt(p, s', c, |p.insts[c]|), p.pins[c])
    ensures Refreshed(p, rank, s, s', c)
  {
    RefreshingOk(p, rank, s, s', c);
    hide OkBelow, CellOk, InstOk;
  }

  // Another cell of the same rank.
  lemma {:induction false} CellBesideStaysOk(p: Plan, rank: map<Cell, nat>, s: Caches, s': Caches, c: Cell, d: Cell)
    requires Ranked(p, rank) && c in p.own && OkBelow(p, s, rank, rank[c] + 1) && Refreshing(p, rank, s, s', c, |p.insts[c]|)
    requires d in p.own && rank[d] == rank[c] && d != c
    requires forall i {:trigger s'.insts[i]} :: i in p.spots && s.insts[i].clean ==> s'.insts[i] == s.insts[i]
    ensures CellOk(p, s', d)
  {
    assert CellOk(p, s, d) && s'.cells[d] == s.cells[d];
    CellStaysOk(p, s, s', d);
  }

  // An instance in another cell of the same rank.
  lemma {:induction false} BesideStaysOk(p: Plan, rank: map<Cell, nat>, s: Caches, s': Caches, c: Cell, i: Inst)
    requires Ranked(p, rank) && c in p.own && OkBelow(p, s, rank, rank[c] + 1) && Refreshing(p, rank, s, s', c, |p.insts[c]|)
    requires i in p.spots && rank[i.parent] == rank[c] && i.parent != c
    ensures InstOk(p, s', i)
  {
    assert InstOk(p, s, i);
    assert s'.insts[i] == s.insts[i] && i.cell != c;
    assert Kept(s.cells[i.cell], s'.cells[i.cell], rank[i.cell] < rank[c]);
  }

  // --- The update of one instance ------------------------------------------

  lemma {:induction false} InstanceDone(p: Plan, rank: map<Cell, nat>, s: Caches, s': Caches, t: Caches, i: Inst)
    requires Fits(p, s) && Fits(p, s') && i in p.spots
    requires Refreshed(p, rank, s, s', i.cell)
    requires t == if s'.insts[i].clean then s' else SetInst(s', i, Cache(true, BoxToParent(p.spots[i], s'.cells[i.cell].ext)))
    ensures InstRefreshed(p, rank, s, t, i)
  {
    if Ranked(p, rank) && OkBelow(p, s, rank, rank[i.parent]) && InstOk(p, s, i) {
      var low, high := rank[i.cell] + 1, rank[i.parent];
      assert OkBelow(p, s, rank, low);
      forall d {:trigger s.cells[d]} | d in p.own && low <= rank[d] < high ensures s'.cells[d] == s.cells[d] {
        assert Kept(s.cells[d], s'.cells[d], rank[d] < low);
      }
      ProgressKeepsOk(p, s, s', rank, low, high, {});
      InstanceSet(p, rank, s, s', t, i);
    }
  }

  lemma {:induction false} InstanceSet(p: Plan, rank: map<Cell, nat>, s: Caches, s': Caches, t: Caches, i: Inst)
    requires Ranked(p, rank) && Fits(p, s) && i in p.spots && InstOk(p, s, i) && OkBelow(p, s', rank, rank[i.parent])
    requires Progress(p, s, s', rank, rank[i.cell] + 1, {}) && s'.cells[i.cell].clean
    requires t == if s'.insts[i].clean then s' else SetInst(s', i, Cache(true, BoxToParent(p.spots[i], s'.cells[i.cell].ext)))
    ensures Progress(p, s, t, rank, rank[i.parent], {i})
    ensures OkBelow(p, t, rank, rank[i.parent]) && t.insts[i].clean && InstOk(p, t, i)
  {
    assert s'.insts[i] == s.insts[i] by {
      assert Kept(s.insts[i], s'.insts[i], rank[i.parent] < rank[i.cell] + 1);
    }
    assert InstOk(p, t, i) by {
      assert Kept(s.cells[i.cell], s'.cells[i.cell], true);
    }
    forall c {:trigger t.cells[c]} | c in p.own ensures Kept(s.cells[c], t.cells[c], rank[c] < rank[i.parent]) {
      assert Kept(s.cells[c], s'.cells[c], rank[c] < rank[i.cell] + 1);
    }
    forall j {:trigger t.insts[j]} | j in p.spots ensures Kept(s.insts[j], t.insts[j], rank[j.parent] < rank[i.parent] || j in {i}) {
      assert Kept(s.insts[j], s'.insts[j], rank[j.parent] < rank[i.cell] + 1);
    }
    forall c {:trigger CellOk(p, t, c)} | c in p.own && rank[c] < rank[i.parent] ensures CellOk(p, t, c) {
      assert CellOk(p, s', c);
      CellStaysOk(p, s', t, c);
    }
    forall j {:trigger InstOk(p, t, j)} | j in p.spots && rank[j.parent] < rank[i.parent] ensures InstOk(p, t, j) {
      assert InstOk(p, s', j);
    }
  }

  ghost function DirtyCells(s: Caches): set<Cell> {
    set c | c in s.cells && !s.cells[c].clean
  }

  // The loop over the instances: on an acyclic hierarchy, c is open and covers what
  // has been visited.
  ghost predicate Looping(p: Plan, rank: map<Cell, nat>, s: Caches, s': Caches, c: Cell, u: nat) {
    && Fits(p, s') && c in p.own && u <= |p.insts[c]|
    && (Ranked(p, rank) && OkBelow(p, s, rank, rank[c] + 1) ==>
          Refreshing(p, rank, s, s', c, u) && s'.cells[c].ext == PartExt(p, s', c, u))
  }

  lemma {:induction false} LoopStart(p: Plan, rank: map<Cell, nat>, s: Caches, c: Cell)
    requires Fits(p, s) && c in p.own
    ensures Looping(p, rank, s, SetCell(s, c, Cache(true, Include(RESET, p.own[c]))), c, 0)
  {
    var x := Include(RESET, p.own[c]);
    if Ranked(p, rank) && OkBelow(p, s, rank, rank[c] + 1) {
      RefreshingStart(p, rank, s, c, x);
    }
  }

  lemma {:induction false} LoopStep(p: Plan, rank: map<Cell, nat>, s: Caches, s': Caches, t: Caches, c: Cell, u: nat)
    requires Looping(p, rank, s, s', c, u) && u < |p.insts[c]| && Fits(p, t)
    requires InstRefreshed(p, rank, s', t, p.insts[c][u])
    ensures p.insts[c][u] in t.insts
    ensures Looping(p, rank, s, SetCell(t, c, Cache(t.cells[c].clean, Include(t.cells[c].ext, t.insts[p.insts[c][u]].ext))), c, u + 1)
  {
    var x := Include(t.cells[c].ext, t.insts[p.insts[c][u]].ext);
    var t' := SetCell(t, c, Cache(t.cells[c].clean, x));
    assert WfPlan(p) && p.insts[c][u] in p.spots;
    if Ranked(p, rank) && OkBelow(p, s, rank, rank[c] + 1) {
      RefreshingStep(p, rank, s, s', t, c, u);
      RefreshingSet(p, rank, s, t, c, u + 1, x);
      PartStep(p, t, c, u);
      assert InstBoxes(t'.insts, p.insts[c]) == InstBoxes(t.insts, p.insts[c]);
    }
  }

  lemma {:induction false} LoopDone(p: Plan, rank: map<Cell, nat>, s: Caches, s': Caches, c: Cell)
    requires Fits(p, s) && c in p.own && !s.cells[c].clean && Looping(p, rank, s, s', c, |p.insts[c]|)
    ensures Refreshed(p, rank, s, SetCell(s', c, Cache(s'.cells[c].clean, IncludeAll(s'.cells[c].ext, p.pins[c]))), c)
  {
    var x := IncludeAll(s'.cells[c].ext, p.pins[c]);
    var t := SetCell(s', c, Cache(s'.cells[c].clean, x));
    if Ranked(p, rank) && OkBelow(p, s, rank, rank[c] + 1) {
      RefreshingSet(p, rank, s, s', c, |p.insts[c]|, x);
      assert InstBoxes(t.insts, p.insts[c]) == InstBoxes(s'.insts, p.insts[c]);
      RefreshingDone(p, rank, s, t, c);
    }
  }

  // --- Edits ---------------------------------------------------------------

  /** What is clean rests on clean parts only. */
  ghost predicate Grounded(p: Plan, s: Caches) {
    && Fits(p, s)
    && (forall c {:trigger s.cells[c]} :: c in p.own && s.cells[c].clean ==>
          forall k :: 0 <= k < |p.insts[c]| ==> s.insts[p.insts[c][k]].clean)
    && (forall i {:trigger s.insts[i]} :: i in p.spots && s.insts[i].clean ==> s.cells[i.cell].clean)
  }

  // The edit has left this cell's own parts alone, but for empty new pins.
  ghost predicate SameParts(p: Plan, p': Plan, c: Cell)
    requires WfPlan(p) && WfPlan(p') && c in p.own && c in p'.own
  {
    && p'.own[c] == p.own[c] && p'.insts[c] == p.insts[c]
    && |p.pins[c]| <= |p'.pins[c]| && p'.pins[c][..|p.pins[c]|] == p.pins[c]
    && forall n :: |p.pins[c]| <= n < |p'.pins[c]| ==> p'.pins[c][n] == RESET
  }

  lemma {:induction false} EmptyPins(b: Box, bs: seq<Box>, cs: seq<Box>)
    requires |bs| <= |cs| && cs[..|bs|] == bs && forall n :: |bs| <= n < |cs| ==> cs[n] == RESET
    ensures IncludeAll(b, cs) == IncludeAll(b, bs)
    decreases |cs|
  {
    if |bs| == |cs| {
      assert cs[..|bs|] == cs;
    } else {
      var n := |cs| - 1;
      assert cs[..n][..|bs|] == bs;
      EmptyPins(b, bs, cs[..n]);
      IncludeAssociative(IncludeAll(b, bs), RESET, RESET);
    }
  }

  // What an edit may do to one cell: dirty it, or leave it and its parts alone.
  ghost predicate CellEdited(p: Plan, s: Caches, p': Plan, s': Caches, c: Cell)
    requires Fits(p, s) && Fits(p', s') && c in p'.own
  {
    s'.cells[c].clean ==> c in p.own && s'.cells[c] == s.cells[c] && SameParts(p, p', c)
  }

  ghost predicate InstEdited(p: Plan, s: Caches, p': Plan, s': Caches, i: Inst)
    requires Fits(p, s) && Fits(p', s') && i in p'.spots
  {
    s'.insts[i].clean ==> i in p.spots && s'.insts[i] == s.insts[i] && p'.spots[i] == p.spots[i]
  }

  /** An edit that dirties what it touches, and everything above, keeps the caches coherent. */
  lemma {:induction false} EditKeepsOk(p: Plan, s: Caches, p': Plan, s': Caches)
    requires AllOk(p, s) && Grounded(p', s')
    requires forall c {:trigger CellEdited(p, s, p', s', c)} :: c in p'.own ==> CellEdited(p, s, p', s', c)
    requires forall i {:trigger InstEdited(p, s, p', s', i)} :: i in p'.spots ==> InstEdited(p, s, p', s', i)
    ensures AllOk(p', s')
  {
    forall c {:trigger CellOk(p', s', c)} | c in p'.own ensures CellOk(p', s', c) {
      if s'.cells[c].clean {
        assert CellEdited(p, s, p', s', c) && CellOk(p, s, c);
        forall k | 0 <= k < |p.insts[c]| ensures InstBoxes(s'.insts, p'.insts[c])[k] == InstBoxes(s.insts, p.insts[c])[k] {
          assert InstEdited(p, s, p', s', p.insts[c][k]);
        }
        assert InstBoxes(s'.insts, p'.insts[c]) == InstBoxes(s.insts, p.insts[c]);
        EmptyPins(IncludeAll(Include(RESET, p.own[c]), InstBoxes(s.insts, p.insts[c])), p.pins[c], p'.pins[c]);
      }
    }
    forall i {:trigger InstOk(p', s', i)} | i in p'.spots ensures InstOk(p', s', i) {
      if s'.insts[i].clean {
        assert InstEdited(p, s, p', s', i) && InstOk(p, s, i);
        assert CellEdited(p, s, p', s', i.cell);
      }
    }
  }

  lemma {:induction false} OkIsGrounded(p: Plan, s: Caches)
    requires AllOk(p, s)
    ensures Grounded(p, s)
  {
    forall c {:trigger s.cells[c]} | c in p.own && s.cells[c].clean
      ensures forall k :: 0 <= k < |p.insts[c]| ==> s.insts[p.insts[c][k]].clean
    {
      assert CellOk(p, s, c);
    }
    forall i {:trigger s.insts[i]} | i in p.spots && s.insts[i].clean ensures s.cells[i.cell].clean {
      assert InstOk(p, s, i);
    }
  }

  // A coherent hierarchy stays coherent through an update, at every rank.
  lemma {:induction false} RefreshedKeepsAllOk(p: Plan, rank: map<Cell, nat>, s: Caches, s': Caches, c: Cell)
    requires Ranked(p, rank) && c in p.own && AllOk(p, s) && Refreshed(p, rank, s, s', c)
    ensures AllOk(p, s') && s'.cells[c].clean
  {
    assert OkBelow(p, s, rank, rank[c] + 1);
    forall d {:trigger CellOk(p, s', d)} | d in p.own ensures CellOk(p, s', d) {
      assert Kept(s.cells[d], s'.cells[d], rank[d] < rank[c] + 1);
      if rank[d] > rank[c] {
        assert CellOk(p, s, d);
        CellStaysOk(p, s, s', d);
      }
    }
    forall i {:trigger InstOk(p, s', i)} | i in p.spots ensures InstOk(p, s', i) {
      assert Kept(s.insts[i], s'.insts[i], rank[i.parent] < rank[c] + 1);
      assert Kept(s.cells[i.cell], s'.cells[i.cell], rank[i.cell] < rank[c] + 1);
      assert InstOk(p, s, i);
    }
  }
}
