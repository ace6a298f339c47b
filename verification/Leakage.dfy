/** The leakage pass: every cell is computed once, yet the result is the sum over all
    instance paths down to the leaf cells, with multiplicity. */
module Leakage {
  import opened Marks
  import opened Design
  import opened IndexPaths

  // --- From scratch --------------------------------------------------------

  /** The instances of each cell. */
  type Tree = map<Cell, seq<Inst>>

  ghost predicate Acyclic(t: Tree, rank: map<Cell, nat>) {
    && t.Keys <= rank.Keys
    && forall c, n {:trigger t[c][n]} :: c in t && 0 <= n < |t[c]| ==> t[c][n].cell in t && rank[t[c][n].cell] < rank[c]
  }

  /** A path picks one instance after the other, ending at a cell without instances. */
  ghost predicate IsPath(t: Tree, c: Cell, path: seq<nat>)
    decreases |path|
  {
    c in t && if path == [] then t[c] == [] else path[0] < |t[c]| && IsPath(t, t[c][path[0]].cell, path[1..])
  }

  ghost function LeafOf(t: Tree, c: Cell, path: seq<nat>): Cell
    requires IsPath(t, c, path)
    decreases |path|
  {
    if path == [] then c else LeafOf(t, t[c][path[0]].cell, path[1..])
  }

  // All paths from c, in the order of its instances.
  ghost function Paths(t: Tree, rank: map<Cell, nat>, c: Cell): (ps: seq<seq<nat>>)
    requires Acyclic(t, rank) && c in t
    decreases rank[c], |t[c]| + 1
  {
    if t[c] == [] then [[]] else PathsVia(t, rank, c, |t[c]|)
  }

  // The paths through the first n instances.
  ghost function PathsVia(t: Tree, rank: map<Cell, nat>, c: Cell, n: nat): (ps: seq<seq<nat>>)
    requires Acyclic(t, rank) && c in t && n <= |t[c]|
    decreases rank[c], n
  {
    if n == 0 then [] else PathsVia(t, rank, c, n - 1) + Prefixed(n - 1, Paths(t, rank, t[c][n - 1].cell))
  }

  /** The enumeration lists every path exactly once, and nothing else. */
  lemma {:induction false} PathsAreAll(t: Tree, rank: map<Cell, nat>, c: Cell)
    requires Acyclic(t, rank) && c in t
    ensures NoDuplicates(Paths(t, rank, c)) && forall p: seq<nat> :: p in Paths(t, rank, c) <==> IsPath(t, c, p)
    decreases rank[c], |t[c]| + 1
  {
    if t[c] != [] {
      PathsViaAreAll(t, rank, c, |t[c]|);
    }
  }

  lemma {:induction false} PathsViaAreAll(t: Tree, rank: map<Cell, nat>, c: Cell, n: nat)
    requires Acyclic(t, rank) && c in t && n <= |t[c]|
    ensures NoDuplicates(PathsVia(t, rank, c, n))
    ensures forall p: seq<nat> :: p in PathsVia(t, rank, c, n) <==> p != [] && p[0] < n && IsPath(t, c, p)
    decreases rank[c], n
  {
    if n > 0 {
      PathsViaAreAll(t, rank, c, n - 1);
      var d := t[c][n - 1].cell;
      PathsAreAll(t, rank, d);
      var front, ps := PathsVia(t, rank, c, n - 1), Paths(t, rank, d);
      var back := Prefixed(n - 1, ps);
      forall p: seq<nat> ensures p in back <==> p != [] && p[0] == n - 1 && IsPath(t, c, p) {
        PrefixedMember(n - 1, ps, p);
      }
      PrefixedDistinct(n - 1, ps);
      forall i, j | 0 <= i < |front| && 0 <= j < |back| ensures front[i] != back[j] {
        assert front[i] in front && back[j] in back;
      }
    }
  }

  // The power of the leaf at the end of each path, added up.
  ghost function PathSum(t: Tree, c: Cell, ps: seq<seq<nat>>, leaf: map<Cell, real>): real
    requires forall j :: 0 <= j < |ps| ==> IsPath(t, c, ps[j])
    requires t.Keys <= leaf.Keys
  {
    if ps == [] then 0.0
    else
      LeafIn(t, c, ps[|ps| - 1]);
      PathSum(t, c, ps[..|ps| - 1], leaf) + leaf[LeafOf(t, c, ps[|ps| - 1])]
  }

  lemma {:induction false} LeafIn(t: Tree, c: Cell, p: seq<nat>)
    requires IsPath(t, c, p)
    ensures LeafOf(t, c, p) in t
    decreases |p|
  {
    if p != [] {
      LeafIn(t, t[c][p[0]].cell, p[1..]);
    }
  }

  /** The leakage of a cell: the leaf powers at the ends of all its instance paths. */
  ghost function Total(t: Tree, rank: map<Cell, nat>, leaf: map<Cell, real>, c: Cell): real
    requires Acyclic(t, rank) && c in t && t.Keys <= leaf.Keys
  {
    PathsAreAll(t, rank, c);
    PathsListed(t, rank, c);
    PathSum(t, c, Paths(t, rank, c), leaf)
  }

  lemma {:induction false} PathsListed(t: Tree, rank: map<Cell, nat>, c: Cell)
    requires Acyclic(t, rank) && c in t
    ensures forall j :: 0 <= j < |Paths(t, rank, c)| ==> IsPath(t, c, Paths(t, rank, c)[j])
  {
    PathsAreAll(t, rank, c);
    forall j | 0 <= j < |Paths(t, rank, c)| ensures IsPath(t, c, Paths(t, rank, c)[j]) {
      assert Paths(t, rank, c)[j] in Paths(t, rank, c);
    }
  }

  // --- The recursion over instances computes that sum ----------------------------

  lemma {:induction false} PathSumConcat(t: Tree, c: Cell, a: seq<seq<nat>>, b: seq<seq<nat>>, leaf: map<Cell, real>)
    requires forall j :: 0 <= j < |a| ==> IsPath(t, c, a[j])
    requires forall j :: 0 <= j < |b| ==> IsPath(t, c, b[j])
    requires t.Keys <= leaf.Keys
    ensures forall j :: 0 <= j < |a + b| ==> IsPath(t, c, (a + b)[j])
    ensures PathSum(t, c, a + b, leaf) == PathSum(t, c, a, leaf) + PathSum(t, c, b, leaf)
  {
    if b == [] {
      assert a + b == a;
    } else {
      var n := |b| - 1;
      PathSumConcat(t, c, a, b[..n], leaf);
      assert (a + b)[..|a + b| - 1] == a + b[..n];
    }
  }

  lemma {:induction false} PathSumPrefixed(t: Tree, c: Cell, n: nat, ps: seq<seq<nat>>, leaf: map<Cell, real>)
    requires c in t && n < |t[c]| && t.Keys <= leaf.Keys
    requires forall j :: 0 <= j < |ps| ==> IsPath(t, t[c][n].cell, ps[j])
    ensures forall j :: 0 <= j < |ps| ==> IsPath(t, c, Prefixed(n, ps)[j])
    ensures PathSum(t, c, Prefixed(n, ps), leaf) == PathSum(t, t[c][n].cell, ps, leaf)
  {
    forall j | 0 <= j < |ps| ensures IsPath(t, c, Prefixed(n, ps)[j]) && LeafOf(t, c, Prefixed(n, ps)[j]) == LeafOf(t, t[c][n].cell, ps[j]) {
      assert ([n] + ps[j])[1..] == ps[j];
    }
    if ps != [] {
      var m := |ps| - 1;
      PathSumPrefixed(t, c, n, ps[..m], leaf);
      assert Prefixed(n, ps)[..m] == Prefixed(n, ps[..m]);
    }
  }

  // The totals of the first n instances' cells.
  ghost function PartTotal(t: Tree, rank: map<Cell, nat>, leaf: map<Cell, real>, c: Cell, n: nat): real
    requires Acyclic(t, rank) && c in t && t.Keys <= leaf.Keys && n <= |t[c]|
  {
    if n == 0 then 0.0 else PartTotal(t, rank, leaf, c, n - 1) + Total(t, rank, leaf, t[c][n - 1].cell)
  }

  lemma {:induction false} PartTotalIsPathSum(t: Tree, rank: map<Cell, nat>, leaf: map<Cell, real>, c: Cell, n: nat)
    requires Acyclic(t, rank) && c in t && t.Keys <= leaf.Keys && n <= |t[c]|
    ensures forall j :: 0 <= j < |PathsVia(t, rank, c, n)| ==> IsPath(t, c, PathsVia(t, rank, c, n)[j])
    ensures PathSum(t, c, PathsVia(t, rank, c, n), leaf) == PartTotal(t, rank, leaf, c, n)
  {
    if n > 0 {
      PartTotalIsPathSum(t, rank, leaf, c, n - 1);
      var d := t[c][n - 1].cell;
      PathsListed(t, rank, d);
      PathSumPrefixed(t, c, n - 1, Paths(t, rank, d), leaf);
      PathSumConcat(t, c, PathsVia(t, rank, c, n - 1), Prefixed(n - 1, Paths(t, rank, d)), leaf);
    }
  }

  /** A cell's leakage from those of its instances: the recurrence that the pass uses. */
  lemma {:induction false} TotalRecurrence(t: Tree, rank: map<Cell, nat>, leaf: map<Cell, real>, c: Cell)
    requires Acyclic(t, rank) && c in t && t.Keys <= leaf.Keys
    ensures Total(t, rank, leaf, c) == if t[c] == [] then leaf[c] else PartTotal(t, rank, leaf, c, |t[c]|)
  {
    if t[c] == [] {
      assert PathSum(t, c, [], leaf) == 0.0;
      assert Paths(t, rank, c)[..0] == [];
    } else {
      PartTotalIsPathSum(t, rank, leaf, c, |t[c]|);
    }
  }

  // --- The pass ------------------------------------------------------------------

  datatype Power = Power(clean: bool, value: real)

  ghost function PowerOf(c: Cell): Power
    reads c`invalid, c`leakagePower
  {
    Power(POWER_LKG !in c.invalid, c.leakagePower)
  }

  ghost function Powers(cells: set<Cell>): (m: map<Cell, Power>)
    reads cells`invalid, cells`leakagePower
    ensures m.Keys == cells && forall c {:trigger m[c]} :: c in cells ==> m[c] == PowerOf(c)
  {
    map c | c in cells :: PowerOf(c)
  }

  ghost function TreeOf(cells: set<Cell>): (t: Tree)
    reads cells`insts
    ensures t.Keys == cells && forall c {:trigger t[c]} :: c in cells ==> t[c] == c.insts
  {
    map c | c in cells :: c.insts
  }

  ghost predicate Linked(t: Tree) {
    forall c, n {:trigger t[c][n]} :: c in t && 0 <= n < |t[c]| ==> t[c][n].cell in t
  }

  ghost function DirtyPowers(s: map<Cell, Power>): set<Cell> {
    set c | c in s && !s[c].clean
  }

  ghost predicate PowerRight(t: Tree, rank: map<Cell, nat>, leaf: map<Cell, real>, s: map<Cell, Power>, c: Cell)
    requires Acyclic(t, rank) && c in t && t.Keys <= leaf.Keys && c in s
  {
    s[c].clean ==> s[c].value == Total(t, rank, leaf, c)
  }

  /** A clean cell has the sum over its paths; the cells being recomputed are exempt. */
  ghost predicate PowersOk(t: Tree, rank: map<Cell, nat>, leaf: map<Cell, real>, s: map<Cell, Power>, busy: set<Cell>) {
    && Acyclic(t, rank) && t.Keys <= leaf.Keys && s.Keys == t.Keys
    && (forall c {:trigger s[c].value} {:trigger t[c]} :: c in t && t[c] == [] ==> s[c].value == leaf[c])
    && (forall c {:trigger PowerRight(t, rank, leaf, s, c)} :: c in t && c !in busy ==> PowerRight(t, rank, leaf, s, c))
  }

  // The contract of an update, on an acyclic hierarchy.
  ghost predicate PowerSettled(t: Tree, rank: map<Cell, nat>, leaf: map<Cell, real>, busy: set<Cell>, s: map<Cell, Power>, s': map<Cell, Power>, c: Cell) {
    PowersOk(t, rank, leaf, s, busy) && c in t && (forall b :: b in busy && b in t ==> rank[c] < rank[b]) ==>
      PowersOk(t, rank, leaf, s', busy) && s'[c].clean
  }

  // While c is recomputed, the first n instances' cells are settled and added up.
  ghost predicate Adding(t: Tree, rank: map<Cell, nat>, leaf: map<Cell, real>, busy: set<Cell>, s: map<Cell, Power>, s': map<Cell, Power>,
                         c: Cell, n: nat, pwr: real) {
    PowersOk(t, rank, leaf, s, busy) && c in t && (forall b :: b in busy && b in t ==> rank[c] < rank[b]) ==>
      && PowersOk(t, rank, leaf, s', busy + {c}) && s'[c].clean
      && n <= |t[c]| && pwr == PartTotal(t, rank, leaf, c, n)
  }

  lemma {:induction false} AddingStarts(t: Tree, rank: map<Cell, nat>, leaf: map<Cell, real>, busy: set<Cell>, s: map<Cell, Power>, c: Cell)
    requires c in s
    ensures Adding(t, rank, leaf, busy, s, s[c := Power(true, s[c].value)], c, 0, 0.0)
  {
    var s' := s[c := Power(true, s[c].value)];
    if PowersOk(t, rank, leaf, s, busy) && c in t {
      forall d {:trigger PowerRight(t, rank, leaf, s', d)} | d in t && d !in busy + {c} ensures PowerRight(t, rank, leaf, s', d) {
        assert PowerRight(t, rank, leaf, s, d);
      }
    }
  }

  lemma {:induction false} AddingStep(t: Tree, rank: map<Cell, nat>, leaf: map<Cell, real>, busy: set<Cell>, s: map<Cell, Power>,
                                      s': map<Cell, Power>, s'': map<Cell, Power>, c: Cell, n: nat, pwr: real)
    requires Adding(t, rank, leaf, busy, s, s', c, n, pwr) && c in t && n < |t[c]| && t[c][n].cell in s'' && c in s' && c in s''
    requires PowerSettled(t, rank, leaf, busy + {c}, s', s'', t[c][n].cell) && DirtyPowers(s'') <= DirtyPowers(s')
    ensures Adding(t, rank, leaf, busy, s, s'', c, n + 1, pwr + s''[t[c][n].cell].value)
  {
    if PowersOk(t, rank, leaf, s, busy) && forall b :: b in busy && b in t ==> rank[c] < rank[b] {
      var d := t[c][n].cell;
      assert d !in busy + {c} && c !in DirtyPowers(s');
      assert PowerRight(t, rank, leaf, s'', d);
    }
  }

  lemma {:induction false} AddingDone(t: Tree, rank: map<Cell, nat>, leaf: map<Cell, real>, busy: set<Cell>, s: map<Cell, Power>,
                                      s': map<Cell, Power>, c: Cell, pwr: real)
    requires c in t && c in s' && t[c] != [] && Adding(t, rank, leaf, busy, s, s', c, |t[c]|, pwr)
    ensures PowerSettled(t, rank, leaf, busy, s, s'[c := Power(s'[c].clean, pwr)], c)
  {
    var u := s'[c := Power(s'[c].clean, pwr)];
    if PowersOk(t, rank, leaf, s, busy) && forall b :: b in busy && b in t ==> rank[c] < rank[b] {
      TotalRecurrence(t, rank, leaf, c);
      forall d {:trigger PowerRight(t, rank, leaf, u, d)} | d in t && d !in busy ensures PowerRight(t, rank, leaf, u, d) {
        assert d != c ==> PowerRight(t, rank, leaf, s', d);
      }
    }
  }

  lemma {:induction false} LeafSettles(t: Tree, rank: map<Cell, nat>, leaf: map<Cell, real>, busy: set<Cell>, s: map<Cell, Power>, c: Cell)
    requires c in t && c in s && t[c] == []
    ensures PowerSettled(t, rank, leaf, busy, s, s[c := Power(true, s[c].value)], c)
  {
    var u := s[c := Power(true, s[c].value)];
    if PowersOk(t, rank, leaf, s, busy) {
      TotalRecurrence(t, rank, leaf, c);
      forall d {:trigger PowerRight(t, rank, leaf, u, d)} | d in t && d !in busy ensures PowerRight(t, rank, leaf, u, d) {
        assert d != c ==> PowerRight(t, rank, leaf, s, d);
      }
    }
  }

  method ClearPower(cell: Cell, ghost cells: set<Cell>)
    requires cell in cells
    modifies cell`invalid
    ensures Powers(cells) == old(Powers(cells))[cell := Power(true, cell.leakagePower)]
    ensures CellRests(cells, POWER_LKG) == old(CellRests(cells, POWER_LKG))
  {
    ghost var m, rests := Powers(cells), CellRests(cells, POWER_LKG);
    assert rests[cell] == CellRest(cell, POWER_LKG);
    cell.invalid := cell.invalid - {POWER_LKG};
    assert CellRest(cell, POWER_LKG) == old(CellRest(cell, POWER_LKG));
    SameMap(rests, CellRests(cells, POWER_LKG));
    assert Powers(cells)[cell] == PowerOf(cell);
    OneChanged(m, Powers(cells), cell);
  }

  method StorePower(cell: Cell, pwr: real, ghost cells: set<Cell>)
    requires cell in cells
    modifies cell`leakagePower
    ensures Powers(cells) == old(Powers(cells))[cell := Power(old(Powers(cells))[cell].clean, pwr)]
    ensures CellRests(cells, POWER_LKG) == old(CellRests(cells, POWER_LKG))
  {
    ghost var m := Powers(cells);
    assert m[cell] == PowerOf(cell);
    cell.leakagePower := pwr;
    assert Powers(cells)[cell] == PowerOf(cell);
    OneChanged(m, Powers(cells), cell);
  }

  /** phx_cell_update for the leakage power.  Terminates on every instantiation graph. */
  method UpdateLeakage(cell: Cell, ghost cells: set<Cell>, ghost t: Tree, ghost rank: map<Cell, nat>, ghost leaf: map<Cell, real>, ghost busy: set<Cell>)
    requires t == TreeOf(cells) && Linked(t) && cell in cells
    modifies cells`invalid, cells`leakagePower
    ensures PowerSettled(t, rank, leaf, busy, old(Powers(cells)), Powers(cells), cell)
    ensures DirtyPowers(Powers(cells)) <= old(DirtyPowers(Powers(cells))) - {cell}
    ensures CellRests(cells, POWER_LKG) == old(CellRests(cells, POWER_LKG))
    decreases DirtyPowers(Powers(cells)), 1
  {
    assert Powers(cells)[cell] == PowerOf(cell);
    if POWER_LKG in cell.invalid {
      UpdateLeakagePower(cell, cells, t, rank, leaf, busy);
    }
  }

  /** phx_cell_update_leakage_power: a cell without instances keeps its own value. */
  method UpdateLeakagePower(cell: Cell, ghost cells: set<Cell>, ghost t: Tree, ghost rank: map<Cell, nat>, ghost leaf: map<Cell, real>, ghost busy: set<Cell>)
    requires t == TreeOf(cells) && Linked(t) && cell in cells && cell in DirtyPowers(Powers(cells))
    modifies cells`invalid, cells`leakagePower
    ensures PowerSettled(t, rank, leaf, busy, old(Powers(cells)), Powers(cells), cell)
    ensures DirtyPowers(Powers(cells)) <= old(DirtyPowers(Powers(cells))) - {cell}
    ensures CellRests(cells, POWER_LKG) == old(CellRests(cells, POWER_LKG))
    decreases DirtyPowers(Powers(cells)), 0
  {
    hide Acyclic;
    ghost var s := Powers(cells);
    assert s[cell] == PowerOf(cell);
    ClearPower(cell, cells);
    if cell.insts == [] {
      LeafSettles(t, rank, leaf, busy, s, cell);
      return;
    }
    AddingStarts(t, rank, leaf, busy, s, cell);
    var pwr := 0.0;
    var u := 0;
    while u < |cell.insts|
      invariant u <= |cell.insts| && t == TreeOf(cells) && CellRests(cells, POWER_LKG) == old(CellRests(cells, POWER_LKG))
      invariant Adding(t, rank, leaf, busy, s, Powers(cells), cell, u, pwr)
      invariant DirtyPowers(Powers(cells)) <= DirtyPowers(s) - {cell}
      decreases |cell.insts| - u
    {
      pwr := AddInstance(cell, u, pwr, cells, t, rank, leaf, busy, s);
      u := u + 1;
    }
    ghost var s' := Powers(cells);
    StorePower(cell, pwr, cells);
    AddingDone(t, rank, leaf, busy, s, s', cell, pwr);
  }

  // The body of the loop over the instances.
  method AddInstance(cell: Cell, u: nat, pwr: real, ghost cells: set<Cell>, ghost t: Tree, ghost rank: map<Cell, nat>,
                     ghost leaf: map<Cell, real>, ghost busy: set<Cell>, ghost s: map<Cell, Power>) returns (sum: real)
    requires t == TreeOf(cells) && Linked(t) && cell in cells && u < |cell.insts|
    requires Adding(t, rank, leaf, busy, s, Powers(cells), cell, u, pwr)
    modifies cells`invalid, cells`leakagePower
    ensures Adding(t, rank, leaf, busy, s, Powers(cells), cell, u + 1, sum)
    ensures DirtyPowers(Powers(cells)) <= old(DirtyPowers(Powers(cells)))
    ensures CellRests(cells, POWER_LKG) == old(CellRests(cells, POWER_LKG))
    decreases DirtyPowers(Powers(cells)), 2
  {
    ghost var s' := Powers(cells);
    var inst := cell.insts[u];
    assert t[cell][u] == inst;
    UpdateLeakage(inst.cell, cells, t, rank, leaf, busy + {cell});
    assert Powers(cells)[inst.cell] == PowerOf(inst.cell);
    AddingStep(t, rank, leaf, busy, s, s', Powers(cells), cell, u, pwr);
    sum := pwr + inst.cell.leakagePower;
  }

  /** From all cells dirty, or after any earlier updates: a cell's leakage is the sum over
      all its instance paths. */
  method Refresh(cell: Cell, ghost cells: set<Cell>, ghost rank: map<Cell, nat>, ghost leaf: map<Cell, real>)
    requires cell in cells && PowersOk(TreeOf(cells), rank, leaf, Powers(cells), {})
    modifies cells`invalid, cells`leakagePower
    ensures PowersOk(TreeOf(cells), rank, leaf, Powers(cells), {}) && TreeOf(cells) == old(TreeOf(cells))
    ensures cell.leakagePower == Total(TreeOf(cells), rank, leaf, cell)
  {
    ghost var t := TreeOf(cells);
    UpdateLeakage(cell, cells, t, rank, leaf, {});
    assert PowerRight(t, rank, leaf, Powers(cells), cell) && Powers(cells)[cell] == PowerOf(cell);
  }

  /** The start: every cell dirty, the leaf powers as given. */
  lemma {:induction false} AllDirtyIsOk(cells: set<Cell>, rank: map<Cell, nat>)
    requires Acyclic(TreeOf(cells), rank) && forall c :: c in cells ==> POWER_LKG in c.invalid
    ensures PowersOk(TreeOf(cells), rank, map c | c in cells :: c.leakagePower, Powers(cells), {})
  {
    var t, leaf, s := TreeOf(cells), map c | c in cells :: c.leakagePower, Powers(cells);
    forall c {:trigger PowerRight(t, rank, leaf, s, c)} | c in t ensures PowerRight(t, rank, leaf, s, c) {
      assert s[c] == PowerOf(c);
    }
    forall c {:trigger s[c].value} | c in t ensures s[c].value == leaf[c] {
      assert s[c] == PowerOf(c);
    }
  }
}
