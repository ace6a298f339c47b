/** The timing arcs of a cell: an array sorted by the two pins' addresses, searched by
    bisection (phx_cell_get_timing_arc, phx_cell_set_timing_table). */
module CellArcs {
  import opened Marks
  import opened Design
  import opened Invalidation

  datatype TableKind = DelayTable | TransitionTable

  /** The tables by the two pins of their arc. */
  type ArcTables = map<(Pin, Pin?), (TimingTable, TimingTable)>

  /** Where the pins are in memory; the null pin comes first or anywhere else. */
  type Addresses = map<Pin?, nat>

  ghost predicate Distinct(at: Addresses) {
    forall p, q {:trigger at[p], at[q]} :: p in at && q in at && at[p] == at[q] ==> p == q
  }

  predicate Before(at: Addresses, p: Pin, r: Pin?, q: Pin, s: Pin?)
    requires p in at && r in at && q in at && s in at
  {
    at[p] < at[q] || (at[p] == at[q] && at[r] < at[s])
  }

  ghost predicate Known(at: Addresses, arcs: seq<CellArc>) {
    forall i :: 0 <= i < |arcs| ==> arcs[i].pin in at && arcs[i].related in at
  }

  ghost predicate Sorted(at: Addresses, arcs: seq<CellArc>) {
    && Known(at, arcs)
    && forall i, j :: 0 <= i < j < |arcs| ==> Before(at, arcs[i].pin, arcs[i].related, arcs[j].pin, arcs[j].related)
  }

  predicate HasKey(arc: CellArc, p: Pin, r: Pin?) {
    arc.pin == p && arc.related == r
  }

  /** The array as a map from pairs of pins to tables: the later entry counts. */
  function ArcMap(arcs: seq<CellArc>): (m: ArcTables) {
    if arcs == [] then map[]
    else
      var a := arcs[|arcs| - 1];
      ArcMap(arcs[..|arcs| - 1])[(a.pin, a.related) := (a.delay, a.transition)]
  }

  ghost predicate Stored(arcs: seq<CellArc>, p: Pin, r: Pin?) {
    exists i :: 0 <= i < |arcs| && HasKey(arcs[i], p, r)
  }

  /** The search finds the arc if there is one, and else the place where it belongs. */
  method Search(arcs: seq<CellArc>, p: Pin, r: Pin?, at: Addresses) returns (found: bool, pos: nat)
    requires Distinct(at) && Sorted(at, arcs) && p in at && r in at
    ensures pos <= |arcs| && found == Stored(arcs, p, r)
    ensures found ==> pos < |arcs| && HasKey(arcs[pos], p, r)
    ensures !found ==> forall i :: 0 <= i < pos ==> Before(at, arcs[i].pin, arcs[i].related, p, r)
    ensures !found ==> forall i :: pos <= i < |arcs| ==> Before(at, p, r, arcs[i].pin, arcs[i].related)
  {
    var start, end := 0, |arcs|;
    while start < end
      invariant start <= end <= |arcs|
      invariant forall i :: 0 <= i < start ==> Before(at, arcs[i].pin, arcs[i].related, p, r)
      invariant forall i :: end <= i < |arcs| ==> Before(at, p, r, arcs[i].pin, arcs[i].related)
    {
      var mid := start + (end - start) / 2;
      if Before(at, p, r, arcs[mid].pin, arcs[mid].related) {
        end := mid;
      } else if Before(at, arcs[mid].pin, arcs[mid].related, p, r) {
        start := mid + 1;
      } else {
        assert at[p] == at[arcs[mid].pin] && at[r] == at[arcs[mid].related];
        return true, mid;
      }
    }
    return false, start;
  }

  function Set(m: ArcTables, a: CellArc): ArcTables {
    m[(a.pin, a.related) := (a.delay, a.transition)]
  }

  // What is held for two pins.
  function Held(m: ArcTables, p: Pin, r: Pin?): (TimingTable, TimingTable) {
    if (p, r) in m then m[(p, r)] else (NoTable, NoTable)
  }

  function TableOf(tables: (TimingTable, TimingTable), kind: TableKind): TimingTable {
    match kind
    case DelayTable => tables.0
    case TransitionTable => tables.1
  }

  function Put(m: ArcTables, p: Pin, r: Pin?, kind: TableKind, table: TimingTable): ArcTables {
    m[(p, r) := if kind == DelayTable then (table, Held(m, p, r).1) else (Held(m, p, r).0, table)]
  }

  /** phx_cell_get_timing_arc: an arc that is not there is inserted, without tables. */
  method GetArc(cell: Cell, p: Pin, r: Pin?, at: Addresses, ghost w: World) returns (pos: nat)
    requires Distinct(at) && Sorted(at, cell.arcs) && p in at && r in at
    modifies cell`arcs
    ensures Sorted(at, cell.arcs) && pos < |cell.arcs| && HasKey(cell.arcs[pos], p, r)
    ensures (cell.arcs[pos].delay, cell.arcs[pos].transition) == Held(old(ArcMap(cell.arcs)), p, r)
    ensures ArcMap(cell.arcs) == old(ArcMap(cell.arcs))[(p, r) := Held(old(ArcMap(cell.arcs)), p, r)]
    ensures Invalid(w) == old(Invalid(w)) && Graph(w) == old(Graph(w))
  {
    hide ArcMap;
    var found;
    found, pos := Search(cell.arcs, p, r, at);
    ghost var was := cell.arcs;
    if found {
      FoundInMap(at, was, pos);
    } else {
      var arc := CellArc(p, r, NoTable, NoTable);
      cell.arcs := cell.arcs[..pos] + [arc] + cell.arcs[pos..];
      InsertInMap(at, was[..pos], was[pos..], arc);
      assert was == was[..pos] + was[pos..];
      NotInMap(was, p, r);
    }
  }

  lemma {:induction false} FoundInMap(at: Addresses, arcs: seq<CellArc>, pos: nat)
    requires Sorted(at, arcs) && pos < |arcs|
    ensures ArcMap(arcs) == Set(ArcMap(arcs), arcs[pos])
  {
    ReplaceInMap(at, arcs, pos, arcs[pos]);
    assert arcs[pos := arcs[pos]] == arcs;
  }

  lemma {:induction false} NotInMap(arcs: seq<CellArc>, p: Pin, r: Pin?)
    requires !Stored(arcs, p, r)
    ensures (p, r) !in ArcMap(arcs)
  {
    if arcs != [] {
      var n := |arcs| - 1;
      assert !HasKey(arcs[n], p, r);
      forall i | 0 <= i < n ensures !HasKey(arcs[..n][i], p, r) {
        assert arcs[..n][i] == arcs[i];
      }
      NotInMap(arcs[..n], p, r);
    }
  }

  /** phx_cell_set_timing_table: the arc is found, or inserted where the order wants it, and no
      other table changes; unless it was set already, the cell and what is above it get dirty. */
  method SetTable(cell: Cell, p: Pin, r: Pin?, kind: TableKind, table: TimingTable, at: Addresses, ghost w: World, ghost up: map<Node, set<Node>>)
    requires Distinct(at) && Sorted(at, cell.arcs) && p in at && r in at && table != NoTable
    requires up == Graph(w) && IsGraph(up) && cell in w.cells
    modifies cell`arcs, w.cells`invalid, w.insts`invalid
    ensures Sorted(at, cell.arcs) && ArcMap(cell.arcs) == Put(old(ArcMap(cell.arcs)), p, r, kind, table)
    ensures if TableOf(Held(old(ArcMap(cell.arcs)), p, r), kind) == table then Invalid(w) == old(Invalid(w))
            else Spread(up, old(Invalid(w)), Invalid(w), CellNode(cell), {TIMING})
  {
    hide ArcMap, Spread, Distinct, Sorted, Invalid, Graph, Held, Put;
    PutStored(ArcMap(cell.arcs), p, r, kind, table);
    var pos := GetArc(cell, p, r, at, w);
    var slot := if kind == DelayTable then cell.arcs[pos].delay else cell.arcs[pos].transition;
    if slot != table {
      StoreTable(cell, pos, kind, table, at, w);
      InvalidateCell(cell, {TIMING}, w, up);
    }
  }

  lemma {:induction false} PutStored(m: ArcTables, p: Pin, r: Pin?, kind: TableKind, table: TimingTable)
    ensures var (delay, transition) := Held(m, p, r);
            var found := m[(p, r) := (delay, transition)];
            && Put(m, p, r, kind, table) == found[(p, r) := if kind == DelayTable then (table, transition) else (delay, table)]
            && (TableOf((delay, transition), kind) == table ==> Put(m, p, r, kind, table) == found)
  {
  }

  method StoreTable(cell: Cell, pos: nat, kind: TableKind, table: TimingTable, at: Addresses, ghost w: World)
    requires Sorted(at, cell.arcs) && pos < |cell.arcs|
    modifies cell`arcs
    ensures Sorted(at, cell.arcs)
    ensures var arc, m := old(cell.arcs[pos]), old(ArcMap(cell.arcs));
            ArcMap(cell.arcs) == m[(arc.pin, arc.related) := if kind == DelayTable then (table, arc.transition) else (arc.delay, table)]
    ensures Invalid(w) == old(Invalid(w)) && Graph(w) == old(Graph(w))
  {
    hide ArcMap;
    ghost var was := cell.arcs;
    var arc := if kind == DelayTable then cell.arcs[pos].(delay := table) else cell.arcs[pos].(transition := table);
    cell.arcs := cell.arcs[pos := arc];
    ReplaceInMap(at, was, pos, arc);
  }

  lemma {:induction false} ReplaceInMap(at: Addresses, arcs: seq<CellArc>, pos: nat, arc: CellArc)
    requires Sorted(at, arcs) && pos < |arcs| && HasKey(arcs[pos], arc.pin, arc.related)
    ensures ArcMap(arcs[pos := arc]) == Set(ArcMap(arcs), arc)
  {
    var n := |arcs| - 1;
    if pos < n {
      ReplaceInMap(at, arcs[..n], pos, arc);
      assert arcs[pos := arc][..n] == arcs[..n][pos := arc];
      assert Before(at, arcs[pos].pin, arcs[pos].related, arcs[n].pin, arcs[n].related);
      SetSwaps(ArcMap(arcs[..n]), arc, arcs[n]);
    } else {
      assert arcs[pos := arc][..n] == arcs[..n];
    }
  }

  lemma {:induction false} SetSwaps(m: ArcTables, a: CellArc, b: CellArc)
    requires !HasKey(a, b.pin, b.related)
    ensures Set(Set(m, a), b) == Set(Set(m, b), a)
  {
  }

  lemma {:induction false} InsertInMap(at: Addresses, a: seq<CellArc>, b: seq<CellArc>, arc: CellArc)
    requires Known(at, a) && Known(at, b) && arc.pin in at && arc.related in at
    requires forall i :: 0 <= i < |b| ==> Before(at, arc.pin, arc.related, b[i].pin, b[i].related)
    ensures ArcMap(a + [arc] + b) == Set(ArcMap(a + b), arc)
  {
    if b == [] {
      assert a + [arc] + b == a + [arc] && a + b == a;
      assert (a + [arc])[..|a|] == a;
    } else {
      var n := |b| - 1;
      InsertInMap(at, a, b[..n], arc);
      assert (a + [arc] + b)[..|a| + 1 + n] == a + [arc] + b[..n];
      assert (a + b)[..|a| + n] == a + b[..n];
      SetSwaps(ArcMap(a + b[..n]), arc, b[n]);
    }
  }

  // --- Pushing the arcs of an exposed net --------------------------------------

  /** Of several arcs from the same input pin the last one stays. */
  function PushAll(m: ArcTables, pin: Pin, net: seq<NetArc>): (r: ArcTables) {
    if net == [] then m
    else
      var x := net[|net| - 1];
      PushAll(m, pin, net[..|net| - 1])[(pin, x.related) := (x.delay, x.transition)]
  }

  lemma {:induction false} PushedElsewhere(m: ArcTables, pin: Pin, net: seq<NetArc>, p: Pin, r: Pin?)
    requires p != pin || forall i :: 0 <= i < |net| ==> net[i].related != r
    ensures (p, r) in PushAll(m, pin, net) <==> (p, r) in m
    ensures (p, r) in m ==> PushAll(m, pin, net)[(p, r)] == m[(p, r)]
  {
    if net != [] {
      PushedElsewhere(m, pin, net[..|net| - 1], p, r);
    }
  }

  lemma {:induction false} PushedLast(m: ArcTables, pin: Pin, net: seq<NetArc>, i: nat)
    requires i < |net| && forall j :: i < j < |net| ==> net[j].related != net[i].related
    ensures (pin, net[i].related) in PushAll(m, pin, net)
    ensures PushAll(m, pin, net)[(pin, net[i].related)] == (net[i].delay, net[i].transition)
  {
    if i < |net| - 1 {
      PushedLast(m, pin, net[..|net| - 1], i);
    }
  }

  /** What pushing does to the marks: only timing marks come, and the cell gets one when a table changes. */
  ghost predicate MarksFollow(w: World, cell: Cell, marks: map<Node, set<Bit>>, tables: ArcTables)
    reads w.cells`invalid, w.insts`invalid, cell`arcs, cell`invalid
  {
    Gains(marks, Invalid(w), {TIMING}) && (ArcMap(cell.arcs) == tables || TIMING in cell.invalid)
  }

  // One arc of the net: its transition, then its delay.
  method PushArc(cell: Cell, pin: Pin, arc: NetArc, at: Addresses, ghost w: World, ghost up: map<Node, set<Node>>,
                 ghost marks: map<Node, set<Bit>>, ghost tables: ArcTables)
    requires Distinct(at) && Sorted(at, cell.arcs) && pin in at && arc.related in at && arc.delay != NoTable && arc.transition != NoTable
    requires up == Graph(w) && IsGraph(up) && cell in w.cells && MarksFollow(w, cell, marks, tables)
    modifies cell`arcs, w.cells`invalid, w.insts`invalid
    ensures Sorted(at, cell.arcs) && ArcMap(cell.arcs) == old(ArcMap(cell.arcs))[(pin, arc.related) := (arc.delay, arc.transition)]
    ensures MarksFollow(w, cell, marks, tables)
  {
    hide ArcMap, MarksFollow, Put, Sorted, Distinct;
    PutBoth(ArcMap(cell.arcs), pin, arc);
    PushTable(cell, pin, arc.related, TransitionTable, arc.transition, at, w, up, marks, tables);
    PushTable(cell, pin, arc.related, DelayTable, arc.delay, at, w, up, marks, tables);
  }

  method PushTable(cell: Cell, p: Pin, r: Pin?, kind: TableKind, table: TimingTable, at: Addresses, ghost w: World, ghost up: map<Node, set<Node>>,
                   ghost marks: map<Node, set<Bit>>, ghost tables: ArcTables)
    requires Distinct(at) && Sorted(at, cell.arcs) && p in at && r in at && table != NoTable
    requires up == Graph(w) && IsGraph(up) && cell in w.cells && MarksFollow(w, cell, marks, tables)
    modifies cell`arcs, w.cells`invalid, w.insts`invalid
    ensures Sorted(at, cell.arcs) && ArcMap(cell.arcs) == Put(old(ArcMap(cell.arcs)), p, r, kind, table)
    ensures MarksFollow(w, cell, marks, tables)
  {
    hide ArcMap, Spread;
    ghost var m, was := Invalid(w), ArcMap(cell.arcs);
    assert m[CellNode(cell)] == cell.invalid;
    SetTable(cell, p, r, kind, table, at, w, up);
    assert Invalid(w)[CellNode(cell)] == cell.invalid;
    if TableOf(Held(was, p, r), kind) == table {
      PutSame(was, p, r, kind, table);
    } else {
      SpreadGains(up, m, Invalid(w), CellNode(cell), {TIMING});
      GainsMore(marks, m, Invalid(w), {TIMING});
      SpreadMarks(up, m, Invalid(w), CellNode(cell), {TIMING});
    }
  }

  lemma {:induction false} PutBoth(m: ArcTables, pin: Pin, arc: NetArc)
    ensures Put(Put(m, pin, arc.related, TransitionTable, arc.transition), pin, arc.related, DelayTable, arc.delay)
            == m[(pin, arc.related) := (arc.delay, arc.transition)]
  {
  }

  lemma {:induction false} PutSame(m: ArcTables, p: Pin, r: Pin?, kind: TableKind, table: TimingTable)
    requires TableOf(Held(m, p, r), kind) == table != NoTable
    ensures Put(m, p, r, kind, table) == m
  {
  }

  lemma {:induction false} SpreadMarks<N>(up: map<N, set<N>>, m: map<N, set<Bit>>, m': map<N, set<Bit>>, c: N, bits: set<Bit>)
    requires Spread(up, m, m', c, bits)
    ensures c in m' && bits <= m'[c]
  {
  }

  ghost predicate FullArcs(at: Addresses, net: seq<NetArc>) {
    forall i :: 0 <= i < |net| ==> net[i].related in at && net[i].delay != NoTable && net[i].transition != NoTable
  }

  /** The loop over the net's arcs for one of the cell's pins. */
  method PushPin(cell: Cell, pin: Pin, net: seq<NetArc>, at: Addresses, ghost w: World, ghost up: map<Node, set<Node>>,
                 ghost marks: map<Node, set<Bit>>, ghost tables: ArcTables)
    requires Distinct(at) && Sorted(at, cell.arcs) && pin in at && FullArcs(at, net)
    requires up == Graph(w) && IsGraph(up) && cell in w.cells && MarksFollow(w, cell, marks, tables)
    modifies cell`arcs, w.cells`invalid, w.insts`invalid
    ensures Sorted(at, cell.arcs) && ArcMap(cell.arcs) == PushAll(old(ArcMap(cell.arcs)), pin, net)
    ensures MarksFollow(w, cell, marks, tables)
  {
    hide ArcMap, MarksFollow;
    for u := 0 to |net|
      invariant Sorted(at, cell.arcs) && ArcMap(cell.arcs) == PushAll(old(ArcMap(cell.arcs)), pin, net[..u])
      invariant MarksFollow(w, cell, marks, tables)
    {
      PushArc(cell, pin, net[u], at, w, up, marks, tables);
      assert net[..u + 1][..u] == net[..u];
    }
    assert net[..|net|] == net;
  }

  predicate OwnPin(cell: Cell, x: Terminal) {
    x.inst == null && x.pin.cell == cell
  }

  // The pushes for the cell's own pins among the terminals.
  function PushTerminals(m: ArcTables, cell: Cell, xs: seq<Terminal>, net: seq<NetArc>)
    : ArcTables
  {
    if xs == [] then m
    else
      var x, r := xs[|xs| - 1], PushTerminals(m, cell, xs[..|xs| - 1], net);
      if OwnPin(cell, x) then PushAll(r, x.pin, net) else r
  }

  /** Every arc of the net has its key under the pin, and the last arc of a related pin has its
      tables there. */
  predicate HasArcs(m: ArcTables, p: Pin, net: seq<NetArc>) {
    forall i :: 0 <= i < |net| ==>
      && (p, net[i].related) in m
      && ((forall j :: i < j < |net| ==> net[j].related != net[i].related) ==> m[(p, net[i].related)] == (net[i].delay, net[i].transition))
  }

  // The keys of pins other than the cell's own ones on the net are what they were.
  ghost predicate BesideKept(cell: Cell, xs: seq<Terminal>, m: ArcTables, m': ArcTables) {
    && m.Keys <= m'.Keys
    && forall k :: k in m' && (forall j :: 0 <= j < |xs| && xs[j].inst == null && xs[j].pin.cell == cell ==> xs[j].pin != k.0) ==>
         k in m && m'[k] == m[k]
  }

  lemma {:induction false} PushHasArcs(m: ArcTables, pin: Pin, net: seq<NetArc>)
    ensures HasArcs(PushAll(m, pin, net), pin, net)
  {
    forall i | 0 <= i < |net|
      ensures (pin, net[i].related) in PushAll(m, pin, net)
      ensures (forall j :: i < j < |net| ==> net[j].related != net[i].related) ==>
                PushAll(m, pin, net)[(pin, net[i].related)] == (net[i].delay, net[i].transition)
    {
      var k := LastOf(net, i);
      PushedLast(m, pin, net, k);
    }
  }

  // The last arc with the same related pin.
  lemma {:induction false} LastOf(net: seq<NetArc>, i: nat) returns (k: nat)
    requires i < |net|
    ensures i <= k < |net| && net[k].related == net[i].related && forall j :: k < j < |net| ==> net[j].related != net[i].related
    ensures (forall j :: i < j < |net| ==> net[j].related != net[i].related) ==> k == i
  {
    k := |net| - 1;
    if net[k].related != net[i].related {
      k := LastOf(net[..k], i);
    }
  }

  lemma {:induction false} PushKeepsArcs(m: ArcTables, pin: Pin, p: Pin, net: seq<NetArc>)
    requires HasArcs(m, p, net)
    ensures HasArcs(PushAll(m, pin, net), p, net)
  {
    if p == pin {
      PushHasArcs(m, pin, net);
    } else {
      forall i | 0 <= i < |net|
        ensures (p, net[i].related) in PushAll(m, pin, net) && PushAll(m, pin, net)[(p, net[i].related)] == m[(p, net[i].related)]
      {
        PushedElsewhere(m, pin, net, p, net[i].related);
      }
    }
  }

  lemma {:induction false} PushBeside(m: ArcTables, pin: Pin, net: seq<NetArc>)
    ensures m.Keys <= PushAll(m, pin, net).Keys
    ensures forall k :: k in PushAll(m, pin, net) && k.0 != pin ==> k in m && PushAll(m, pin, net)[k] == m[k]
  {
    if net != [] {
      PushBeside(m, pin, net[..|net| - 1]);
    }
  }

  /** What pushing amounts to, with the test for the cell's own pins written out. */
  lemma {:induction false} PushedSays(m: ArcTables, cell: Cell, xs: seq<Terminal>, net: seq<NetArc>)
    ensures forall j :: 0 <= j < |xs| && xs[j].inst == null && xs[j].pin.cell == cell ==> HasArcs(PushTerminals(m, cell, xs, net), xs[j].pin, net)
    ensures BesideKept(cell, xs, m, PushTerminals(m, cell, xs, net))
  {
    if xs != [] {
      hide HasArcs, BesideKept;
      var n := |xs| - 1;
      var r, r' := PushTerminals(m, cell, xs[..n], net), PushTerminals(m, cell, xs, net);
      PushedSays(m, cell, xs[..n], net);
      BesideStep(m, cell, xs, net);
      forall j | 0 <= j < |xs| && xs[j].inst == null && xs[j].pin.cell == cell ensures HasArcs(r', xs[j].pin, net) {
        if j == n {
          PushHasArcs(r, xs[n].pin, net);
        } else {
          assert xs[..n][j] == xs[j];
          PushKeepsArcs(r, xs[n].pin, xs[j].pin, net);
        }
      }
    }
  }

  lemma {:induction false} BesideStep(m: ArcTables, cell: Cell, xs: seq<Terminal>, net: seq<NetArc>)
    requires xs != [] && BesideKept(cell, xs[..|xs| - 1], m, PushTerminals(m, cell, xs[..|xs| - 1], net))
    ensures BesideKept(cell, xs, m, PushTerminals(m, cell, xs, net))
  {
    var n := |xs| - 1;
    var r := PushTerminals(m, cell, xs[..n], net);
    PushBeside(r, xs[n].pin, net);
    forall k | k in PushTerminals(m, cell, xs, net)
               && (forall j :: 0 <= j < |xs| && xs[j].inst == null && xs[j].pin.cell == cell ==> xs[j].pin != k.0)
      ensures k in m && PushTerminals(m, cell, xs, net)[k] == m[k]
    {
      assert k in r;
      forall j | 0 <= j < n && xs[..n][j].inst == null && xs[..n][j].pin.cell == cell ensures xs[..n][j].pin != k.0 {
        assert xs[..n][j] == xs[j];
      }
    }
  }

  /** The last loop of phx_net_update_timing: the arcs come under the cell's own pins on the net, and
      no other key changes. */
  method PushArcs(cell: Cell, xs: seq<Terminal>, net: seq<NetArc>, at: Addresses, ghost w: World, ghost up: map<Node, set<Node>>,
                  ghost marks: map<Node, set<Bit>>, ghost tables: ArcTables)
    requires (exists i :: 0 <= i < |xs| && OwnPin(cell, xs[i])) ==> FullArcs(at, net)
    requires Distinct(at) && Sorted(at, cell.arcs) && forall i :: 0 <= i < |xs| ==> xs[i].pin in at
    requires up == Graph(w) && IsGraph(up) && cell in w.cells && MarksFollow(w, cell, marks, tables)
    modifies cell`arcs, w.cells`invalid, w.insts`invalid
    ensures Sorted(at, cell.arcs) && ArcMap(cell.arcs) == PushTerminals(old(ArcMap(cell.arcs)), cell, xs, net)
    ensures forall j :: 0 <= j < |xs| && xs[j].inst == null && xs[j].pin.cell == cell ==> HasArcs(ArcMap(cell.arcs), xs[j].pin, net)
    ensures BesideKept(cell, xs, old(ArcMap(cell.arcs)), ArcMap(cell.arcs))
    ensures MarksFollow(w, cell, marks, tables)
  {
    hide ArcMap, MarksFollow, HasArcs, BesideKept;
    PushedSays(ArcMap(cell.arcs), cell, xs, net);
    for u := 0 to |xs|
      invariant Sorted(at, cell.arcs) && ArcMap(cell.arcs) == PushTerminals(old(ArcMap(cell.arcs)), cell, xs[..u], net)
      invariant MarksFollow(w, cell, marks, tables)
    {
      assert xs[..u + 1][..u] == xs[..u];
      if xs[u].pin.cell == cell && xs[u].inst == null {
        assert OwnPin(cell, xs[u]);
        PushPin(cell, xs[u].pin, net, at, w, up, marks, tables);
      }
    }
    assert xs[..|xs|] == xs;
  }
}
