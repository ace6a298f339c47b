/** The capacitance pass: a net adds up the pins of the instances on it and hands the sum
    to the cell's own pins, so that each exposed pin ends up with the sum of the leaf pins
    on its net, through all levels of the hierarchy. */
module Capacitance {
  import opened Marks
  import opened Design

  /** Instances and nets of each cell, and the terminals of each net. */
  datatype Netlist = Netlist(insts: map<Cell, seq<Inst>>, nets: map<Cell, seq<Net>>, conns: map<Net, seq<Terminal>>)

  // A terminal without an instance is a pin of the net's own cell.
  ghost predicate TerminalOk(k: Netlist, n: Net, x: Terminal, pins: set<Pin>)
    requires n.cell in k.insts
  {
    x.pin in pins && if x.inst == null then x.pin.cell == n.cell else x.inst in k.insts[n.cell] && x.pin.cell == x.inst.cell
  }

  ghost predicate NetOk(k: Netlist, n: Net, pins: set<Pin>)
    requires n in k.conns
  {
    && n.cell in k.insts && n.cell in k.nets && n in k.nets[n.cell]
    && forall j :: 0 <= j < |k.conns[n]| ==> TerminalOk(k, n, k.conns[n][j], pins)
  }

  ghost predicate CellLinked(k: Netlist, c: Cell)
    requires c in k.insts && c in k.nets
  {
    && (forall j :: 0 <= j < |k.insts[c]| ==> k.insts[c][j].cell in k.insts)
    && (forall j :: 0 <= j < |k.nets[c]| ==> k.nets[c][j] in k.conns && k.nets[c][j].cell == c)
  }

  ghost predicate Exposes(k: Netlist, n: Net, p: Pin) {
    n in k.conns && Terminal(null, p) in k.conns[n]
  }

  /** No pin is exposed by two nets; building the netlist connection by connection keeps this. */
  ghost predicate NetlistWired(k: Netlist, pins: set<Pin>) {
    && k.nets.Keys == k.insts.Keys
    && (forall c {:trigger CellLinked(k, c)} :: c in k.insts ==> CellLinked(k, c))
    && (forall n {:trigger NetOk(k, n, pins)} :: n in k.conns ==> NetOk(k, n, pins))
    && (forall m, n, p {:trigger Exposes(k, m, p), Exposes(k, n, p)} ::
          m in k.conns && n in k.conns && p in pins && Exposes(k, m, p) && Exposes(k, n, p) ==> m == n)
  }

  ghost predicate Acyclic(k: Netlist, rank: map<Cell, nat>) {
    && k.insts.Keys <= rank.Keys
    && forall c, j {:trigger k.insts[c][j]} :: c in k.insts && 0 <= j < |k.insts[c]| ==>
         k.insts[c][j].cell in rank && rank[k.insts[c][j].cell] < rank[c]
  }

  // --- From scratch --------------------------------------------------------

  ghost predicate IsExposed(k: Netlist, p: Pin) {
    exists n :: n in k.conns && Exposes(k, n, p)
  }

  ghost function ExposingNet(k: Netlist, p: Pin): (n: Net)
    requires IsExposed(k, p)
    ensures n in k.conns && Exposes(k, n, p)
  {
    var n :| n in k.conns && Exposes(k, n, p);
    n
  }

  /** The leaf pins on a net, found by following each terminal down its instance. */
  ghost function LeafPins(k: Netlist, pins: set<Pin>, rank: map<Cell, nat>, n: Net): (ps: seq<Pin>)
    requires NetlistWired(k, pins) && Acyclic(k, rank) && n in k.conns
    decreases (assert NetOk(k, n, pins); rank[n.cell]), |k.conns[n]| + 1
  {
    assert NetOk(k, n, pins);
    LeafPinsOf(k, pins, rank, n, |k.conns[n]|)
  }

  // The leaf pins behind the first j terminals.
  ghost function LeafPinsOf(k: Netlist, pins: set<Pin>, rank: map<Cell, nat>, n: Net, j: nat): (ps: seq<Pin>)
    requires NetlistWired(k, pins) && Acyclic(k, rank) && n in k.conns && j <= |k.conns[n]|
    decreases (assert NetOk(k, n, pins); rank[n.cell]), j
  {
    assert NetOk(k, n, pins);
    if j == 0 then []
    else
      var x := k.conns[n][j - 1];
      assert TerminalOk(k, n, x, pins);
      LeafPinsOf(k, pins, rank, n, j - 1) + (if x.inst == null then [] else (Below(k, rank, n, x, pins); Behind(k, pins, rank, x.pin)))
  }

  // A pin stands for itself, or for the leaf pins on the net that exposes it.
  ghost function Behind(k: Netlist, pins: set<Pin>, rank: map<Cell, nat>, p: Pin): (ps: seq<Pin>)
    requires NetlistWired(k, pins) && Acyclic(k, rank) && p in pins && p.cell in k.insts
    decreases rank[p.cell], (if IsExposed(k, p) then |k.conns[ExposingNet(k, p)]| else 0) + 2
  {
    if IsExposed(k, p) then
      var n := ExposingNet(k, p);
      ExposedIn(k, n, p, pins);
      LeafPins(k, pins, rank, n)
    else [p]
  }

  lemma {:induction false} ExposedIn(k: Netlist, n: Net, p: Pin, pins: set<Pin>)
    requires NetlistWired(k, pins) && n in k.conns && Exposes(k, n, p)
    ensures p in pins && p.cell == n.cell && NetOk(k, n, pins)
  {
    assert NetOk(k, n, pins);
    var j :| 0 <= j < |k.conns[n]| && k.conns[n][j] == Terminal(null, p);
    assert TerminalOk(k, n, k.conns[n][j], pins);
  }

  lemma {:induction false} Below(k: Netlist, rank: map<Cell, nat>, n: Net, x: Terminal, pins: set<Pin>)
    requires NetlistWired(k, pins) && Acyclic(k, rank) && n in k.conns && n.cell in k.insts && TerminalOk(k, n, x, pins) && x.inst != null
    ensures x.pin.cell in k.insts && rank[x.pin.cell] < rank[n.cell]
  {
    var j :| 0 <= j < |k.insts[n.cell]| && k.insts[n.cell][j] == x.inst;
    assert CellLinked(k, n.cell);
    assert k.insts[n.cell][j].cell in rank;
  }

  ghost function SumOf(ps: seq<Pin>, leaf: map<Pin, real>): real
    requires forall j :: 0 <= j < |ps| ==> ps[j] in leaf
  {
    if ps == [] then 0.0 else SumOf(ps[..|ps| - 1], leaf) + leaf[ps[|ps| - 1]]
  }

  lemma {:induction false} SumConcat(a: seq<Pin>, b: seq<Pin>, leaf: map<Pin, real>)
    requires forall j :: 0 <= j < |a| ==> a[j] in leaf
    requires forall j :: 0 <= j < |b| ==> b[j] in leaf
    ensures forall j :: 0 <= j < |a + b| ==> (a + b)[j] in leaf
    ensures SumOf(a + b, leaf) == SumOf(a, leaf) + SumOf(b, leaf)
  {
    if b == [] {
      assert a + b == a;
    } else {
      var n := |b| - 1;
      SumConcat(a, b[..n], leaf);
      assert (a + b)[..|a + b| - 1] == a + b[..n];
    }
  }

  lemma {:induction false} LeavesAreLeaves(k: Netlist, pins: set<Pin>, rank: map<Cell, nat>, n: Net, j: nat)
    requires NetlistWired(k, pins) && Acyclic(k, rank) && n in k.conns && j <= |k.conns[n]|
    ensures forall i :: 0 <= i < |LeafPinsOf(k, pins, rank, n, j)| ==>
              LeafPinsOf(k, pins, rank, n, j)[i] in pins && !IsExposed(k, LeafPinsOf(k, pins, rank, n, j)[i])
    decreases (assert NetOk(k, n, pins); rank[n.cell]), j
  {
    assert NetOk(k, n, pins);
    if j > 0 {
      LeavesAreLeaves(k, pins, rank, n, j - 1);
      var x := k.conns[n][j - 1];
      assert TerminalOk(k, n, x, pins);
      if x.inst != null {
        Below(k, rank, n, x, pins);
        LeavesBehind(k, pins, rank, x.pin);
      }
    }
  }

  lemma {:induction false} LeavesBehind(k: Netlist, pins: set<Pin>, rank: map<Cell, nat>, p: Pin)
    requires NetlistWired(k, pins) && Acyclic(k, rank) && p in pins && p.cell in k.insts
    ensures forall i :: 0 <= i < |Behind(k, pins, rank, p)| ==>
              Behind(k, pins, rank, p)[i] in pins && !IsExposed(k, Behind(k, pins, rank, p)[i])
    ensures forall n :: n in k.conns && Exposes(k, n, p) ==> Behind(k, pins, rank, p) == LeafPins(k, pins, rank, n)
    decreases rank[p.cell], (if IsExposed(k, p) then |k.conns[ExposingNet(k, p)]| else 0) + 2
  {
    if IsExposed(k, p) {
      var n := ExposingNet(k, p);
      ExposedIn(k, n, p, pins);
      LeavesAreLeaves(k, pins, rank, n, |k.conns[n]|);
      assert Behind(k, pins, rank, p) == LeafPins(k, pins, rank, n) == LeafPinsOf(k, pins, rank, n, |k.conns[n]|);
    }
  }

  /** The capacitance of a net, from scratch: the sum of the leaf pins on it. */
  ghost function FlatCap(k: Netlist, pins: set<Pin>, rank: map<Cell, nat>, leaf: map<Pin, real>, n: Net): real
    requires NetlistWired(k, pins) && Acyclic(k, rank) && n in k.conns && pins <= leaf.Keys
  {
    PartCap(k, pins, rank, leaf, n, |k.conns[n]|)
  }

  ghost function PartCap(k: Netlist, pins: set<Pin>, rank: map<Cell, nat>, leaf: map<Pin, real>, n: Net, j: nat): real
    requires NetlistWired(k, pins) && Acyclic(k, rank) && n in k.conns && j <= |k.conns[n]| && pins <= leaf.Keys
  {
    LeavesAreLeaves(k, pins, rank, n, j);
    SumOf(LeafPinsOf(k, pins, rank, n, j), leaf)
  }

  // What a pin has to read when its cell is up to date.
  ghost function PinValue(k: Netlist, pins: set<Pin>, rank: map<Cell, nat>, leaf: map<Pin, real>, p: Pin): real
    requires NetlistWired(k, pins) && Acyclic(k, rank) && p in pins && p.cell in k.insts && pins <= leaf.Keys
  {
    LeavesBehind(k, pins, rank, p);
    SumOf(Behind(k, pins, rank, p), leaf)
  }

  lemma {:induction false} PinValueIs(k: Netlist, pins: set<Pin>, rank: map<Cell, nat>, leaf: map<Pin, real>, p: Pin)
    requires NetlistWired(k, pins) && Acyclic(k, rank) && p in pins && p.cell in k.insts && pins <= leaf.Keys
    ensures !IsExposed(k, p) ==> PinValue(k, pins, rank, leaf, p) == leaf[p]
    ensures forall n :: n in k.conns && Exposes(k, n, p) ==> PinValue(k, pins, rank, leaf, p) == FlatCap(k, pins, rank, leaf, n)
  {
    LeavesBehind(k, pins, rank, p);
    if !IsExposed(k, p) {
      assert [p][..0] == [];
      assert SumOf([p], leaf) == SumOf([], leaf) + leaf[p];
    }
    forall n | n in k.conns && Exposes(k, n, p) ensures PinValue(k, pins, rank, leaf, p) == FlatCap(k, pins, rank, leaf, n) {
      assert LeafPins(k, pins, rank, n) == LeafPinsOf(k, pins, rank, n, |k.conns[n]|);
    }
  }

  /** One terminal's share of its net's capacitance. */
  lemma {:induction false} PartCapStep(k: Netlist, pins: set<Pin>, rank: map<Cell, nat>, leaf: map<Pin, real>, n: Net, j: nat)
    requires NetlistWired(k, pins) && Acyclic(k, rank) && n in k.conns && j < |k.conns[n]| && pins <= leaf.Keys
    ensures var x := k.conns[n][j];
            && x.pin in pins && (x.inst != null ==> x.pin.cell in k.insts)
            && PartCap(k, pins, rank, leaf, n, j + 1) ==
               PartCap(k, pins, rank, leaf, n, j) + (if x.inst == null then 0.0 else PinValue(k, pins, rank, leaf, x.pin))
  {
    assert NetOk(k, n, pins);
    var x := k.conns[n][j];
    assert TerminalOk(k, n, x, pins);
    LeavesAreLeaves(k, pins, rank, n, j);
    if x.inst == null {
      assert LeafPinsOf(k, pins, rank, n, j) + [] == LeafPinsOf(k, pins, rank, n, j);
    } else {
      Below(k, rank, n, x, pins);
      LeavesBehind(k, pins, rank, x.pin);
      SumConcat(LeafPinsOf(k, pins, rank, n, j), Behind(k, pins, rank, x.pin), leaf);
    }
  }

  // --- The caches ------------------------------------------------------------------

  datatype Caps = Caps(clean: map<Cell, bool>, pins: map<Pin, real>, nets: map<Net, real>)

  ghost predicate NetRight(k: Netlist, pins: set<Pin>, rank: map<Cell, nat>, leaf: map<Pin, real>, s: Caps, n: Net)
    requires NetlistWired(k, pins) && Acyclic(k, rank) && n in k.conns && pins <= leaf.Keys && n in s.nets && s.pins.Keys == pins
  {
    && s.nets[n] == FlatCap(k, pins, rank, leaf, n)
    && forall p :: p in pins && Exposes(k, n, p) ==> s.pins[p] == FlatCap(k, pins, rank, leaf, n)
  }

  /** The nets of a clean cell, and the pins they expose, carry the flattened sum; the cells
      being recomputed are exempt.  Unexposed pins keep their own value. */
  ghost predicate CapsOk(k: Netlist, pins: set<Pin>, rank: map<Cell, nat>, leaf: map<Pin, real>, s: Caps, busy: set<Cell>) {
    && NetlistWired(k, pins) && Acyclic(k, rank) && pins <= leaf.Keys
    && s.clean.Keys == k.insts.Keys && s.pins.Keys == pins && s.nets.Keys == k.conns.Keys
    && (forall p {:trigger s.pins[p]} :: p in pins && !IsExposed(k, p) ==> s.pins[p] == leaf[p])
    && (forall n {:trigger NetRight(k, pins, rank, leaf, s, n)} :: n in k.conns && n.cell in s.clean && s.clean[n.cell] && n.cell !in busy ==>
          NetRight(k, pins, rank, leaf, s, n))
  }

  // In a clean cell every pin reads what it has to.
  lemma {:induction false} PinReads(k: Netlist, pins: set<Pin>, rank: map<Cell, nat>, leaf: map<Pin, real>, s: Caps, busy: set<Cell>, p: Pin)
    requires CapsOk(k, pins, rank, leaf, s, busy) && p in pins && p.cell in k.insts && s.clean[p.cell] && p.cell !in busy
    ensures s.pins[p] == PinValue(k, pins, rank, leaf, p)
  {
    PinValueIs(k, pins, rank, leaf, p);
    if IsExposed(k, p) {
      var n :| n in k.conns && Exposes(k, n, p);
      ExposedIn(k, n, p, pins);
      assert NetRight(k, pins, rank, leaf, s, n);
    }
  }

  // The pins of the terminals without an instance set to v.
  function WithPins(m: map<Pin, real>, xs: seq<Terminal>, v: real): map<Pin, real> {
    if xs == [] then m
    else
      var x := xs[|xs| - 1];
      var r := WithPins(m, xs[..|xs| - 1], v);
      if x.inst == null then r[x.pin := v] else r
  }

  lemma {:induction false} WithPinsAt(m: map<Pin, real>, xs: seq<Terminal>, v: real, p: Pin)
    ensures p in WithPins(m, xs, v) <==> p in m || Terminal(null, p) in xs
    ensures p in WithPins(m, xs, v) ==> WithPins(m, xs, v)[p] == if Terminal(null, p) in xs then v else m[p]
  {
    if xs != [] {
      var n := |xs| - 1;
      WithPinsAt(m, xs[..n], v, p);
      assert xs == xs[..n] + [xs[n]];
      assert xs[n].inst == null && xs[n].pin == p <==> xs[n] == Terminal(null, p);
    }
  }

  /** Storing the sum in a net of c and in the pins it exposes makes the net right and
      leaves every other net as it was. */
  lemma {:induction false} NetStored(k: Netlist, pins: set<Pin>, rank: map<Cell, nat>, leaf: map<Pin, real>, s: Caps, s': Caps, busy: set<Cell>, n: Net)
    requires CapsOk(k, pins, rank, leaf, s, busy) && n in k.conns && n.cell in busy
    requires var v := FlatCap(k, pins, rank, leaf, n); s' == Caps(s.clean, WithPins(s.pins, k.conns[n], v), s.nets[n := v])
    ensures CapsOk(k, pins, rank, leaf, s', busy) && NetRight(k, pins, rank, leaf, s', n)
    ensures forall m :: m in k.conns && NetRight(k, pins, rank, leaf, s, m) ==> NetRight(k, pins, rank, leaf, s', m)
  {
    var v := FlatCap(k, pins, rank, leaf, n);
    forall p ensures p in s'.pins <==> p in pins {
      WithPinsAt(s.pins, k.conns[n], v, p);
      if Terminal(null, p) in k.conns[n] {
        ExposedIn(k, n, p, pins);
      }
    }
    forall p | p in pins ensures s'.pins[p] == if Exposes(k, n, p) then v else s.pins[p] {
      WithPinsAt(s.pins, k.conns[n], v, p);
    }
    forall m | m in k.conns && NetRight(k, pins, rank, leaf, s, m) ensures NetRight(k, pins, rank, leaf, s', m) {
      forall p | p in pins && Exposes(k, m, p) ensures s'.pins[p] == FlatCap(k, pins, rank, leaf, m) {
        assert Exposes(k, n, p) ==> m == n;
      }
    }
    assert NetRight(k, pins, rank, leaf, s', n);
    forall m {:trigger NetRight(k, pins, rank, leaf, s', m)} | m in k.conns && m.cell in s'.clean && s'.clean[m.cell] && m.cell !in busy
      ensures NetRight(k, pins, rank, leaf, s', m)
    {
      assert NetRight(k, pins, rank, leaf, s, m);
    }
  }

  // --- The pass ----------------------------------------------------------------------

  ghost function CleanMap(cells: set<Cell>): (m: map<Cell, bool>)
    reads cells`invalid
    ensures m.Keys == cells && forall c {:trigger m[c]} :: c in cells ==> m[c] == (CAPACITANCES !in c.invalid)
  {
    map c | c in cells :: CAPACITANCES !in c.invalid
  }

  ghost function PinMap(pins: set<Pin>): (m: map<Pin, real>)
    reads pins`capacitance
    ensures m.Keys == pins && forall p {:trigger m[p]} :: p in pins ==> m[p] == p.capacitance
  {
    map p | p in pins :: p.capacitance
  }

  ghost function NetMap(nets: set<Net>): (m: map<Net, real>)
    reads nets`capacitance
    ensures m.Keys == nets && forall n {:trigger m[n]} :: n in nets ==> m[n] == n.capacitance
  {
    map n | n in nets :: n.capacitance
  }

  datatype Hierarchy = Hierarchy(cells: set<Cell>, nets: set<Net>, pins: set<Pin>)

  ghost function CapsOf(w: Hierarchy): Caps
    reads w.cells`invalid, w.pins`capacitance, w.nets`capacitance
  {
    Caps(CleanMap(w.cells), PinMap(w.pins), NetMap(w.nets))
  }

  ghost function InstMap(cells: set<Cell>): (m: map<Cell, seq<Inst>>)
    reads cells`insts
    ensures m.Keys == cells && forall c {:trigger m[c]} :: c in cells ==> m[c] == c.insts
  {
    map c | c in cells :: c.insts
  }

  ghost function NetsMap(cells: set<Cell>): (m: map<Cell, seq<Net>>)
    reads cells`nets
    ensures m.Keys == cells && forall c {:trigger m[c]} :: c in cells ==> m[c] == c.nets
  {
    map c | c in cells :: c.nets
  }

  ghost function ConnMap(nets: set<Net>): (m: map<Net, seq<Terminal>>)
    reads nets`conns
    ensures m.Keys == nets && forall n {:trigger m[n]} :: n in nets ==> m[n] == n.conns
  {
    map n | n in nets :: n.conns
  }

  ghost function NetlistOf(w: Hierarchy): Netlist
    reads w.cells`insts, w.cells`nets, w.nets`conns
  {
    Netlist(InstMap(w.cells), NetsMap(w.cells), ConnMap(w.nets))
  }

  ghost function DirtyCaps(s: Caps): set<Cell> {
    set c | c in s.clean && !s.clean[c]
  }

  ghost predicate Above(k: Netlist, rank: map<Cell, nat>, busy: set<Cell>, c: Cell) {
    c in rank && c in k.insts && forall b :: b in busy && b in rank ==> rank[c] < rank[b]
  }

  // The contract of an update, on an acyclic hierarchy.
  ghost predicate CapsSettled(k: Netlist, pins: set<Pin>, rank: map<Cell, nat>, leaf: map<Pin, real>, busy: set<Cell>, s: Caps, s': Caps, c: Cell) {
    CapsOk(k, pins, rank, leaf, s, busy) && Above(k, rank, busy, c) ==> CapsOk(k, pins, rank, leaf, s', busy) && s'.clean[c]
  }

  // While c is recomputed: the first u instances' cells are clean, the first z nets right.
  ghost predicate Summing(k: Netlist, pins: set<Pin>, rank: map<Cell, nat>, leaf: map<Pin, real>, busy: set<Cell>, s: Caps, s': Caps, c: Cell, u: nat, z: nat) {
    CapsOk(k, pins, rank, leaf, s, busy) && Above(k, rank, busy, c) ==>
      && CapsOk(k, pins, rank, leaf, s', busy + {c}) && s'.clean[c]
      && u <= |k.insts[c]| && (forall j :: 0 <= j < u ==> k.insts[c][j].cell in s'.clean && s'.clean[k.insts[c][j].cell])
      && z <= |k.nets[c]| && (forall j :: 0 <= j < z ==> k.nets[c][j] in k.conns && NetRight(k, pins, rank, leaf, s', k.nets[c][j]))
  }

  lemma {:induction false} SummingStart(k: Netlist, pins: set<Pin>, rank: map<Cell, nat>, leaf: map<Pin, real>, busy: set<Cell>, s: Caps, c: Cell)
    requires c in s.clean
    ensures Summing(k, pins, rank, leaf, busy, s, s.(clean := s.clean[c := true]), c, 0, 0)
  {
    var s' := s.(clean := s.clean[c := true]);
    if CapsOk(k, pins, rank, leaf, s, busy) && Above(k, rank, busy, c) {
      forall n {:trigger NetRight(k, pins, rank, leaf, s', n)} | n in k.conns && n.cell in s'.clean && s'.clean[n.cell] && n.cell !in busy + {c}
        ensures NetRight(k, pins, rank, leaf, s', n)
      {
        assert NetRight(k, pins, rank, leaf, s, n);
      }
    }
  }

  lemma {:induction false} SummingInst(k: Netlist, pins: set<Pin>, rank: map<Cell, nat>, leaf: map<Pin, real>, busy: set<Cell>,
                                    s: Caps, s': Caps, s'': Caps, c: Cell, u: nat)
    requires c in k.insts && u < |k.insts[c]| && Summing(k, pins, rank, leaf, busy, s, s', c, u, 0)
    requires CapsSettled(k, pins, rank, leaf, busy + {c}, s', s'', k.insts[c][u].cell) && DirtyCaps(s'') <= DirtyCaps(s') && s''.clean.Keys == s'.clean.Keys
    ensures Summing(k, pins, rank, leaf, busy, s, s'', c, u + 1, 0)
  {
    if CapsOk(k, pins, rank, leaf, s, busy) && Above(k, rank, busy, c) {
      var d := k.insts[c][u].cell;
      assert CellLinked(k, c) && d in rank && rank[d] < rank[c];
      assert Above(k, rank, busy + {c}, d);
      forall e | e in s'.clean && s'.clean[e] ensures s''.clean[e] {
        assert e !in DirtyCaps(s');
      }
    }
  }

  // The sum of a net's pins, once the cells of the instances are clean.
  lemma {:induction false} TerminalReads(k: Netlist, pins: set<Pin>, rank: map<Cell, nat>, leaf: map<Pin, real>, busy: set<Cell>,
                                         s: Caps, s': Caps, c: Cell, z: nat, n: Net, j: nat)
    requires CapsOk(k, pins, rank, leaf, s, busy) && Above(k, rank, busy, c) && Summing(k, pins, rank, leaf, busy, s, s', c, |k.insts[c]|, z)
    requires n in k.conns && n.cell == c && j < |k.conns[n]|
    ensures var x := k.conns[n][j];
            x.pin in s'.pins && PartCap(k, pins, rank, leaf, n, j + 1) ==
              PartCap(k, pins, rank, leaf, n, j) + (if x.inst == null then 0.0 else s'.pins[x.pin])
  {
    PartCapStep(k, pins, rank, leaf, n, j);
    var x := k.conns[n][j];
    assert NetOk(k, n, pins) && TerminalOk(k, n, x, pins);
    if x.inst != null {
      var i :| 0 <= i < |k.insts[c]| && k.insts[c][i] == x.inst;
      Below(k, rank, n, x, pins);
      PinReads(k, pins, rank, leaf, s', busy + {c}, x.pin);
    }
  }

  lemma {:induction false} SummingNet(k: Netlist, pins: set<Pin>, rank: map<Cell, nat>, leaf: map<Pin, real>, busy: set<Cell>,
                                   s: Caps, s': Caps, s'': Caps, c: Cell, z: nat, v: real)
    requires c in k.insts && c in k.nets && z < |k.nets[c]| && k.nets[c][z] in k.conns && k.nets[c][z].cell == c
    requires Summing(k, pins, rank, leaf, busy, s, s', c, |k.insts[c]|, z)
    requires CapsOk(k, pins, rank, leaf, s, busy) && Above(k, rank, busy, c) ==> v == FlatCap(k, pins, rank, leaf, k.nets[c][z])
    requires s'' == Caps(s'.clean, WithPins(s'.pins, k.conns[k.nets[c][z]], v), s'.nets[k.nets[c][z] := v])
    ensures Summing(k, pins, rank, leaf, busy, s, s'', c, |k.insts[c]|, z + 1)
  {
    if CapsOk(k, pins, rank, leaf, s, busy) && Above(k, rank, busy, c) {
      NetStored(k, pins, rank, leaf, s', s'', busy + {c}, k.nets[c][z]);
    }
  }

  lemma {:induction false} SummingDone(k: Netlist, pins: set<Pin>, rank: map<Cell, nat>, leaf: map<Pin, real>, busy: set<Cell>, s: Caps, s': Caps, c: Cell)
    requires c in k.insts && c in k.nets && Summing(k, pins, rank, leaf, busy, s, s', c, |k.insts[c]|, |k.nets[c]|)
    ensures CapsSettled(k, pins, rank, leaf, busy, s, s', c)
  {
    if CapsOk(k, pins, rank, leaf, s, busy) && Above(k, rank, busy, c) {
      forall n {:trigger NetRight(k, pins, rank, leaf, s', n)} | n in k.conns && n.cell in s'.clean && s'.clean[n.cell] && n.cell !in busy
        ensures NetRight(k, pins, rank, leaf, s', n)
      {
        if n.cell == c {
          assert NetOk(k, n, pins);
          var j :| 0 <= j < |k.nets[c]| && k.nets[c][j] == n;
        }
      }
    }
  }

  method ClearCap(cell: Cell, ghost w: Hierarchy)
    requires cell in w.cells
    modifies cell`invalid
    ensures CapsOf(w) == old(CapsOf(w)).(clean := old(CapsOf(w)).clean[cell := true]) && NetlistOf(w) == old(NetlistOf(w))
    ensures CellRests(w.cells, CAPACITANCES) == old(CellRests(w.cells, CAPACITANCES))
  {
    ghost var m, rests := CleanMap(w.cells), CellRests(w.cells, CAPACITANCES);
    assert rests[cell] == CellRest(cell, CAPACITANCES);
    cell.invalid := cell.invalid - {CAPACITANCES};
    assert CellRest(cell, CAPACITANCES) == old(CellRest(cell, CAPACITANCES));
    SameMap(rests, CellRests(w.cells, CAPACITANCES));
    OneChanged(m, CleanMap(w.cells), cell);
  }

  method StoreNet(net: Net, v: real, ghost w: Hierarchy)
    requires net in w.nets
    modifies net`capacitance
    ensures CapsOf(w) == old(CapsOf(w)).(nets := old(CapsOf(w)).nets[net := v]) && NetlistOf(w) == old(NetlistOf(w))
  {
    ghost var m := NetMap(w.nets);
    net.capacitance := v;
    OneChanged(m, NetMap(w.nets), net);
  }

  method StorePin(pin: Pin, v: real, ghost w: Hierarchy)
    requires pin in w.pins
    modifies pin`capacitance
    ensures CapsOf(w) == old(CapsOf(w)).(pins := old(CapsOf(w)).pins[pin := v]) && NetlistOf(w) == old(NetlistOf(w))
  {
    ghost var m := PinMap(w.pins);
    pin.capacitance := v;
    OneChanged(m, PinMap(w.pins), pin);
  }

  // The second loop over the terminals of a net.
  method StorePins(conns: seq<Terminal>, v: real, ghost w: Hierarchy)
    requires forall j :: 0 <= j < |conns| ==> conns[j].pin in w.pins
    modifies w.pins`capacitance
    ensures CapsOf(w) == old(CapsOf(w)).(pins := WithPins(old(CapsOf(w)).pins, conns, v)) && NetlistOf(w) == old(NetlistOf(w))
  {
    ghost var s := CapsOf(w);
    for u := 0 to |conns|
      invariant CapsOf(w) == s.(pins := WithPins(s.pins, conns[..u], v)) && NetlistOf(w) == old(NetlistOf(w))
    {
      assert conns[..u + 1][..u] == conns[..u];
      if conns[u].inst == null {
        StorePin(conns[u].pin, v, w);
      }
    }
    assert conns[..|conns|] == conns;
  }

  // The first loop over the terminals of a net.
  method SumNet(net: Net, ghost w: Hierarchy, ghost k: Netlist, ghost rank: map<Cell, nat>, ghost leaf: map<Pin, real>, ghost busy: set<Cell>,
                ghost s: Caps, ghost c: Cell, ghost z: nat) returns (sum: real)
    requires k == NetlistOf(w) && net in w.nets && net.cell == c && c in k.insts
    requires Summing(k, w.pins, rank, leaf, busy, s, CapsOf(w), c, |k.insts[c]|, z)
    ensures CapsOf(w) == old(CapsOf(w)) && NetlistOf(w) == k
    ensures CapsOk(k, w.pins, rank, leaf, s, busy) && Above(k, rank, busy, c) ==> sum == FlatCap(k, w.pins, rank, leaf, net)
  {
    sum := 0.0;
    assert k.conns[net] == net.conns;
    ghost var ok := CapsOk(k, w.pins, rank, leaf, s, busy) && Above(k, rank, busy, c);
    for u := 0 to |net.conns|
      invariant ok ==> sum == PartCap(k, w.pins, rank, leaf, net, u)
      invariant CapsOf(w) == old(CapsOf(w)) && NetlistOf(w) == k
    {
      if ok {
        TerminalReads(k, w.pins, rank, leaf, busy, s, CapsOf(w), c, z, net, u);
        assert CapsOf(w).pins[net.conns[u].pin] == net.conns[u].pin.capacitance;
      }
      if net.conns[u].inst != null {
        sum := sum + net.conns[u].pin.capacitance;
      }
    }
  }

  // The body of the loop over the nets.
  method UpdateNet(cell: Cell, z: nat, ghost w: Hierarchy, ghost k: Netlist, ghost rank: map<Cell, nat>, ghost leaf: map<Pin, real>, ghost busy: set<Cell>, ghost s: Caps)
    requires k == NetlistOf(w) && NetlistWired(k, w.pins) && cell in w.cells && z < |cell.nets|
    requires Summing(k, w.pins, rank, leaf, busy, s, CapsOf(w), cell, |k.insts[cell]|, z)
    modifies w.nets`capacitance, w.pins`capacitance
    ensures k == NetlistOf(w) && CapsOf(w).clean == old(CapsOf(w)).clean
    ensures Summing(k, w.pins, rank, leaf, busy, s, CapsOf(w), cell, |k.insts[cell]|, z + 1)
  {
    ghost var s' := CapsOf(w);
    var net := cell.nets[z];
    assert k.nets[cell] == cell.nets && CellLinked(k, cell) && NetOk(k, net, w.pins);
    assert k.conns[net] == net.conns;
    forall j | 0 <= j < |net.conns| ensures net.conns[j].pin in w.pins {
      assert TerminalOk(k, net, k.conns[net][j], w.pins);
    }
    var sum := SumNet(net, w, k, rank, leaf, busy, s, cell, z);
    StoreNet(net, sum, w);
    assert ConnMap(w.nets)[net] == net.conns;
    StorePins(net.conns, sum, w);
    SummingNet(k, w.pins, rank, leaf, busy, s, s', CapsOf(w), cell, z, sum);
  }

  /** phx_cell_update for the capacitances.  Terminates on every instantiation graph. */
  method UpdateCapacitance(cell: Cell, ghost w: Hierarchy, ghost k: Netlist, ghost rank: map<Cell, nat>, ghost leaf: map<Pin, real>, ghost busy: set<Cell>)
    requires k == NetlistOf(w) && NetlistWired(k, w.pins) && cell in w.cells
    modifies w.cells`invalid, w.nets`capacitance, w.pins`capacitance
    ensures k == NetlistOf(w) && CapsSettled(k, w.pins, rank, leaf, busy, old(CapsOf(w)), CapsOf(w), cell)
    ensures DirtyCaps(CapsOf(w)) <= old(DirtyCaps(CapsOf(w))) - {cell}
    ensures CellRests(w.cells, CAPACITANCES) == old(CellRests(w.cells, CAPACITANCES))
    decreases DirtyCaps(CapsOf(w)), 1
  {
    assert CapsOf(w).clean[cell] == (CAPACITANCES !in cell.invalid);
    if CAPACITANCES in cell.invalid {
      UpdateCapacitances(cell, w, k, rank, leaf, busy);
    }
  }

  /** phx_cell_update_capacitances. */
  method UpdateCapacitances(cell: Cell, ghost w: Hierarchy, ghost k: Netlist, ghost rank: map<Cell, nat>, ghost leaf: map<Pin, real>, ghost busy: set<Cell>)
    requires k == NetlistOf(w) && NetlistWired(k, w.pins) && cell in w.cells && cell in DirtyCaps(CapsOf(w))
    modifies w.cells`invalid, w.nets`capacitance, w.pins`capacitance
    ensures k == NetlistOf(w) && CapsSettled(k, w.pins, rank, leaf, busy, old(CapsOf(w)), CapsOf(w), cell)
    ensures DirtyCaps(CapsOf(w)) <= old(DirtyCaps(CapsOf(w))) - {cell}
    ensures CellRests(w.cells, CAPACITANCES) == old(CellRests(w.cells, CAPACITANCES))
    decreases DirtyCaps(CapsOf(w)), 0
  {
    hide CapsOf, CapsSettled;
    ghost var s := CapsOf(w);
    ClearCap(cell, w);
    SummingStart(k, w.pins, rank, leaf, busy, s, cell);
    UpdateInsts(cell, w, k, rank, leaf, busy, s);
    UpdateNets(cell, w, k, rank, leaf, busy, s);
    SummingDone(k, w.pins, rank, leaf, busy, s, CapsOf(w), cell);
  }

  // The loop over the instances.
  method UpdateInsts(cell: Cell, ghost w: Hierarchy, ghost k: Netlist, ghost rank: map<Cell, nat>, ghost leaf: map<Pin, real>, ghost busy: set<Cell>, ghost s: Caps)
    requires k == NetlistOf(w) && NetlistWired(k, w.pins) && cell in w.cells
    requires Summing(k, w.pins, rank, leaf, busy, s, CapsOf(w), cell, 0, 0)
    modifies w.cells`invalid, w.nets`capacitance, w.pins`capacitance
    ensures k == NetlistOf(w) && Summing(k, w.pins, rank, leaf, busy, s, CapsOf(w), cell, |k.insts[cell]|, 0)
    ensures DirtyCaps(CapsOf(w)) <= old(DirtyCaps(CapsOf(w)))
    ensures CellRests(w.cells, CAPACITANCES) == old(CellRests(w.cells, CAPACITANCES))
    decreases DirtyCaps(CapsOf(w)), 3
  {
    assert k.insts[cell] == cell.insts;
    var u := 0;
    while u < |cell.insts|
      invariant u <= |cell.insts| && k == NetlistOf(w) && CellRests(w.cells, CAPACITANCES) == old(CellRests(w.cells, CAPACITANCES))
      invariant Summing(k, w.pins, rank, leaf, busy, s, CapsOf(w), cell, u, 0)
      invariant DirtyCaps(CapsOf(w)) <= old(DirtyCaps(CapsOf(w)))
      decreases |cell.insts| - u
    {
      UpdateBelow(cell, u, w, k, rank, leaf, busy, s);
      u := u + 1;
    }
  }

  method UpdateBelow(cell: Cell, u: nat, ghost w: Hierarchy, ghost k: Netlist, ghost rank: map<Cell, nat>, ghost leaf: map<Pin, real>, ghost busy: set<Cell>, ghost s: Caps)
    requires k == NetlistOf(w) && NetlistWired(k, w.pins) && cell in w.cells && u < |cell.insts|
    requires Summing(k, w.pins, rank, leaf, busy, s, CapsOf(w), cell, u, 0)
    modifies w.cells`invalid, w.nets`capacitance, w.pins`capacitance
    ensures k == NetlistOf(w) && Summing(k, w.pins, rank, leaf, busy, s, CapsOf(w), cell, u + 1, 0)
    ensures DirtyCaps(CapsOf(w)) <= old(DirtyCaps(CapsOf(w)))
    ensures CellRests(w.cells, CAPACITANCES) == old(CellRests(w.cells, CAPACITANCES))
    decreases DirtyCaps(CapsOf(w)), 2
  {
    ghost var s' := CapsOf(w);
    assert k.insts[cell] == cell.insts && CellLinked(k, cell);
    UpdateCapacitance(cell.insts[u].cell, w, k, rank, leaf, busy + {cell});
    SummingInst(k, w.pins, rank, leaf, busy, s, s', CapsOf(w), cell, u);
  }

  // The loop over the nets.
  method UpdateNets(cell: Cell, ghost w: Hierarchy, ghost k: Netlist, ghost rank: map<Cell, nat>, ghost leaf: map<Pin, real>, ghost busy: set<Cell>, ghost s: Caps)
    requires k == NetlistOf(w) && NetlistWired(k, w.pins) && cell in w.cells
    requires Summing(k, w.pins, rank, leaf, busy, s, CapsOf(w), cell, |k.insts[cell]|, 0)
    modifies w.nets`capacitance, w.pins`capacitance
    ensures k == NetlistOf(w) && CapsOf(w).clean == old(CapsOf(w)).clean
    ensures Summing(k, w.pins, rank, leaf, busy, s, CapsOf(w), cell, |k.insts[cell]|, |k.nets[cell]|)
  {
    assert k.nets[cell] == cell.nets;
    for z := 0 to |cell.nets|
      invariant k == NetlistOf(w) && CapsOf(w).clean == old(CapsOf(w)).clean
      invariant Summing(k, w.pins, rank, leaf, busy, s, CapsOf(w), cell, |k.insts[cell]|, z)
    {
      UpdateNet(cell, z, w, k, rank, leaf, busy, s);
    }
  }

  /** From all cells dirty, or after any earlier updates: the nets of the updated cell and
      the pins that they expose carry the sum of the leaf pins on them. */
  method Refresh(cell: Cell, ghost w: Hierarchy, ghost rank: map<Cell, nat>, ghost leaf: map<Pin, real>)
    requires cell in w.cells && cell in rank && CapsOk(NetlistOf(w), w.pins, rank, leaf, CapsOf(w), {})
    modifies w.cells`invalid, w.nets`capacitance, w.pins`capacitance
    ensures NetlistOf(w) == old(NetlistOf(w)) && CapsOk(NetlistOf(w), w.pins, rank, leaf, CapsOf(w), {})
    ensures forall n :: n in w.nets && n.cell == cell ==> NetRight(NetlistOf(w), w.pins, rank, leaf, CapsOf(w), n)
  {
    UpdateCapacitance(cell, w, NetlistOf(w), rank, leaf, {});
  }

  /** The start: every cell dirty, the capacitances of the unexposed pins as given. */
  lemma {:induction false} AllDirtyIsOk(w: Hierarchy, rank: map<Cell, nat>, leaf: map<Pin, real>)
    requires NetlistWired(NetlistOf(w), w.pins) && Acyclic(NetlistOf(w), rank) && w.pins <= leaf.Keys
    requires forall c :: c in w.cells ==> CAPACITANCES in c.invalid
    requires forall p :: p in w.pins ==> leaf[p] == p.capacitance
    ensures CapsOk(NetlistOf(w), w.pins, rank, leaf, CapsOf(w), {})
  {
    forall c | c in w.cells ensures !CapsOf(w).clean[c] {
      assert CleanMap(w.cells)[c] == (CAPACITANCES !in c.invalid);
    }
  }
}
