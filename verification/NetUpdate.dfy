/** Updating the timing of nets in place (phx_net_update and what it calls). */
module NetUpdate {
  import opened Marks
  import opened Design
  import opened NetTiming
  import opened CellArcs
  import opened Publishing

  // --- Reading circuit and state off the objects -------------------------------

  ghost function StateOf(n: Net): NetState
    reads n`invalid, n`arcs
  {
    NetState(TIMING !in n.invalid, n.arcs)
  }

  ghost function States(nets: set<Net>): (m: map<Net, NetState>)
    reads nets`invalid, nets`arcs
    ensures m.Keys == nets && forall n {:trigger m[n]} :: n in nets ==> m[n] == StateOf(n)
  {
    map n | n in nets :: StateOf(n)
  }

  ghost function Conns(nets: set<Net>): (m: map<Net, seq<Terminal>>)
    reads nets`conns
    ensures m.Keys == nets && forall n {:trigger m[n]} :: n in nets ==> m[n] == n.conns
  {
    map n | n in nets :: n.conns
  }

  ghost function Exposed(nets: set<Net>): (m: map<Net, bool>)
    reads nets`exposed
    ensures m.Keys == nets && forall n {:trigger m[n]} :: n in nets ==> m[n] == n.exposed
  {
    map n | n in nets :: n.exposed
  }

  ghost function Loads(nets: set<Net>): (m: map<Net, real>)
    reads nets`capacitance
    ensures m.Keys == nets && forall n {:trigger m[n]} :: n in nets ==> m[n] == n.capacitance
  {
    map n | n in nets :: n.capacitance
  }

  ghost function Libraries(cells: set<Cell>): (m: map<Cell, seq<CellArc>>)
    reads cells`arcs
    ensures m.Keys == cells && forall c {:trigger m[c]} :: c in cells ==> m[c] == c.arcs
  {
    map c | c in cells :: c.arcs
  }

  ghost function CircuitOf(cell: Cell, nets: set<Net>, cells: set<Cell>): Circuit
    reads cell`nets, nets`conns, nets`exposed, nets`capacitance, cells`arcs
  {
    Circuit(cell.nets, Conns(nets), Exposed(nets), Loads(nets), Libraries(cells))
  }

  /** A net may feed itself only where it is exposed: forwarding from it would append to the
      arcs that it goes through. */
  ghost predicate NoSelfFeed(g: Circuit)
    requires Wired(g)
  {
    forall n, i {:trigger Feeds(g, n)[i]} :: n in g.conns && 0 <= i < |Feeds(g, n)| && Feeds(g, n)[i].from == n ==>
      n in g.exposed && g.exposed[n]
  }

  /** What an activation keeps in mind; the marks and the cell's arcs are those at the start of
      the pass, and no other net than those in `dirt` is dirty. */
  datatype Run = Run(cell: Cell, nets: set<Net>, cells: set<Cell>, g: Circuit, rank: map<Net, nat>, busy: set<Net>, s: map<Net, NetState>,
                     w: World, up: map<Node, set<Node>>, marks: map<Node, set<Bit>>, tables: ArcTables, dirt: set<Net>)

  ghost predicate Ready(r: Run, at: Addresses)
    reads r.cell`nets, r.nets`conns, r.nets`exposed, r.nets`capacitance, r.cells`arcs, r.w.cells`uses
  {
    && r.g == CircuitOf(r.cell, r.nets, r.cells) && Wired(r.g) && NoSelfFeed(r.g) && Pushable(r.g, r.cell, at)
    && (forall n :: n in r.nets ==> n.cell == r.cell)
    && r.cell !in r.cells && r.cell in r.w.cells && r.up == Graph(r.w) && IsGraph(r.up) && Distinct(at)
  }

  /** Finished nets have passed on their arcs, and the marks follow. */
  ghost predicate Pushing(r: Run, at: Addresses, busy: set<Net>)
    reads r.nets`invalid, r.nets`arcs, r.cell`arcs, r.cell`invalid, r.w.cells`invalid, r.w.insts`invalid
  {
    && CellArcs.Sorted(at, r.cell.arcs) && AllPublished(r.g, r.cell, at, States(r.nets), ArcMap(r.cell.arcs), busy)
    && MarksFollow(r.w, r.cell, r.marks, r.tables) && OthersKept(r.g, r.cell, r.tables, ArcMap(r.cell.arcs))
  }

  /** The arcs of every finished net are in the cell under the cell's own pin on it, with the tables of
      the last arc from each related pin; under pins that are no such pin nothing has changed. */
  ghost predicate InCell(r: Run, busy: set<Net>)
    reads r.nets`invalid, r.nets`arcs, r.nets`conns, r.cell`arcs
  {
    && (forall n, j {:trigger n.conns[j]} ::
          n in r.nets && n !in busy && TIMING !in n.invalid
          && 0 <= j < |n.conns| && n.conns[j].inst == null && n.conns[j].pin.cell == r.cell ==>
            HasArcs(ArcMap(r.cell.arcs), n.conns[j].pin, n.arcs))
    && OthersKept(r.g, r.cell, r.tables, ArcMap(r.cell.arcs))
  }

  lemma {:induction false} FinishedInCell(r: Run, at: Addresses, busy: set<Net>)
    requires Ready(r, at) && Pushing(r, at, busy)
    ensures InCell(r, busy)
  {
    hide ArcMap, HasArcs, MarksFollow, OthersKept, NoSelfFeed, CellArcs.Sorted;
    forall n | n in r.nets && n !in busy && TIMING !in n.invalid
      ensures forall j :: 0 <= j < |n.conns| && n.conns[j].inst == null && n.conns[j].pin.cell == r.cell ==>
                HasArcs(ArcMap(r.cell.arcs), n.conns[j].pin, n.arcs)
    {
      assert States(r.nets)[n] == StateOf(n) && SinglePin(r.g.conns[n]);
      assert NetPublished(r.g, r.cell, ArcMap(r.cell.arcs), busy, n, States(r.nets)[n]);
      PublishedHasArcs(ArcMap(r.cell.arcs), r.cell, n.conns, n.arcs);
    }
  }

  // --- Where the loops are in the list of feeds --------------------------------

  lemma {:induction false} FromPrefix(g: Circuit, nets: seq<Net>, inst: Inst, arc: CellArc, z: nat)
    requires forall j :: 0 <= j < |nets| ==> nets[j] in g.conns
    requires z <= |nets|
    ensures FeedsFrom(g, nets[..z], inst, arc) <= FeedsFrom(g, nets, inst, arc)
  {
    if z < |nets| {
      FromPrefix(g, nets[..|nets| - 1], inst, arc, z);
      assert nets[..|nets| - 1][..z] == nets[..z];
    } else {
      assert nets[..z] == nets;
    }
  }

  lemma {:induction false} ThroughPrefix(g: Circuit, arcs: seq<CellArc>, x: Terminal, v: nat)
    requires x.inst != null && Wired(g) && v <= |arcs|
    ensures FeedsThrough(g, arcs[..v], x) <= FeedsThrough(g, arcs, x)
  {
    if v < |arcs| {
      ThroughPrefix(g, arcs[..|arcs| - 1], x, v);
      assert arcs[..|arcs| - 1][..v] == arcs[..v];
    } else {
      assert arcs[..v] == arcs;
    }
  }

  lemma {:induction false} OfPrefix(g: Circuit, xs: seq<Terminal>, u: nat)
    requires Wired(g) && (forall j :: 0 <= j < |xs| ==> xs[j].inst != null ==> xs[j].inst.cell in g.library) && u <= |xs|
    ensures FeedsOf(g, xs[..u]) <= FeedsOf(g, xs)
  {
    if u < |xs| {
      OfPrefix(g, xs[..|xs| - 1], u);
      assert xs[..|xs| - 1][..u] == xs[..u];
    } else {
      assert xs[..u] == xs;
    }
  }

  // The feeds before net z, arc v, terminal u.
  ghost function Before(g: Circuit, n: Net, u: nat, v: nat, z: nat): seq<Feed>
    requires Wired(g) && n in g.conns && NetWired(g, n) && u < |g.conns[n]| && g.conns[n][u].inst != null
    requires var arcs := g.library[g.conns[n][u].inst.cell]; v < |arcs| && z <= |g.nets|
  {
    var x := g.conns[n][u];
    var arcs := g.library[x.inst.cell];
    FeedsOf(g, g.conns[n][..u]) + FeedsThrough(g, arcs[..v], x) + FeedsFrom(g, g.nets[..z], x.inst, arcs[v])
  }

  lemma {:induction false} BeforeIsPrefix(g: Circuit, n: Net, u: nat, v: nat, z: nat)
    requires Wired(g) && n in g.conns && NetWired(g, n) && u < |g.conns[n]| && g.conns[n][u].inst != null
    requires var arcs := g.library[g.conns[n][u].inst.cell]; v < |arcs| && z <= |g.nets| && arcs[v].pin == g.conns[n][u].pin
    ensures Before(g, n, u, v, z) <= Feeds(g, n)
  {
    var xs, x := g.conns[n], g.conns[n][u];
    var arcs := g.library[x.inst.cell];
    OfPrefix(g, xs, u + 1);
    assert xs[..u + 1][..u] == xs[..u];
    ThroughPrefix(g, arcs, x, v + 1);
    assert arcs[..v + 1][..v] == arcs[..v];
    FromPrefix(g, g.nets, x.inst, arcs[v], z);
    assert FeedsOf(g, xs[..u + 1]) == FeedsOf(g, xs[..u]) + FeedsThrough(g, arcs, x);
    assert FeedsThrough(g, arcs[..v + 1], x) == FeedsThrough(g, arcs[..v], x) + FeedsFrom(g, g.nets, x.inst, arcs[v]);
    PrefixSum(FeedsOf(g, xs[..u]), FeedsThrough(g, arcs[..v], x), FeedsFrom(g, g.nets[..z], x.inst, arcs[v]),
              FeedsFrom(g, g.nets, x.inst, arcs[v]), FeedsThrough(g, arcs, x), Feeds(g, n));
  }

  lemma {:induction false} PrefixSum<T>(a: seq<T>, b: seq<T>, c: seq<T>, c': seq<T>, bc: seq<T>, all: seq<T>)
    requires c <= c' && b + c' <= bc && a + bc <= all
    ensures a + b + c <= all
  {
    assert a + b + c' <= a + bc;
    assert a + b + c <= a + b + c';
  }

  // The related net is the next feed.
  lemma {:induction false} NextFeed(g: Circuit, n: Net, u: nat, v: nat, z: nat)
    requires Wired(g) && n in g.conns && NetWired(g, n) && u < |g.conns[n]| && g.conns[n][u].inst != null
    requires var arcs := g.library[g.conns[n][u].inst.cell]; v < |arcs| && z < |g.nets| && arcs[v].pin == g.conns[n][u].pin
    ensures var x, arc, i := g.conns[n][u], g.library[g.conns[n][u].inst.cell][v], |Before(g, n, u, v, z)|;
            if Attached(g.conns[g.nets[z]], x.inst, arc.related)
            then i < |Feeds(g, n)| && Feeds(g, n)[i] == Feed(arc, g.nets[z]) && |Before(g, n, u, v, z + 1)| == i + 1
            else Before(g, n, u, v, z + 1) == Before(g, n, u, v, z)
  {
    BeforeIsPrefix(g, n, u, v, z + 1);
    assert g.nets[..z + 1][..z] == g.nets[..z];
    var x, arc := g.conns[n][u], g.library[g.conns[n][u].inst.cell][v];
    if Attached(g.conns[g.nets[z]], x.inst, arc.related) {
      assert Before(g, n, u, v, z + 1) == Before(g, n, u, v, z) + [Feed(arc, g.nets[z])];
    } else {
      assert Before(g, n, u, v, z + 1) == Before(g, n, u, v, z);
    }
  }

  // --- Steps on one net ----------------------------------------------------------

  method ClearNet(net: Net, ghost nets: set<Net>)
    requires net in nets
    modifies net`invalid
    ensures States(nets) == old(States(nets))[net := NetState(true, net.arcs)]
  {
    ghost var m := States(nets);
    net.invalid := net.invalid - {TIMING};
    assert States(nets)[net] == StateOf(net);
    OneChanged(m, States(nets), net);
  }

  method AddArc(net: Net, arc: NetArc, ghost nets: set<Net>)
    requires net in nets
    modifies net`arcs
    ensures States(nets) == old(States(nets))[net := NetState(old(States(nets))[net].clean, old(net.arcs) + [arc])]
    ensures net.arcs == old(net.arcs) + [arc]
  {
    ghost var m := States(nets);
    assert m[net] == StateOf(net);
    net.arcs := net.arcs + [arc];
    assert States(nets)[net] == StateOf(net);
    OneChanged(m, States(nets), net);
  }

  // The scan for the cell's own pin on a net; a second one fails the assertion.
  method FindExposedPin(xs: seq<Terminal>) returns (pin: Pin?)
    requires SinglePin(xs)
    ensures pin == ExposedPin(xs)
    ensures forall j :: 0 <= j < |xs| && xs[j].inst == null ==> pin == xs[j].pin
    ensures (forall j :: 0 <= j < |xs| ==> xs[j].inst != null) ==> pin == null
  {
    pin := null;
    for u := 0 to |xs|
      invariant pin == ExposedPin(xs[..u])
      invariant pin != null ==> exists i :: 0 <= i < u && xs[i].inst == null
    {
      assert xs[..u + 1][..u] == xs[..u];
      if xs[u].inst == null {
        assert pin == null;
        pin := xs[u].pin;
      }
    }
    assert xs[..|xs|] == xs;
    ExposedPinIs(xs);
  }

  // The tables of a library arc at this net.
  method LoadedTables(net: Net, arc: CellArc) returns (delay: TimingTable, transition: TimingTable)
    ensures delay == if net.exposed || arc.delay == NoTable then arc.delay else AtLoad(arc.delay, net.capacitance)
    ensures transition == if net.exposed || arc.transition == NoTable then arc.transition else AtLoad(arc.transition, net.capacitance)
  {
    delay, transition := arc.delay, arc.transition;
    if !net.exposed {
      if delay != NoTable {
        delay := AtLoad(delay, net.capacitance);
      }
      if transition != NoTable {
        transition := AtLoad(transition, net.capacitance);
      }
    }
  }

  /** combine_arcs: an arc without any table is not kept. */
  method CombineArc(net: Net, delay: TimingTable, transition: TimingTable, earlier: NetArc, ghost nets: set<Net>)
    requires net in nets
    modifies net`arcs
    ensures var d := if delay == NoTable || earlier.transition == NoTable then delay else Resampled(delay, earlier.transition);
            var t := if transition == NoTable || earlier.transition == NoTable then transition else Resampled(transition, earlier.transition);
            var sum := if d == NoTable || earlier.delay == NoTable then d else Sum(d, earlier.delay);
            var more := if delay != NoTable || transition != NoTable then [NetArc(earlier.related, sum, t)] else [];
            States(nets) == old(States(nets))[net := NetState(old(States(nets))[net].clean, old(net.arcs) + more)] && net.arcs == old(net.arcs) + more
  {
    var d, t := delay, transition;
    if earlier.transition != NoTable {
      if t != NoTable {
        t := Resampled(t, earlier.transition);
      }
      if d != NoTable {
        d := Resampled(d, earlier.transition);
      }
    }
    if d != NoTable && earlier.delay != NoTable {
      d := Sum(d, earlier.delay);
    }
    if t != NoTable || d != NoTable {
      AddArc(net, NetArc(earlier.related, d, t), nets);
    } else {
      NothingAdded(States(nets), net);
    }
  }

  lemma {:induction false} NothingAdded(s: map<Net, NetState>, net: Net)
    requires net in s
    ensures s == s[net := NetState(s[net].clean, s[net].arcs + [])]
  {
    assert s[net].arcs + [] == s[net].arcs;
  }

  /** phx_net_update_timing_arc_forward. */
  method Forward(net: Net, other: Net, arc: CellArc, ghost nets: set<Net>, ghost g: Circuit)
    requires net in nets && other in nets && (other == net ==> other.exposed) && SinglePin(other.conns)
    requires g.conns == Conns(nets) && g.exposed == Exposed(nets) && g.load == Loads(nets)
    modifies net`arcs
    ensures States(nets) == old(States(nets))[net := NetState(old(States(nets))[net].clean,
                              old(net.arcs) + Forwarded(g, net, Feed(arc, other), old(other.arcs)))]
  {
    hide Forwarded, SinglePin, ExposedPin, CombinedArc;
    ghost var m, f := States(nets), Feed(arc, other);
    assert m[net] == StateOf(net) && m[other] == StateOf(other);
    assert g.conns[other] == other.conns && g.exposed[other] == other.exposed && g.exposed[net] == net.exposed && g.load[net] == net.capacitance;
    ForwardedIs(g, net, f, other.arcs);
    var delay, transition := LoadedTables(net, arc);
    if other.exposed {
      AddInitial(net, other, delay, transition, nets);
    } else {
      CombineArcs(net, other, delay, transition, nets, g, f);
    }
  }

  // The other net is attached to an input pin of the cell.
  method AddInitial(net: Net, other: Net, delay: TimingTable, transition: TimingTable, ghost nets: set<Net>)
    requires net in nets && SinglePin(other.conns)
    modifies net`arcs
    ensures States(nets) == old(States(nets))[net := NetState(old(States(nets))[net].clean,
                              old(net.arcs) + [NetArc(ExposedPin(other.conns), delay, transition)])]
  {
    var related := FindExposedPin(other.conns);
    AddArc(net, NetArc(related, delay, transition), nets);
  }

  lemma {:induction false} ForwardedIs(g: Circuit, n: Net, f: Feed, earlier: seq<NetArc>)
    requires n in g.exposed && n in g.load && f.from in g.conns && f.from in g.exposed
    ensures Forwarded(g, n, f, earlier)
            == if g.exposed[f.from] then [NetArc(ExposedPin(g.conns[f.from]), ArcTable(g, n, f.arc.delay), ArcTable(g, n, f.arc.transition))]
               else Combined(g, n, f, earlier)
  {
  }

  lemma {:induction false} CombinedIs(g: Circuit, n: Net, f: Feed, delay: TimingTable, transition: TimingTable, earlier: NetArc)
    requires n in g.exposed && n in g.load && delay == ArcTable(g, n, f.arc.delay) && transition == ArcTable(g, n, f.arc.transition)
    ensures Carries(f.arc) <==> delay != NoTable || transition != NoTable
    ensures var d := if delay == NoTable || earlier.transition == NoTable then delay else Resampled(delay, earlier.transition);
            var t := if transition == NoTable || earlier.transition == NoTable then transition else Resampled(transition, earlier.transition);
            CombinedArc(g, n, f, earlier) == NetArc(earlier.related, if d == NoTable || earlier.delay == NoTable then d else Sum(d, earlier.delay), t)
  {
  }

  // One turn of the loop over the arcs of the other net.
  method CombineNext(net: Net, delay: TimingTable, transition: TimingTable, earlier: NetArc, ghost nets: set<Net>, ghost g: Circuit, ghost f: Feed)
    requires net in nets && net in g.exposed && net in g.load
    requires delay == ArcTable(g, net, f.arc.delay) && transition == ArcTable(g, net, f.arc.transition)
    modifies net`arcs
    ensures net.arcs == old(net.arcs) + if Carries(f.arc) then [CombinedArc(g, net, f, earlier)] else []
    ensures States(nets) == old(States(nets))[net := NetState(old(States(nets))[net].clean, net.arcs)]
  {
    hide ArcTable, CombinedArc, JoinedBy, Added, Carries;
    CombinedIs(g, net, f, delay, transition, earlier);
    CombineArc(net, delay, transition, earlier, nets);
  }

  // The loop over the arcs of the other net.
  method CombineArcs(net: Net, other: Net, delay: TimingTable, transition: TimingTable, ghost nets: set<Net>, ghost g: Circuit, ghost f: Feed)
    requires net in nets && other in nets && other != net && net in g.exposed && net in g.load
    requires delay == ArcTable(g, net, f.arc.delay) && transition == ArcTable(g, net, f.arc.transition)
    modifies net`arcs
    ensures States(nets) == old(States(nets))[net := NetState(old(States(nets))[net].clean, old(net.arcs) + Combined(g, net, f, old(other.arcs)))]
  {
    hide ArcTable, CombinedArc, Carries;
    ghost var m, all := States(nets), Combined(g, net, f, other.arcs);
    assert m[net] == StateOf(net);
    for u := 0 to |other.arcs|
      invariant net.arcs == old(net.arcs) + (if Carries(f.arc) then all[..u] else [])
      invariant States(nets) == m[net := NetState(m[net].clean, net.arcs)]
    {
      CombineNext(net, delay, transition, other.arcs[u], nets, g, f);
      assert Carries(f.arc) ==> all[..u + 1] == all[..u] + [all[u]];
    }
    assert Carries(f.arc) ==> all[..|other.arcs|] == all;
  }

  // --- The loops -----------------------------------------------------------------

  // Terminal u of the net is an instance's pin, and arc v of the instantiated cell drives it.
  ghost predicate Position(r: Run, net: Net, u: nat, v: nat)
    requires Wired(r.g)
  {
    && net in r.g.conns && NetWired(r.g, net) && u < |r.g.conns[net]| && r.g.conns[net][u].inst != null
    && v < |r.g.library[r.g.conns[net][u].inst.cell]|
    && r.g.library[r.g.conns[net][u].inst.cell][v].pin == r.g.conns[net][u].pin
  }

  ghost predicate Growth(r: Run, net: Net, i: nat)
    reads r.nets`invalid, r.nets`arcs
  {
    && Growing(r.g, r.rank, r.busy, r.s, States(r.nets), net, i)
    && Stable(r.s, States(r.nets)) && net in r.nets && States(r.nets)[net].clean && net in r.s && !r.s[net].clean
  }

  // The activation started from right states on an acyclic graph.
  ghost predicate Sound(r: Run, net: Net) {
    StatesOk(r.g, r.rank, r.s, r.busy) && net in r.g.conns && BelowAll(r.rank, r.busy, net) && net in r.s && !r.s[net].clean
  }

  // While n is updated: it has the arcs through its first i feeds.
  ghost predicate Going(r: Run, at: Addresses, net: Net, i: nat)
    reads r.cell`nets, r.nets`conns, r.nets`exposed, r.nets`capacitance, r.cells`arcs, r.w.cells`uses
    reads r.nets`invalid, r.nets`arcs, r.cell`arcs, r.cell`invalid, r.w.cells`invalid, r.w.insts`invalid
  {
    Ready(r, at) && Growth(r, net, i) && Pushing(r, at, r.busy + {net}) && DirtyNets(States(r.nets)) <= r.dirt
  }

  lemma {:induction false} ReadyNets(r: Run, at: Addresses)
    requires Ready(r, at)
    ensures r.g.conns.Keys == r.nets && forall n :: n in r.nets ==> n.cell == r.cell && r.g.conns[n] == n.conns
  {
  }

  // What the activation reads does not change.
  lemma {:induction false} GoingReads(r: Run, at: Addresses, net: Net, i: nat)
    requires Going(r, at, net, i)
    ensures Wired(r.g) && net in r.nets && net in r.g.conns && NetWired(r.g, net) && r.g.conns[net] == net.conns
    ensures net.cell == r.cell && r.cell.nets == r.g.nets
    ensures forall c :: c in r.g.library ==> c.arcs == r.g.library[c]
    ensures forall n :: n in r.g.nets ==> n in r.g.conns && r.g.conns[n] == n.conns
  {
    assert NetWired(r.g, net);
    assert forall j :: 0 <= j < |r.g.nets| ==> r.g.nets[j] in r.g.conns;
  }

  /** phx_net_update for the timing.  It terminates whenever no net feeds itself through
      one instance, as each activation clears the bit of one more net. */
  method UpdateNet(net: Net, at: Addresses, ghost busy: set<Net>, ghost dirt: set<Net>, ghost r: Run)
    requires Ready(r, at) && net in r.nets && Pushing(r, at, busy) && DirtyNets(States(r.nets)) <= dirt
    modifies r.nets`invalid, r.nets`arcs, r.cell`arcs, r.w.cells`invalid, r.w.insts`invalid
    ensures NetSettled(r.g, r.rank, busy, old(States(r.nets)), States(r.nets), net)
    ensures Stable(old(States(r.nets)), States(r.nets)) && States(r.nets)[net].clean
    ensures Ready(r, at) && Pushing(r, at, busy)
    decreases dirt, 1
  {
    hide Pushable, NoSelfFeed, AllPublished, MarksFollow, OthersKept, NetSettled, CellArcs.Sorted;
    assert States(r.nets)[net] == StateOf(net);
    if TIMING in net.invalid {
      UpdateNetTiming(net, at, r.(s := States(r.nets), busy := busy, dirt := DirtyNets(States(r.nets)) - {net}));
    } else {
      AlreadySettled(r.g, r.rank, busy, States(r.nets), net);
    }
  }

  lemma {:induction false} AlreadySettled(g: Circuit, rank: map<Net, nat>, busy: set<Net>, s: map<Net, NetState>, net: Net)
    requires net in s && s[net].clean
    ensures NetSettled(g, rank, busy, s, s, net)
  {
  }

  // The bit is cleared before anything else.
  method BeginNet(net: Net, at: Addresses, ghost r: Run)
    requires Wired(r.g) && net in r.nets && net in r.g.conns && r.s == States(r.nets) && !r.s[net].clean
    requires AllPublished(r.g, r.cell, at, States(r.nets), ArcMap(r.cell.arcs), r.busy)
    modifies net`invalid
    ensures Growth(r, net, 0) && DirtyNets(States(r.nets)) <= DirtyNets(r.s) - {net}
    ensures AllPublished(r.g, r.cell, at, States(r.nets), ArcMap(r.cell.arcs), r.busy + {net})
  {
    assert r.s[net] == StateOf(net);
    ClearNet(net, r.nets);
    GrowingStart(r.g, r.rank, r.busy, r.s, net);
    assert net in DirtyNets(r.s) && net !in DirtyNets(States(r.nets));
    StableDirt(r.s, States(r.nets));
    assert NetKnown(r.g, r.cell, at, net, r.s[net].arcs);
    BusyPublished(r.g, r.cell, at, r.s, States(r.nets), ArcMap(r.cell.arcs), r.busy, r.busy + {net}, net);
  }

  // The activation of a net, up to the terminals.
  method StartNet(net: Net, at: Addresses, ghost r: Run)
    requires Ready(r, at) && net in r.nets && r.s == States(r.nets) && !r.s[net].clean && Pushing(r, at, r.busy)
    requires r.dirt == DirtyNets(r.s) - {net}
    modifies net`invalid
    ensures Going(r, at, net, 0)
  {
    hide AllPublished, MarksFollow, OthersKept, Pushable, NoSelfFeed, Growing, Stable, IsGraph, StateOf;
    BeginNet(net, at, r);
  }

  /** phx_net_update_timing. */
  method UpdateNetTiming(net: Net, at: Addresses, ghost r: Run)
    requires Ready(r, at) && net in r.nets && r.s == States(r.nets) && !r.s[net].clean && Pushing(r, at, r.busy)
    requires r.dirt == DirtyNets(r.s) - {net}
    modifies r.nets`invalid, r.nets`arcs, r.cell`arcs, r.w.cells`invalid, r.w.insts`invalid
    ensures NetSettled(r.g, r.rank, r.busy, r.s, States(r.nets), net)
    ensures Stable(r.s, States(r.nets)) && States(r.nets)[net].clean
    ensures Ready(r, at) && Pushing(r, at, r.busy) && InCell(r, r.busy)
    decreases r.dirt, 9
  {
    hide Going, Pushing, Ready, InCell;
    StartNet(net, at, r);
    GoingReads(r, at, net, 0);
    UpdateTerminals(net, at, r);
    PushNet(net, at, r);
    FinishedInCell(r, at, r.busy);
  }

  // The net's arcs are pushed to the cell.
  method PushNet(net: Net, at: Addresses, ghost r: Run)
    requires Wired(r.g) && net in r.g.conns && NetWired(r.g, net) && Going(r, at, net, |Feeds(r.g, net)|)
    modifies r.cell`arcs, r.w.cells`invalid, r.w.insts`invalid
    ensures NetSettled(r.g, r.rank, r.busy, r.s, States(r.nets), net)
    ensures Stable(r.s, States(r.nets)) && States(r.nets)[net].clean
    ensures Ready(r, at) && Pushing(r, at, r.busy)
  {
    GrowingDone(r.g, r.rank, r.busy, r.s, States(r.nets), net);
    PushOwn(net, at, r);
  }

  method PushOwn(net: Net, at: Addresses, ghost r: Run)
    requires Ready(r, at) && net in r.nets && Pushing(r, at, r.busy + {net})
    modifies r.cell`arcs, r.w.cells`invalid, r.w.insts`invalid
    ensures States(r.nets) == old(States(r.nets)) && Ready(r, at) && Pushing(r, at, r.busy)
  {
    hide AllPublished, MarksFollow, OthersKept, BesideKept, Pushable, NoSelfFeed, ArcMap, FullArcs, CellArcs.Sorted, CircuitOf;
    ghost var s, m := States(r.nets), ArcMap(r.cell.arcs);
    assert s[net] == StateOf(net);
    ReadyNets(r, at);
    PushableNet(r.g, r.cell, at, s, m, r.busy + {net}, net);
    PushStill(net, at, r, s, m);
    DonePublished(r.g, r.cell, at, s, m, ArcMap(r.cell.arcs), r.busy, net);
    PushedSays(m, r.cell, r.g.conns[net], s[net].arcs);
    PushKeepsOthers(r.g, r.cell, r.tables, m, ArcMap(r.cell.arcs), net);
  }

  method PushStill(net: Net, at: Addresses, ghost r: Run, ghost s: map<Net, NetState>, ghost m: ArcTables)
    requires Ready(r, at) && net in r.nets && CellArcs.Sorted(at, r.cell.arcs) && s == States(r.nets) && m == ArcMap(r.cell.arcs)
    requires net in r.g.conns && (HasOwnPin(r.cell, r.g.conns[net]) ==> FullArcs(at, s[net].arcs))
    requires (forall j :: 0 <= j < |r.g.conns[net]| ==> r.g.conns[net][j].pin in at) && MarksFollow(r.w, r.cell, r.marks, r.tables)
    modifies r.cell`arcs, r.w.cells`invalid, r.w.insts`invalid
    ensures Ready(r, at) && States(r.nets) == s && CellArcs.Sorted(at, r.cell.arcs) && MarksFollow(r.w, r.cell, r.marks, r.tables)
    ensures ArcMap(r.cell.arcs) == PushTerminals(m, r.cell, r.g.conns[net], s[net].arcs)
  {
    hide Ready, MarksFollow, ArcMap, FullArcs, CellArcs.Sorted, PushTerminals;
    assert s[net] == StateOf(net);
    PushReady(net, net.arcs, at, r, m);
  }

  method PushReady(net: Net, arcs: seq<NetArc>, at: Addresses, ghost r: Run, ghost m: ArcTables)
    requires Ready(r, at) && net in r.nets && CellArcs.Sorted(at, r.cell.arcs) && m == ArcMap(r.cell.arcs) && arcs == net.arcs
    requires net in r.g.conns && (HasOwnPin(r.cell, r.g.conns[net]) ==> FullArcs(at, arcs))
    requires (forall j :: 0 <= j < |r.g.conns[net]| ==> r.g.conns[net][j].pin in at) && MarksFollow(r.w, r.cell, r.marks, r.tables)
    modifies r.cell`arcs, r.w.cells`invalid, r.w.insts`invalid
    ensures Ready(r, at) && CellArcs.Sorted(at, r.cell.arcs) && MarksFollow(r.w, r.cell, r.marks, r.tables)
    ensures ArcMap(r.cell.arcs) == PushTerminals(m, r.cell, r.g.conns[net], arcs)
  {
    hide MarksFollow, Pushable, NoSelfFeed, ArcMap, FullArcs, CellArcs.Sorted, Wired, Distinct, PushTerminals;
    ReadyNets(r, at);
    PushArcs(net.cell, net.conns, arcs, at, r.w, r.up, r.marks, r.tables);
  }

  lemma {:induction false} PushableNet(g: Circuit, cell: Cell, at: Addresses, s: map<Net, NetState>, m: ArcTables, busy: set<Net>, net: Net)
    requires Wired(g) && Pushable(g, cell, at) && AllPublished(g, cell, at, s, m, busy) && net in s
    ensures HasOwnPin(cell, g.conns[net]) ==> FullArcs(at, s[net].arcs)
    ensures forall j :: 0 <= j < |g.conns[net]| ==> g.conns[net][j].pin in at
  {
    assert NetKnown(g, cell, at, net, s[net].arcs);
  }

  // The loop over the terminals.
  method UpdateTerminals(net: Net, at: Addresses, ghost r: Run)
    requires Wired(r.g) && net in r.g.conns && NetWired(r.g, net) && r.g.conns[net] == net.conns && Going(r, at, net, 0)
    modifies r.nets`invalid, r.nets`arcs, r.cell`arcs, r.w.cells`invalid, r.w.insts`invalid
    ensures Going(r, at, net, |Feeds(r.g, net)|)
    decreases r.dirt, 8
  {
    hide Going;
    assert net.conns[..0] == [];
    var u := 0;
    while u < |net.conns|
      invariant u <= |net.conns| && Going(r, at, net, |FeedsOf(r.g, net.conns[..u])|)
      decreases |net.conns| - u
    {
      UpdateTerminal(net, u, at, r);
      u := u + 1;
    }
    assert net.conns[..|net.conns|] == net.conns;
  }

  // The body of the loop over the terminals.
  method UpdateTerminal(net: Net, u: nat, at: Addresses, ghost r: Run)
    requires Wired(r.g) && net in r.g.conns && NetWired(r.g, net) && u < |net.conns| && r.g.conns[net] == net.conns
    requires Going(r, at, net, |FeedsOf(r.g, net.conns[..u])|)
    modifies r.nets`invalid, r.nets`arcs, r.cell`arcs, r.w.cells`invalid, r.w.insts`invalid
    ensures Going(r, at, net, |FeedsOf(r.g, net.conns[..u + 1])|)
    decreases r.dirt, 7
  {
    hide Going;
    var x := net.conns[u];
    TerminalIndex(r.g, net, u);
    if x.inst == null {
      return;
    }
    GoingReads(r, at, net, |FeedsOf(r.g, net.conns[..u])|);
    UpdateArcs(net, u, x.inst, x.inst.cell.arcs, at, r);
  }

  // The loop over the arcs of the instantiated cell.
  method UpdateArcs(net: Net, u: nat, inst: Inst, arcs: seq<CellArc>, at: Addresses, ghost r: Run)
    requires Wired(r.g) && net in r.g.conns && NetWired(r.g, net) && u < |r.g.conns[net]| && r.g.conns[net][u].inst == inst
    requires arcs == r.g.library[inst.cell] && r.g.conns[net] == net.conns && Going(r, at, net, ArcIndex(r.g, net, u, 0))
    modifies r.nets`invalid, r.nets`arcs, r.cell`arcs, r.w.cells`invalid, r.w.insts`invalid
    ensures Going(r, at, net, ArcIndex(r.g, net, u, |arcs|))
    decreases r.dirt, 6
  {
    hide Going;
    var pin := net.conns[u].pin;
    var v := 0;
    while v < |arcs|
      invariant v <= |arcs| && Going(r, at, net, ArcIndex(r.g, net, u, v))
      decreases |arcs| - v
    {
      NextArc(r.g, net, u, v);
      if arcs[v].pin == pin {
        UpdateArc(net, u, v, arcs[v], inst, at, r);
      }
      v := v + 1;
    }
  }

  // How many feeds come before arc v at terminal u.
  ghost function ArcIndex(g: Circuit, n: Net, u: nat, v: nat): nat
    requires Wired(g) && n in g.conns && NetWired(g, n) && u < |g.conns[n]| && g.conns[n][u].inst != null
    requires v <= |g.library[g.conns[n][u].inst.cell]|
  {
    var x := g.conns[n][u];
    |FeedsOf(g, g.conns[n][..u])| + |FeedsThrough(g, g.library[x.inst.cell][..v], x)|
  }

  lemma {:induction false} NextArc(g: Circuit, n: Net, u: nat, v: nat)
    requires Wired(g) && n in g.conns && NetWired(g, n) && u < |g.conns[n]| && g.conns[n][u].inst != null
    requires v < |g.library[g.conns[n][u].inst.cell]|
    ensures var matches := g.library[g.conns[n][u].inst.cell][v].pin == g.conns[n][u].pin;
            && (matches ==> ArcIndex(g, n, u, v) == |Before(g, n, u, v, 0)| && ArcIndex(g, n, u, v + 1) == |Before(g, n, u, v, |g.nets|)|)
            && (!matches ==> ArcIndex(g, n, u, v + 1) == ArcIndex(g, n, u, v))
  {
    var arcs := g.library[g.conns[n][u].inst.cell];
    assert arcs[..v + 1][..v] == arcs[..v];
    assert g.nets[..|g.nets|] == g.nets && g.nets[..0] == [];
  }

  // The terminal's arcs make up its share of the feeds.
  lemma {:induction false} TerminalIndex(g: Circuit, n: Net, u: nat)
    requires Wired(g) && n in g.conns && NetWired(g, n) && u < |g.conns[n]|
    ensures g.conns[n][u].inst == null ==> FeedsOf(g, g.conns[n][..u + 1]) == FeedsOf(g, g.conns[n][..u])
    ensures g.conns[n][u].inst != null ==>
              && ArcIndex(g, n, u, 0) == |FeedsOf(g, g.conns[n][..u])|
              && ArcIndex(g, n, u, |g.library[g.conns[n][u].inst.cell]|) == |FeedsOf(g, g.conns[n][..u + 1])|
  {
    var xs := g.conns[n];
    assert xs[..u + 1][..u] == xs[..u];
    if xs[u].inst != null {
      var arcs := g.library[xs[u].inst.cell];
      assert arcs[..|arcs|] == arcs && arcs[..0] == [];
    }
  }

  // One arc to the pin: first the nets it comes from, then the forwarding.
  method UpdateArc(net: Net, u: nat, v: nat, arc: CellArc, inst: Inst, at: Addresses, ghost r: Run)
    requires Wired(r.g) && Position(r, net, u, v) && inst == r.g.conns[net][u].inst && arc == r.g.library[inst.cell][v]
    requires Going(r, at, net, |Before(r.g, net, u, v, 0)|)
    modifies r.nets`invalid, r.nets`arcs, r.cell`arcs, r.w.cells`invalid, r.w.insts`invalid
    ensures Going(r, at, net, |Before(r.g, net, u, v, |r.g.nets|)|)
    decreases r.dirt, 5
  {
    hide Going, Finished;
    GoingReads(r, at, net, |Before(r.g, net, u, v, 0)|);
    UpdateRelated(net, u, v, arc, inst, at, r);
    ForwardRelated(net, u, v, arc, inst, at, r);
  }

  // The first z nets on the arc's input are finished.
  ghost predicate Finished(r: Run, net: Net, arc: CellArc, inst: Inst, z: nat)
    requires Wired(r.g) && z <= |r.g.nets|
    reads r.nets`invalid, r.nets`arcs
  {
    FinishedIn(r, net, arc, inst, z, States(r.nets))
  }

  ghost predicate FinishedIn(r: Run, net: Net, arc: CellArc, inst: Inst, z: nat, s: map<Net, NetState>)
    requires Wired(r.g) && z <= |r.g.nets|
  {
    Sound(r, net) ==> forall j :: 0 <= j < z && Attached(r.g.conns[r.g.nets[j]], inst, arc.related) ==>
      r.g.nets[j] in s && s[r.g.nets[j]].clean
  }

  // The loop that brings the nets on the arc's input up to date.
  method UpdateRelated(net: Net, u: nat, v: nat, arc: CellArc, inst: Inst, at: Addresses, ghost r: Run)
    requires Wired(r.g) && Position(r, net, u, v) && inst == r.g.conns[net][u].inst && arc == r.g.library[inst.cell][v]
    requires Going(r, at, net, |Before(r.g, net, u, v, 0)|)
    modifies r.nets`invalid, r.nets`arcs, r.cell`arcs, r.w.cells`invalid, r.w.insts`invalid
    ensures Going(r, at, net, |Before(r.g, net, u, v, 0)|) && Finished(r, net, arc, inst, |r.g.nets|)
    decreases r.dirt, 4
  {
    hide Going;
    GoingReads(r, at, net, |Before(r.g, net, u, v, 0)|);
    NoneFinished(r, net, arc, inst);
    hide Finished;
    var z := 0;
    while z < |net.cell.nets|
      invariant z <= |net.cell.nets| && Going(r, at, net, |Before(r.g, net, u, v, 0)|) && Finished(r, net, arc, inst, z)
      decreases |net.cell.nets| - z
    {
      UpdateAttached(net, net.cell.nets[z], u, v, z, arc, inst, at, r);
      z := z + 1;
    }
  }

  lemma {:induction false} NoneFinished(r: Run, net: Net, arc: CellArc, inst: Inst)
    requires Wired(r.g)
    ensures Finished(r, net, arc, inst, 0)
  {
  }

  // The activation was sound and the other net is done.
  ghost predicate OtherDone(r: Run, net: Net, other: Net)
    reads r.nets`invalid, r.nets`arcs
  {
    Sound(r, net) ==> other in r.nets && States(r.nets)[other].clean
  }

  // The scan of one net's terminals: every match is an update, all but the first without effect.
  method UpdateAttached(net: Net, other: Net, u: nat, v: nat, z: nat, arc: CellArc, inst: Inst, at: Addresses, ghost r: Run)
    requires Wired(r.g) && Position(r, net, u, v) && inst == r.g.conns[net][u].inst && arc == r.g.library[inst.cell][v]
    requires z < |r.g.nets| && other == r.g.nets[z]
    requires Going(r, at, net, |Before(r.g, net, u, v, 0)|) && Finished(r, net, arc, inst, z)
    modifies r.nets`invalid, r.nets`arcs, r.cell`arcs, r.w.cells`invalid, r.w.insts`invalid
    ensures Going(r, at, net, |Before(r.g, net, u, v, 0)|) && Finished(r, net, arc, inst, z + 1)
    decreases r.dirt, 3
  {
    hide Before, Going, Finished, Attached, OtherDone;
    AttachedAll(other.conns, inst, arc.related);
    GoingReads(r, at, net, |Before(r.g, net, u, v, 0)|);
    var w := 0;
    while w < |other.conns|
      invariant w <= |other.conns| && Going(r, at, net, |Before(r.g, net, u, v, 0)|) && Finished(r, net, arc, inst, z)
      invariant Attached(other.conns[..w], inst, arc.related) ==> OtherDone(r, net, other)
      decreases |other.conns| - w
    {
      AttachedSnoc(other.conns, w, inst, arc.related);
      if other.conns[w].pin == arc.related && other.conns[w].inst == inst {
        AttachedBy(other.conns, w, inst);
        UpdateOne(net, other, u, v, z, arc, inst, at, r);
      }
      w := w + 1;
    }
    FinishedNext(r, net, arc, inst, z);
  }

  lemma {:induction false} AttachedBy(xs: seq<Terminal>, w: nat, inst: Inst)
    requires w < |xs| && xs[w].inst == inst
    ensures Attached(xs, inst, xs[w].pin)
  {
    assert xs[w] == Terminal(inst, xs[w].pin);
  }

  lemma {:induction false} AttachedAll(xs: seq<Terminal>, inst: Inst, related: Pin?)
    ensures !Attached(xs[..0], inst, related) && Attached(xs[..|xs|], inst, related) == Attached(xs, inst, related)
  {
    assert xs[..|xs|] == xs;
  }

  lemma {:induction false} AttachedSnoc(xs: seq<Terminal>, w: nat, inst: Inst, related: Pin?)
    requires w < |xs|
    ensures Attached(xs[..w + 1], inst, related) <==> Attached(xs[..w], inst, related) || (xs[w].pin == related && xs[w].inst == inst)
  {
    assert xs[..w + 1] == xs[..w] + [xs[w]];
  }

  lemma {:induction false} FinishedNext(r: Run, net: Net, arc: CellArc, inst: Inst, z: nat)
    requires Wired(r.g) && z < |r.g.nets| && Finished(r, net, arc, inst, z)
    requires r.g.nets[z] in r.g.conns
    requires Attached(r.g.conns[r.g.nets[z]], inst, arc.related) ==> OtherDone(r, net, r.g.nets[z])
    ensures Finished(r, net, arc, inst, z + 1)
  {
  }

  method UpdateOne(net: Net, other: Net, u: nat, v: nat, z: nat, arc: CellArc, inst: Inst, at: Addresses, ghost r: Run)
    requires Wired(r.g) && Position(r, net, u, v) && inst == r.g.conns[net][u].inst && arc == r.g.library[inst.cell][v]
    requires z < |r.g.nets| && other == r.g.nets[z] && other in r.g.conns && other.conns == r.g.conns[other]
    requires Attached(other.conns, inst, arc.related)
    requires Going(r, at, net, |Before(r.g, net, u, v, 0)|) && Finished(r, net, arc, inst, z)
    modifies r.nets`invalid, r.nets`arcs, r.cell`arcs, r.w.cells`invalid, r.w.insts`invalid
    ensures Going(r, at, net, |Before(r.g, net, u, v, 0)|) && Finished(r, net, arc, inst, z) && OtherDone(r, net, other)
    decreases r.dirt, 2
  {
    hide Going, Ready, Pushing, Attached, NetSettled, Stable, FinishedIn, DirtyNets;
    ghost var s', k := States(r.nets), |Before(r.g, net, u, v, 0)|;
    GoingParts(r, at, net, k);
    NextFeed(r.g, net, u, v, z);
    ghost var i := |Before(r.g, net, u, v, z)|;
    UpdateNet(other, at, r.busy + {net}, r.dirt, r);
    GoingOn(r, at, net, other, k, i, s');
    FinishedStays(r, net, arc, inst, z, s', States(r.nets));
  }

  lemma {:induction false} GoingParts(r: Run, at: Addresses, net: Net, k: nat)
    requires Going(r, at, net, k)
    ensures Ready(r, at) && Growth(r, net, k) && Pushing(r, at, r.busy + {net}) && DirtyNets(States(r.nets)) <= r.dirt
    ensures r.g.conns.Keys == r.nets
  {
  }

  lemma {:induction false} GoingOn(r: Run, at: Addresses, net: Net, other: Net, k: nat, i: nat, s: map<Net, NetState>)
    requires Ready(r, at) && Pushing(r, at, r.busy + {net}) && net in r.g.conns && other in r.nets
    requires i < |Feeds(r.g, net)| && Feeds(r.g, net)[i].from == other
    requires Growing(r.g, r.rank, r.busy, r.s, s, net, k) && net in s && Stable(r.s, s) && s[net].clean && net in r.s && !r.s[net].clean
    requires net in r.nets && DirtyNets(s) <= r.dirt
    requires NetSettled(r.g, r.rank, r.busy + {net}, s, States(r.nets), other) && Stable(s, States(r.nets)) && States(r.nets)[other].clean
    ensures Going(r, at, net, k) && OtherDone(r, net, other)
  {
    OtherUpdated(r, net, other, k, i, s, States(r.nets));
  }

  // The other net was updated while net is at feed k; its arcs are to come at feed i.
  lemma {:induction false} OtherUpdated(r: Run, net: Net, other: Net, k: nat, i: nat, s': map<Net, NetState>, s'': map<Net, NetState>)
    requires Wired(r.g) && net in r.g.conns && i < |Feeds(r.g, net)| && Feeds(r.g, net)[i].from == other
    requires Growing(r.g, r.rank, r.busy, r.s, s', net, k) && net in s' && Stable(r.s, s') && s'[net].clean && net in r.s
    requires NetSettled(r.g, r.rank, r.busy + {net}, s', s'', other) && Stable(s', s'') && other in s'' && s''[other].clean
    ensures Growing(r.g, r.rank, r.busy, r.s, s'', net, k) && Stable(r.s, s'') && net in s'' && s''[net].clean
    ensures DirtyNets(s'') <= DirtyNets(s')
  {
    GrowingUpdated(r.g, r.rank, r.busy, r.s, s', s'', net, k, other);
    StableTransitive(r.s, s', s'');
    StableDirt(s', s'');
    assert s''[net] == s'[net];
  }

  lemma {:induction false} FinishedStays(r: Run, net: Net, arc: CellArc, inst: Inst, z: nat, s: map<Net, NetState>, s': map<Net, NetState>)
    requires Wired(r.g) && z <= |r.g.nets| && Stable(s, s') && FinishedIn(r, net, arc, inst, z, s)
    ensures FinishedIn(r, net, arc, inst, z, s')
  {
    if Sound(r, net) {
      forall j | 0 <= j < z && Attached(r.g.conns[r.g.nets[j]], inst, arc.related) ensures r.g.nets[j] in s' && s'[r.g.nets[j]].clean {
        assert s'[r.g.nets[j]] == s[r.g.nets[j]];
      }
    }
  }

  // The loop that forwards the arcs of the nets on the arc's input.
  method ForwardRelated(net: Net, u: nat, v: nat, arc: CellArc, inst: Inst, at: Addresses, ghost r: Run)
    requires Wired(r.g) && Position(r, net, u, v) && inst == r.g.conns[net][u].inst && arc == r.g.library[inst.cell][v]
    requires Going(r, at, net, |Before(r.g, net, u, v, 0)|) && Finished(r, net, arc, inst, |r.g.nets|)
    modifies net`arcs
    ensures Going(r, at, net, |Before(r.g, net, u, v, |r.g.nets|)|)
  {
    hide Going, Finished;
    GoingReads(r, at, net, |Before(r.g, net, u, v, 0)|);
    for z := 0 to |net.cell.nets|
      invariant Going(r, at, net, |Before(r.g, net, u, v, z)|) && Finished(r, net, arc, inst, |r.g.nets|)
    {
      ForwardAttached(net, net.cell.nets[z], u, v, z, arc, inst, at, r);
    }
  }

  method IsAttached(conns: seq<Terminal>, inst: Inst, related: Pin?) returns (yes: bool)
    ensures yes <==> Attached(conns, inst, related)
  {
    yes := false;
    for w := 0 to |conns|
      invariant !yes && !Attached(conns[..w], inst, related)
    {
      assert conns[..w + 1] == conns[..w] + [conns[w]];
      if conns[w].pin == related && conns[w].inst == inst {
        assert conns[w] == Terminal(inst, related);
        return true;
      }
    }
    assert conns[..|conns|] == conns;
  }

  method IsAttachedTo(other: Net, ghost u: nat, ghost v: nat, ghost z: nat, arc: CellArc, inst: Inst, ghost at: Addresses, ghost net: Net, ghost r: Run)
    returns (yes: bool)
    requires Wired(r.g) && Position(r, net, u, v) && z <= |r.g.nets|
    requires Going(r, at, net, |Before(r.g, net, u, v, z)|) && Finished(r, net, arc, inst, |r.g.nets|)
    ensures yes <==> Attached(other.conns, inst, arc.related)
    ensures Going(r, at, net, |Before(r.g, net, u, v, z)|) && Finished(r, net, arc, inst, |r.g.nets|)
  {
    hide Before, Growing, Pushable, NoSelfFeed, AllPublished, Attached, CellArcs.Sorted, Stable, MarksFollow, OthersKept;
    yes := IsAttached(other.conns, inst, arc.related);
  }

  method ForwardAttached(net: Net, other: Net, u: nat, v: nat, z: nat, arc: CellArc, inst: Inst, at: Addresses, ghost r: Run)
    requires Wired(r.g) && Position(r, net, u, v) && inst == r.g.conns[net][u].inst && arc == r.g.library[inst.cell][v]
    requires z < |r.g.nets| && other == r.g.nets[z]
    requires Going(r, at, net, |Before(r.g, net, u, v, z)|) && Finished(r, net, arc, inst, |r.g.nets|)
    modifies net`arcs
    ensures Going(r, at, net, |Before(r.g, net, u, v, z + 1)|) && Finished(r, net, arc, inst, |r.g.nets|)
  {
    hide Going, Finished, Before, Attached;
    GoingReads(r, at, net, |Before(r.g, net, u, v, z)|);
    NextFeed(r.g, net, u, v, z);
    var related := IsAttachedTo(other, u, v, z, arc, inst, at, net, r);
    if related {
      ForwardFeed(net, other, |Before(r.g, net, u, v, z)|, arc, inst, at, r);
    }
  }

  // The arcs of the other net go to the net, which has reached feed i.
  method ForwardFeed(net: Net, other: Net, ghost i: nat, arc: CellArc, ghost inst: Inst, at: Addresses, ghost r: Run)
    requires Wired(r.g) && net in r.g.conns && NetWired(r.g, net) && i < |Feeds(r.g, net)| && Feeds(r.g, net)[i] == Feed(arc, other)
    requires other in r.g.nets && other in r.g.conns && other.conns == r.g.conns[other] && Attached(other.conns, inst, arc.related)
    requires Going(r, at, net, i) && Finished(r, net, arc, inst, |r.g.nets|)
    modifies net`arcs
    ensures Going(r, at, net, i + 1) && Finished(r, net, arc, inst, |r.g.nets|)
  {
    hide DirtyNets, StatesOk, Pushable, NoSelfFeed, AllPublished, MarksFollow, OthersKept, Attached, Growing, CellArcs.Sorted, Stable, CircuitOf;
    ghost var s' := States(r.nets);
    ReadyNets(r, at);
    FitToForward(r, at, net, other, i);
    OtherIsClean(r, net, other, arc, inst);
    ForwardStill(net, other, arc, at, r, s');
    FeedForwarded(r, at, net, i, s', States(r.nets));
    Forwarding(r, net, s', arc, inst);
  }

  method ForwardStill(net: Net, other: Net, arc: CellArc, ghost at: Addresses, ghost r: Run, ghost s: map<Net, NetState>)
    requires Ready(r, at) && net in r.nets && other in r.nets && s == States(r.nets) && MarksFollow(r.w, r.cell, r.marks, r.tables)
    requires net in r.g.exposed && net in r.g.load && other in r.g.conns && other in r.g.exposed
    requires SinglePin(r.g.conns[other]) && (other == net ==> r.g.exposed[other])
    modifies net`arcs
    ensures Ready(r, at) && MarksFollow(r.w, r.cell, r.marks, r.tables) && r.cell.arcs == old(r.cell.arcs)
    ensures States(r.nets) == s[net := NetState(s[net].clean, s[net].arcs + Forwarded(r.g, net, Feed(arc, other), s[other].arcs))]
  {
    hide Pushable, NoSelfFeed, Forwarded, MarksFollow, Wired, Distinct, SinglePin;
    assert s[net] == StateOf(net) && s[other] == StateOf(other) && r.g.conns[other] == other.conns && r.g.exposed[other] == other.exposed;
    Forward(net, other, arc, r.nets, r.g);
  }

  lemma {:induction false} FeedForwarded(r: Run, at: Addresses, net: Net, i: nat, s: map<Net, NetState>, s': map<Net, NetState>)
    requires Wired(r.g) && Pushable(r.g, r.cell, at) && net in r.g.conns && NetWired(r.g, net) && i < |Feeds(r.g, net)| && net in s
    requires Growing(r.g, r.rank, r.busy, r.s, s, net, i) && net in r.s && !r.s[net].clean
    requires AllPublished(r.g, r.cell, at, s, ArcMap(r.cell.arcs), r.busy + {net})
    requires var f := Feeds(r.g, net)[i]; f.from in r.g.conns && f.from in r.g.exposed && f.from in s && (Sound(r, net) ==> s[f.from].clean)
    requires s' == s[net := NetState(s[net].clean, s[net].arcs + Forwarded(r.g, net, Feeds(r.g, net)[i], s[Feeds(r.g, net)[i].from].arcs))]
    ensures Growing(r.g, r.rank, r.busy, r.s, s', net, i + 1)
    ensures AllPublished(r.g, r.cell, at, s', ArcMap(r.cell.arcs), r.busy + {net})
  {
    ForwardPublished(r.g, r.cell, at, s, s', ArcMap(r.cell.arcs), r.busy + {net}, net, i);
    GrowingForward(r.g, r.rank, r.busy, r.s, s, s', net, i);
  }

  lemma {:induction false} FitToForward(r: Run, at: Addresses, net: Net, other: Net, i: nat)
    requires Going(r, at, net, i) && net in r.g.conns && NetWired(r.g, net) && other in r.g.conns
    requires i < |Feeds(r.g, net)| && Feeds(r.g, net)[i].from == other
    ensures SinglePin(r.g.conns[other]) && NetWired(r.g, other) && (other == net ==> r.g.exposed[other])
  {
    assert NetWired(r.g, other) && SinglePins(r.g);
  }

  lemma {:induction false} OtherIsClean(r: Run, net: Net, other: Net, arc: CellArc, inst: Inst)
    requires Wired(r.g) && other in r.g.nets && other in r.g.conns && Attached(r.g.conns[other], inst, arc.related)
    requires Finished(r, net, arc, inst, |r.g.nets|)
    ensures OtherDone(r, net, other)
  {
    var j :| 0 <= j < |r.g.nets| && r.g.nets[j] == other;
  }

  lemma {:induction false} ForwardPublished(g: Circuit, cell: Cell, at: Addresses, s: map<Net, NetState>, s': map<Net, NetState>, m: ArcTables,
                                            busy: set<Net>, net: Net, i: nat)
    requires Wired(g) && Pushable(g, cell, at) && AllPublished(g, cell, at, s, m, busy) && net in s && net in busy
    requires NetWired(g, net) && i < |Feeds(g, net)| && var f := Feeds(g, net)[i]; f.from in s && f.from in g.exposed
    requires s' == s[net := NetState(s[net].clean, s[net].arcs + Forwarded(g, net, Feeds(g, net)[i], s[Feeds(g, net)[i].from].arcs))]
    ensures AllPublished(g, cell, at, s', m, busy)
  {
    var from := Feeds(g, net)[i].from;
    assert NetKnown(g, cell, at, net, s[net].arcs) && NetKnown(g, cell, at, from, s[from].arcs);
    ForwardKnown(g, cell, at, net, i, s[net].arcs, s[from].arcs);
    BusyPublished(g, cell, at, s, s', m, busy, busy, net);
  }

  // Appending to the net in hand disturbs no other.
  lemma {:induction false} Forwarding(r: Run, net: Net, s: map<Net, NetState>, arc: CellArc, inst: Inst)
    requires Wired(r.g) && s.Keys == r.nets && net in r.nets && Stable(r.s, s) && s[net].clean
    requires net in r.s && !r.s[net].clean
    requires States(r.nets)[net].clean && States(r.nets) == s[net := States(r.nets)[net]]
    requires Sound(r, net) ==> forall j :: 0 <= j < |r.g.nets| && Attached(r.g.conns[r.g.nets[j]], inst, arc.related) ==>
               r.g.nets[j] in r.nets && s[r.g.nets[j]].clean
    ensures Stable(r.s, States(r.nets)) && Finished(r, net, arc, inst, |r.g.nets|)
    ensures DirtyNets(States(r.nets)) <= DirtyNets(s)
  {
    forall n {:trigger States(r.nets)[n]} | n in r.s && r.s[n].clean ensures States(r.nets)[n] == r.s[n] {
      assert s[n] == r.s[n];
    }
  }

  // --- Whole runs ------------------------------------------------------------------

  /** One arc for every timing path back to the first exposed net, and no other. */
  ghost predicate HasPathArcs(g: Circuit, rank: map<Net, nat>, n: Net, arcs: seq<NetArc>) {
    && AcyclicFeeds(g, rank) && n in g.conns && |arcs| == |Paths(g, rank, n)|
    && forall j :: 0 <= j < |arcs| ==> IsPath(g, n, Paths(g, rank, n)[j]) && arcs[j] == ArcOf(g, n, Paths(g, rank, n)[j])
  }

  /** The loop of phx_cell_update_timing over the nets, in any order: every net ends up with
      exactly the arcs of its paths, and a net that was clean is left alone. */
  method UpdateInOrder(order: seq<Net>, at: Addresses, ghost r: Run)
    requires Ready(r, at) && Pushing(r, at, {}) && forall j :: 0 <= j < |order| ==> order[j] in r.nets
    modifies r.nets`invalid, r.nets`arcs, r.cell`arcs, r.w.cells`invalid, r.w.insts`invalid
    ensures Ready(r, at) && Pushing(r, at, {}) && Stable(old(States(r.nets)), States(r.nets))
    ensures InCell(r, {}) && forall j :: 0 <= j < |order| ==> TIMING !in order[j].invalid
    ensures StatesOk(r.g, r.rank, old(States(r.nets)), {}) ==>
              && StatesOk(r.g, r.rank, States(r.nets), {})
              && forall j :: 0 <= j < |order| ==> HasPathArcs(r.g, r.rank, order[j], order[j].arcs)
  {
    hide CircuitOf, Ready, Pushing, InCell;
    ghost var start := States(r.nets);
    ghost var right := StatesOk(r.g, r.rank, start, {});
    for z := 0 to |order|
      invariant Ready(r, at) && Pushing(r, at, {}) && Stable(start, States(r.nets)) && (right ==> StatesOk(r.g, r.rank, States(r.nets), {}))
      invariant forall j :: 0 <= j < z ==> States(r.nets)[order[j]].clean
    {
      ghost var s := States(r.nets);
      UpdateNet(order[z], at, {}, DirtyNets(s), r);
      StableTransitive(start, s, States(r.nets));
      forall j | 0 <= j < z ensures States(r.nets)[order[j]].clean {
        assert States(r.nets)[order[j]] == s[order[j]];
      }
    }
    FinishedInCell(r, at, {});
    forall j | 0 <= j < |order| ensures TIMING !in order[j].invalid {
      assert States(r.nets)[order[j]] == StateOf(order[j]);
    }
    if right {
      forall j | 0 <= j < |order| ensures HasPathArcs(r.g, r.rank, order[j], order[j].arcs) {
        assert States(r.nets)[order[j]] == StateOf(order[j]);
        CleanHasPathArcs(r.g, r.rank, States(r.nets), order[j]);
      }
    }
  }

  lemma {:induction false} CleanHasPathArcs(g: Circuit, rank: map<Net, nat>, s: map<Net, NetState>, n: Net)
    requires StatesOk(g, rank, s, {}) && n in s && s[n].clean
    ensures HasPathArcs(g, rank, n, s[n].arcs)
  {
    assert StateRight(g, rank, s, n);
    ArcsArePaths(g, rank, n);
  }

  /** The start: every timing bit set, no arcs. */
  lemma {:induction false} AllDirtyIsOk(r: Run, at: Addresses)
    requires Ready(r, at) && AcyclicFeeds(r.g, r.rank) && forall n :: n in r.nets ==> TIMING in n.invalid && n.arcs == []
    ensures StatesOk(r.g, r.rank, States(r.nets), {})
  {
    forall n {:trigger StateRight(r.g, r.rank, States(r.nets), n)} | n in r.g.conns ensures StateRight(r.g, r.rank, States(r.nets), n) {
      assert States(r.nets)[n] == StateOf(n);
    }
  }

  // What `connect` leaves behind: no bit set, no arcs.
  ghost predicate AsCreated(s: map<Net, NetState>) {
    forall n {:trigger s[n]} :: n in s ==> s[n] == NetState(true, [])
  }

  /** Nets as they are created stay without arcs in every pass; that is right exactly for the
      nets in which no timing path ends. */
  lemma {:induction false} AsCreatedIff(g: Circuit, rank: map<Net, nat>, s: map<Net, NetState>, s': map<Net, NetState>, n: Net)
    requires AcyclicFeeds(g, rank) && s.Keys == g.conns.Keys && AsCreated(s) && Stable(s, s') && n in s
    ensures s' == s && (HasPathArcs(g, rank, n, s'[n].arcs) <==> !HasPath(g, n))
  {
    forall m | m in s ensures s'[m] == s[m] {
      assert s[m].clean;
    }
    SameMap(s, s');
    assert s'[n] == NetState(true, []);
    NoArcsIff(g, rank, n);
  }

  lemma {:induction false} NoArcsIff(g: Circuit, rank: map<Net, nat>, n: Net)
    requires AcyclicFeeds(g, rank) && n in g.conns
    ensures HasPathArcs(g, rank, n, []) <==> !HasPath(g, n)
  {
    var ps := Paths(g, rank, n);
    ArcsArePaths(g, rank, n);
    if HasPath(g, n) {
      var path: seq<nat> :| IsPath(g, n, path);
      assert path in ps;
    }
    if ps != [] {
      assert ps[0] in ps && IsPath(g, n, ps[0]);
      assert HasPath(g, n);
    }
  }

  // --- A net that feeds itself ---------------------------------------------------------

  // The arcs after k turns of the loop over the net's own arcs, each turn of which may add one.
  function Turns(g: Circuit, n: Net, f: Feed, arcs: seq<NetArc>, k: nat): (r: seq<NetArc>)
    requires n in g.exposed && n in g.load
  {
    if k == 0 then arcs
    else
      var t := Turns(g, n, f, arcs, k - 1);
      if k - 1 < |t| && Carries(f.arc) then t + [CombinedArc(g, n, f, t[k - 1])] else t
  }

  /** Forwarding from a net to itself, where it is not exposed, never ends exactly when it has an
      arc and the feed has a table. */
  lemma {:induction false} EndlessIff(g: Circuit, n: Net, f: Feed, arcs: seq<NetArc>)
    requires n in g.exposed && n in g.load
    ensures (forall k: nat :: k < |Turns(g, n, f, arcs, k)|) <==> arcs != [] && Carries(f.arc)
  {
    if arcs != [] && Carries(f.arc) {
      forall k: nat ensures k < |Turns(g, n, f, arcs, k)| {
        TurnsGrow(g, n, f, arcs, k);
      }
    } else {
      var k: nat := |arcs|;
      TurnsGrow(g, n, f, arcs, k);
      assert !(k < |Turns(g, n, f, arcs, k)|);
    }
  }

  lemma {:induction false} TurnsGrow(g: Circuit, n: Net, f: Feed, arcs: seq<NetArc>, k: nat)
    requires n in g.exposed && n in g.load
    ensures |Turns(g, n, f, arcs, k)| == if arcs != [] && Carries(f.arc) then |arcs| + k else |arcs|
  {
    if k > 0 {
      TurnsGrow(g, n, f, arcs, k - 1);
    }
  }

  /** Two buffers drive a net, one from the cell's own pin and one from that net: when it is to be
      forwarded to itself, it has an arc. */
  lemma {:induction false} LoopExample(pa: Pin, pi: Pin, po: Pin, first: Inst, second: Inst, a: Net, b: Net)
    requires pi != po && a != b && first != second && first.cell == second.cell
    ensures var g := LoopCircuit(pa, pi, po, first, second, a, b);
            && Wired(g) && |Feeds(g, b)| == 2 && Feeds(g, b)[0].from == a && Feeds(g, b)[1].from == b && !NoSelfFeed(g)
            && Forwarded(g, b, Feeds(g, b)[0], []) != []
            && forall k: nat :: k < |Turns(g, b, Feeds(g, b)[1], Forwarded(g, b, Feeds(g, b)[0], []), k)|
  {
    var g := LoopCircuit(pa, pi, po, first, second, a, b);
    var arc, xs := CellArc(po, pi, Library(0), Library(1)), g.conns[b];
    assert NetWired(g, a) && NetWired(g, b);
    LoopFeeds(g, arc, pa, first, second, a, b);
    assert xs[..2][..1] == xs[..1] && xs[..1][..0] == [] && FeedsOf(g, []) == [] && xs[..3] == xs && xs[..3][..2] == xs[..2];
    assert FeedsOf(g, xs[..1]) == [Feed(arc, a)];
    assert FeedsOf(g, xs[..2]) == [Feed(arc, a), Feed(arc, b)];
    assert Feeds(g, b) == [Feed(arc, a), Feed(arc, b)];
    assert Forwarded(g, b, Feed(arc, a), []) == [InitialArc(g, b, Feed(arc, a))];
    assert Feeds(g, b)[0] == Feed(arc, a) && Feeds(g, b)[1] == Feed(arc, b);
    EndlessIff(g, b, Feed(arc, b), [InitialArc(g, b, Feed(arc, a))]);
  }

  function LoopCircuit(pa: Pin, pi: Pin, po: Pin, first: Inst, second: Inst, a: Net, b: Net): Circuit {
    Circuit([a, b],
            map[a := [Terminal(null, pa), Terminal(first, pi)], b := [Terminal(first, po), Terminal(second, po), Terminal(second, pi)]],
            map[a := true, b := false], map[a := 0.0, b := 0.0], map[first.cell := [CellArc(po, pi, Library(0), Library(1))]])
  }

  lemma {:induction false} LoopFeeds(g: Circuit, arc: CellArc, pa: Pin, first: Inst, second: Inst, a: Net, b: Net)
    requires arc.related != null && g == LoopCircuit(pa, arc.related, arc.pin, first, second, a, b) && Wired(g)
    requires arc == CellArc(arc.pin, arc.related, Library(0), Library(1)) && arc.related != arc.pin
    requires a != b && first != second && first.cell == second.cell
    ensures FeedsThrough(g, [arc], Terminal(first, arc.pin)) == [Feed(arc, a)]
    ensures FeedsThrough(g, [arc], Terminal(second, arc.pin)) == [Feed(arc, b)]
    ensures FeedsThrough(g, [arc], Terminal(second, arc.related)) == []
  {
    OneArcFeeds(g, arc, Terminal(first, arc.pin));
    OneArcFeeds(g, arc, Terminal(second, arc.pin));
    OneArcFeeds(g, arc, Terminal(second, arc.related));
    assert Terminal(first, arc.related) in g.conns[a] && Terminal(first, arc.related) !in g.conns[b];
    assert g.conns[b][2] == Terminal(second, arc.related) && Terminal(second, arc.related) !in g.conns[a];
    assert [a, b][..1] == [a] && [a][..0] == [];
    assert FeedsFrom(g, [a], first, arc) == [Feed(arc, a)] && FeedsFrom(g, [a], second, arc) == [];
    assert [] + [Feed(arc, b)] == [Feed(arc, b)];
  }
}
