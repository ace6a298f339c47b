/** The timing arcs that finished nets have passed on to their cell (the end of phx_net_update_timing):
    what one net pushes stays when the other nets push theirs. */
module Publishing {
  import opened Marks
  import opened Design
  import opened NetTiming
  import opened CellArcs

  // --- Pushing as merging ------------------------------------------------------------

  lemma {:induction false} PushIsMerge(m: ArcTables, pin: Pin, net: seq<NetArc>)
    ensures PushAll(m, pin, net) == m + PushAll(map[], pin, net)
    ensures forall k :: k in PushAll(map[], pin, net) ==> k.0 == pin
  {
    if net != [] {
      PushIsMerge(m, pin, net[..|net| - 1]);
    }
  }

  // The own pin on a net, of which there is one at most.
  function OwnPinOn(cell: Cell, xs: seq<Terminal>): (p: Pin?)
    ensures p == null <==> forall j :: 0 <= j < |xs| ==> !OwnPin(cell, xs[j])
    ensures p != null ==> exists j :: 0 <= j < |xs| && OwnPin(cell, xs[j]) && xs[j].pin == p
  {
    if xs == [] then null
    else if OwnPin(cell, xs[|xs| - 1]) then xs[|xs| - 1].pin
    else OwnPinOn(cell, xs[..|xs| - 1])
  }

  function Pushed(m: ArcTables, pin: Pin?, net: seq<NetArc>): ArcTables {
    if pin == null then m else PushAll(m, pin, net)
  }

  lemma {:induction false} OnePush(m: ArcTables, cell: Cell, xs: seq<Terminal>, net: seq<NetArc>)
    requires SinglePin(xs)
    ensures PushTerminals(m, cell, xs, net) == Pushed(m, OwnPinOn(cell, xs), net)
  {
    if xs != [] {
      var n := |xs| - 1;
      OnePush(m, cell, xs[..n], net);
      if OwnPin(cell, xs[n]) {
        assert OwnPinOn(cell, xs[..n]) == null;
      }
    }
  }

  /** The cell has the arcs of the net: pushing them again changes nothing. */
  predicate Published(m: ArcTables, cell: Cell, xs: seq<Terminal>, net: seq<NetArc>) {
    Pushed(m, OwnPinOn(cell, xs), net) == m
  }

  lemma {:induction false} PushedTwice(m: ArcTables, pin: Pin?, net: seq<NetArc>)
    ensures Pushed(Pushed(m, pin, net), pin, net) == Pushed(m, pin, net)
  {
    if pin != null {
      PushIsMerge(m, pin, net);
      PushIsMerge(PushAll(m, pin, net), pin, net);
    }
  }

  lemma {:induction false} PushedBeside(m: ArcTables, pin: Pin?, net: seq<NetArc>, other: Pin?, more: seq<NetArc>)
    requires pin != other || pin == null
    requires Pushed(m, pin, net) == m
    ensures Pushed(Pushed(m, other, more), pin, net) == Pushed(m, other, more)
  {
    if pin != null && other != null {
      var a, b := PushAll(map[], pin, net), PushAll(map[], other, more);
      PushIsMerge(m, pin, net);
      PushIsMerge(m, other, more);
      PushIsMerge(PushAll(m, other, more), pin, net);
      assert m + b + a == m + a + b;
    }
  }

  // --- The nets of a cell ---------------------------------------------------------------

  ghost predicate FullArc(arc: CellArc) {
    arc.delay != NoTable && arc.transition != NoTable
  }

  ghost predicate HasOwnPin(cell: Cell, xs: seq<Terminal>) {
    exists j :: 0 <= j < |xs| && OwnPin(cell, xs[j])
  }

  /** What pushing assumes of a circuit: the tables that reach an own pin are there, as the
      assertion wants them, and no own pin is on two nets. */
  ghost predicate Pushable(g: Circuit, cell: Cell, at: Addresses)
    requires Wired(g)
  {
    && null in at && SinglePins(g)
    && (forall n {:trigger g.conns[n]} :: n in g.conns ==> forall j :: 0 <= j < |g.conns[n]| ==> g.conns[n][j].pin in at)
    && (forall n, i {:trigger Feeds(g, n)[i]} :: n in g.conns && 0 <= i < |Feeds(g, n)| && HasOwnPin(cell, g.conns[n]) ==> FullArc(Feeds(g, n)[i].arc))
    && (forall n, m {:trigger OwnPinOn(cell, g.conns[n]), OwnPinOn(cell, g.conns[m])} :: n in g.conns && m in g.conns && n != m ==>
          OwnPinOn(cell, g.conns[n]) != OwnPinOn(cell, g.conns[m]) || OwnPinOn(cell, g.conns[n]) == null)
  }

  ghost predicate KnownArcs(at: Addresses, arcs: seq<NetArc>) {
    forall i :: 0 <= i < |arcs| ==> arcs[i].related in at
  }

  ghost predicate NetKnown(g: Circuit, cell: Cell, at: Addresses, n: Net, arcs: seq<NetArc>) {
    && n in g.conns && KnownArcs(at, arcs)
    && (HasOwnPin(cell, g.conns[n]) ==> FullArcs(at, arcs))
  }

  ghost predicate NetPublished(g: Circuit, cell: Cell, m: ArcTables, busy: set<Net>, n: Net, state: NetState) {
    n in g.conns && (state.clean && n !in busy ==> Published(m, cell, g.conns[n], state.arcs))
  }

  /** Finished nets that are not being updated have passed on their arcs. */
  ghost predicate AllPublished(g: Circuit, cell: Cell, at: Addresses, s: map<Net, NetState>, m: ArcTables, busy: set<Net>) {
    && s.Keys == g.conns.Keys
    && (forall n {:trigger NetKnown(g, cell, at, n, s[n].arcs)} :: n in s ==> NetKnown(g, cell, at, n, s[n].arcs))
    && (forall n {:trigger NetPublished(g, cell, m, busy, n, s[n])} :: n in s ==> NetPublished(g, cell, m, busy, n, s[n]))
  }

  // The net in hand may change its state.
  lemma {:induction false} BusyPublished(g: Circuit, cell: Cell, at: Addresses, s: map<Net, NetState>, s': map<Net, NetState>, m: ArcTables,
                                         busy: set<Net>, busy': set<Net>, net: Net)
    requires AllPublished(g, cell, at, s, m, busy) && net in s && busy <= busy' && net in busy'
    requires net in s' && s' == s[net := s'[net]] && NetKnown(g, cell, at, net, s'[net].arcs)
    ensures AllPublished(g, cell, at, s', m, busy')
  {
    forall n {:trigger NetKnown(g, cell, at, n, s'[n].arcs)} | n in s' ensures NetKnown(g, cell, at, n, s'[n].arcs) {
      assert n != net ==> NetKnown(g, cell, at, n, s[n].arcs);
    }
    forall n {:trigger NetPublished(g, cell, m, busy', n, s'[n])} | n in s' ensures NetPublished(g, cell, m, busy', n, s'[n]) {
      assert NetPublished(g, cell, m, busy, n, s[n]);
    }
  }

  // The net in hand pushes its arcs.
  lemma {:induction false} DonePublished(g: Circuit, cell: Cell, at: Addresses, s: map<Net, NetState>, m: ArcTables, m': ArcTables, busy: set<Net>, net: Net)
    requires Wired(g) && Pushable(g, cell, at) && AllPublished(g, cell, at, s, m, busy + {net}) && net in s
    requires m' == PushTerminals(m, cell, g.conns[net], s[net].arcs)
    ensures AllPublished(g, cell, at, s, m', busy)
  {
    assert SinglePin(g.conns[net]);
    OnePush(m, cell, g.conns[net], s[net].arcs);
    var pin := OwnPinOn(cell, g.conns[net]);
    forall n {:trigger NetPublished(g, cell, m', busy, n, s[n])} | n in s ensures NetPublished(g, cell, m', busy, n, s[n]) {
      if n == net {
        PushedTwice(m, pin, s[net].arcs);
      } else if s[n].clean && n !in busy {
        assert NetPublished(g, cell, m, busy + {net}, n, s[n]);
        PushedBeside(m, OwnPinOn(cell, g.conns[n]), s[n].arcs, pin, s[net].arcs);
      }
    }
  }

  /** The arcs of a net that has passed them on are under the cell's own pin on the net. */
  lemma {:induction false} PublishedHasArcs(m: ArcTables, cell: Cell, xs: seq<Terminal>, net: seq<NetArc>)
    requires SinglePin(xs) && Published(m, cell, xs, net)
    ensures forall j :: 0 <= j < |xs| && xs[j].inst == null && xs[j].pin.cell == cell ==> HasArcs(m, xs[j].pin, net)
  {
    OnePush(m, cell, xs, net);
    PushedSays(m, cell, xs, net);
  }

  /** The pin is one of the cell's own and on a net of the circuit. */
  ghost predicate OnNet(g: Circuit, cell: Cell, p: Pin) {
    exists n, j :: n in g.conns && 0 <= j < |g.conns[n]| && g.conns[n][j].inst == null && g.conns[n][j].pin.cell == cell && g.conns[n][j].pin == p
  }

  /** Under all other pins the cell's arcs are what they were. */
  ghost predicate OthersKept(g: Circuit, cell: Cell, m: ArcTables, m': ArcTables) {
    && (forall k :: k in m && !OnNet(g, cell, k.0) ==> k in m')
    && (forall k :: k in m' && !OnNet(g, cell, k.0) ==> k in m && m'[k] == m[k])
  }

  lemma {:induction false} PushKeepsOthers(g: Circuit, cell: Cell, was: ArcTables, m: ArcTables, m': ArcTables, n: Net)
    requires n in g.conns && OthersKept(g, cell, was, m) && BesideKept(cell, g.conns[n], m, m')
    ensures OthersKept(g, cell, was, m')
  {
    forall k | k in m' && !OnNet(g, cell, k.0) ensures k in was && m'[k] == was[k] {
      var xs := g.conns[n];
      assert forall j :: 0 <= j < |xs| && xs[j].inst == null && xs[j].pin.cell == cell ==> xs[j].pin != k.0;
    }
  }

  /** The buffer's output net passes on one arc, from the output pin to the input pin with the buffer's tables. */
  lemma {:induction false} BufferPushed(pa: Pin, pi: Pin, po: Pin, pb: Pin, buffer: Inst, a: Net, b: Net, cell: Cell)
    requires pi != po && a != b
    ensures var g, rank := BufferCircuit(pa, pi, po, pb, buffer, a, b), map[a := 0, b := 1];
            && AcyclicFeeds(g, rank)
            && PushTerminals(map[], cell, g.conns[b], NetArcs(g, rank, b))
               == if pb.cell == cell then map[(pb, pa) := (Library(0), Library(1))] else map[]
  {
    var g, rank := BufferCircuit(pa, pi, po, pb, buffer, a, b), map[a := 0, b := 1];
    BufferExample(pa, pi, po, pb, buffer, a, b);
    var x, arc := Terminal(null, pb), NetArc(pa, Library(0), Library(1));
    assert g.conns[b][..1] == [Terminal(buffer, po)] && g.conns[b][..1][..0] == [];
    assert PushTerminals(map[], cell, g.conns[b][..1], [arc]) == map[];
    assert [arc][..0] == [] && PushAll(map[], pb, [arc]) == map[(pb, pa) := (Library(0), Library(1))];
  }

  // --- Forwarding keeps the arcs fit for pushing --------------------------------------------

  lemma {:induction false} ExposedKnown(xs: seq<Terminal>, at: Addresses)
    requires null in at && forall j :: 0 <= j < |xs| ==> xs[j].pin in at
    ensures ExposedPin(xs) in at
  {
    if xs != [] {
      ExposedKnown(xs[..|xs| - 1], at);
    }
  }

  lemma {:induction false} ForwardKnown(g: Circuit, cell: Cell, at: Addresses, n: Net, i: nat, was: seq<NetArc>, earlier: seq<NetArc>)
    requires Wired(g) && Pushable(g, cell, at) && n in g.conns && n in g.exposed && n in g.load && i < |Feeds(g, n)|
    requires var f := Feeds(g, n)[i]; f.from in g.conns && f.from in g.exposed
    requires NetKnown(g, cell, at, n, was) && KnownArcs(at, earlier)
    ensures NetKnown(g, cell, at, n, was + Forwarded(g, n, Feeds(g, n)[i], earlier))
  {
    var f := Feeds(g, n)[i];
    ExposedKnown(g.conns[f.from], at);
  }
}
