/** The timing of a cell's nets: each net gets one arc per timing path back to the first
    exposed net, whatever the order in which the nets are updated. */
module NetTiming {
  import opened Marks
  import opened Design
  import opened IndexPaths

  /** What the timing depends on: the nets of a cell in order, their terminals, exposure and
      load, and the timing arcs of the instantiated cells. */
  datatype Circuit = Circuit(nets: seq<Net>, conns: map<Net, seq<Terminal>>, exposed: map<Net, bool>, load: map<Net, real>,
                             library: map<Cell, seq<CellArc>>)

  /** A library arc that drives a net, and the net it comes from. */
  datatype Feed = Feed(arc: CellArc, from: Net)

  // The net is attached to the arc's input at the instance.
  predicate Attached(conns: seq<Terminal>, inst: Inst, related: Pin?) {
    related != null && Terminal(inst, related) in conns
  }

  // The nets on an arc's input, in the order of the cell's nets.
  ghost function FeedsFrom(g: Circuit, nets: seq<Net>, inst: Inst, arc: CellArc): (fs: seq<Feed>)
    requires forall j :: 0 <= j < |nets| ==> nets[j] in g.conns
  {
    if nets == [] then []
    else
      var n := |nets| - 1;
      FeedsFrom(g, nets[..n], inst, arc) + (if Attached(g.conns[nets[n]], inst, arc.related) then [Feed(arc, nets[n])] else [])
  }

  // The feeds through the arcs to a terminal's pin.
  ghost function FeedsThrough(g: Circuit, arcs: seq<CellArc>, x: Terminal): (fs: seq<Feed>)
    requires x.inst != null && Wired(g)
  {
    if arcs == [] then []
    else
      var n := |arcs| - 1;
      FeedsThrough(g, arcs[..n], x) + (if arcs[n].pin == x.pin then FeedsFrom(g, g.nets, x.inst, arcs[n]) else [])
  }

  ghost function FeedsOf(g: Circuit, xs: seq<Terminal>): (fs: seq<Feed>)
    requires Wired(g) && forall j :: 0 <= j < |xs| ==> xs[j].inst != null ==> xs[j].inst.cell in g.library
  {
    if xs == [] then []
    else
      var n := |xs| - 1;
      FeedsOf(g, xs[..n]) + (if xs[n].inst == null then [] else FeedsThrough(g, g.library[xs[n].inst.cell], xs[n]))
  }

  ghost predicate NetWired(g: Circuit, n: Net) {
    && n in g.conns && n in g.exposed && n in g.load
    && forall j :: 0 <= j < |g.conns[n]| ==> g.conns[n][j].inst != null ==> g.conns[n][j].inst.cell in g.library
  }

  ghost predicate Wired(g: Circuit) {
    && (forall j :: 0 <= j < |g.nets| ==> g.nets[j] in g.conns)
    && (forall n {:trigger NetWired(g, n)} :: n in g.conns ==> NetWired(g, n))
  }

  ghost function Feeds(g: Circuit, n: Net): (fs: seq<Feed>)
    requires Wired(g) && n in g.conns
  {
    assert NetWired(g, n);
    FeedsOf(g, g.conns[n])
  }

  /** No net feeds itself, not even through other nets. */
  ghost predicate AcyclicFeeds(g: Circuit, rank: map<Net, nat>) {
    && Wired(g) && g.conns.Keys <= rank.Keys
    && forall n, i {:trigger Feeds(g, n)[i]} :: n in g.conns && 0 <= i < |Feeds(g, n)| ==>
         Feeds(g, n)[i].from in g.conns && rank[Feeds(g, n)[i].from] < rank[n]
  }

  // --- The arcs of a path ---------------------------------------------------------

  // The load is known where the net is not visible outside the cell.
  function ArcTable(g: Circuit, n: Net, t: TimingTable): TimingTable
    requires n in g.exposed && n in g.load
  {
    if t == NoTable || g.exposed[n] then t else AtLoad(t, g.load[n])
  }

  // A table resampled with an earlier transition, and a delay with an earlier one added, as far as there are both.
  function JoinedBy(t: TimingTable, earlier: TimingTable): TimingTable {
    if t == NoTable || earlier == NoTable then t else Resampled(t, earlier)
  }

  function Added(t: TimingTable, earlier: TimingTable): TimingTable {
    if t == NoTable || earlier == NoTable then t else Sum(t, earlier)
  }

  // The arc has a table at all.
  predicate Carries(arc: CellArc) {
    arc.delay != NoTable || arc.transition != NoTable
  }

  // At most one of the cell's own pins is on the net.
  predicate SinglePin(xs: seq<Terminal>) {
    forall i, j :: 0 <= i < j < |xs| ==> xs[i].inst != null || xs[j].inst != null
  }

  ghost predicate SinglePins(g: Circuit) {
    forall n {:trigger SinglePin(g.conns[n])} :: n in g.conns ==> SinglePin(g.conns[n])
  }

  // The pin through which a net is exposed.
  function ExposedPin(xs: seq<Terminal>): Pin? {
    if xs == [] then null
    else if xs[|xs| - 1].inst == null then xs[|xs| - 1].pin
    else ExposedPin(xs[..|xs| - 1])
  }

  lemma {:induction false} ExposedPinIs(xs: seq<Terminal>)
    requires SinglePin(xs)
    ensures (forall j :: 0 <= j < |xs| && xs[j].inst == null ==> ExposedPin(xs) == xs[j].pin)
    ensures (forall j :: 0 <= j < |xs| ==> xs[j].inst != null) ==> ExposedPin(xs) == null
  {
    if xs != [] {
      ExposedPinIs(xs[..|xs| - 1]);
    }
  }

  function InitialArc(g: Circuit, n: Net, f: Feed): NetArc
    requires n in g.exposed && n in g.load && f.from in g.conns
  {
    NetArc(ExposedPin(g.conns[f.from]), ArcTable(g, n, f.arc.delay), ArcTable(g, n, f.arc.transition))
  }

  /** The arc's tables resampled with the transition seen so far, the delays added up. */
  function CombinedArc(g: Circuit, n: Net, f: Feed, earlier: NetArc): NetArc
    requires n in g.exposed && n in g.load
  {
    NetArc(earlier.related,
           Added(JoinedBy(ArcTable(g, n, f.arc.delay), earlier.transition), earlier.delay),
           JoinedBy(ArcTable(g, n, f.arc.transition), earlier.transition))
  }

  /** A timing path picks one feed after the other, back to the first exposed net; what a feed
      without tables would be combined with is not kept. */
  ghost predicate IsPath(g: Circuit, n: Net, path: seq<nat>)
    requires Wired(g)
    decreases |path|
  {
    && path != [] && n in g.conns && path[0] < |Feeds(g, n)|
    && var from := Feeds(g, n)[path[0]].from;
       from in g.conns && from in g.exposed && if g.exposed[from] then |path| == 1 else Carries(Feeds(g, n)[path[0]].arc) && IsPath(g, from, path[1..])
  }

  ghost predicate HasPath(g: Circuit, n: Net)
    requires Wired(g)
  {
    exists path: seq<nat> :: IsPath(g, n, path)
  }

  /** What the path means for timing. */
  ghost function ArcOf(g: Circuit, n: Net, path: seq<nat>): NetArc
    requires Wired(g) && IsPath(g, n, path)
    decreases |path|
  {
    var f := Feeds(g, n)[path[0]];
    assert NetWired(g, n);
    if g.exposed[f.from] then InitialArc(g, n, f) else CombinedArc(g, n, f, ArcOf(g, f.from, path[1..]))
  }

  // --- The recursion over feeds ---------------------------------------------------

  function Combined(g: Circuit, n: Net, f: Feed, earlier: seq<NetArc>): (arcs: seq<NetArc>)
    requires n in g.exposed && n in g.load
    ensures |arcs| == (if Carries(f.arc) then |earlier| else 0)
    ensures forall i :: 0 <= i < |arcs| ==> arcs[i] == CombinedArc(g, n, f, earlier[i])
  {
    if Carries(f.arc) then seq(|earlier|, i requires 0 <= i < |earlier| => CombinedArc(g, n, f, earlier[i])) else []
  }

  ghost function NetArcs(g: Circuit, rank: map<Net, nat>, n: Net): (arcs: seq<NetArc>)
    requires AcyclicFeeds(g, rank) && n in g.conns
    decreases rank[n], |Feeds(g, n)| + 1
  {
    ArcsVia(g, rank, n, |Feeds(g, n)|)
  }

  // The arcs through the first i feeds.
  ghost function ArcsVia(g: Circuit, rank: map<Net, nat>, n: Net, i: nat): (arcs: seq<NetArc>)
    requires AcyclicFeeds(g, rank) && n in g.conns && i <= |Feeds(g, n)|
    decreases rank[n], i
  {
    if i == 0 then []
    else
      var f := Feeds(g, n)[i - 1];
      assert NetWired(g, n) && NetWired(g, f.from);
      ArcsVia(g, rank, n, i - 1) + (if g.exposed[f.from] then [InitialArc(g, n, f)] else Combined(g, n, f, NetArcs(g, rank, f.from)))
  }

  // All paths from n in the order of its feeds.
  ghost function Paths(g: Circuit, rank: map<Net, nat>, n: Net): (ps: seq<seq<nat>>)
    requires AcyclicFeeds(g, rank) && n in g.conns
    decreases rank[n], |Feeds(g, n)| + 1
  {
    PathsVia(g, rank, n, |Feeds(g, n)|)
  }

  ghost function PathsVia(g: Circuit, rank: map<Net, nat>, n: Net, i: nat): (ps: seq<seq<nat>>)
    requires AcyclicFeeds(g, rank) && n in g.conns && i <= |Feeds(g, n)|
    decreases rank[n], i
  {
    if i == 0 then []
    else
      var f := Feeds(g, n)[i - 1];
      assert NetWired(g, f.from);
      PathsVia(g, rank, n, i - 1)
      + (if g.exposed[f.from] then [[i - 1]] else if Carries(f.arc) then Prefixed(i - 1, Paths(g, rank, f.from)) else [])
  }

  /** The enumeration lists every timing path exactly once, and the recursion over feeds
      yields one arc per path, in the same order. */
  lemma {:induction false} ArcsArePaths(g: Circuit, rank: map<Net, nat>, n: Net)
    requires AcyclicFeeds(g, rank) && n in g.conns
    ensures NoDuplicates(Paths(g, rank, n)) && forall p: seq<nat> :: p in Paths(g, rank, n) <==> IsPath(g, n, p)
    ensures |NetArcs(g, rank, n)| == |Paths(g, rank, n)|
    ensures forall j :: 0 <= j < |Paths(g, rank, n)| ==>
              IsPath(g, n, Paths(g, rank, n)[j]) && NetArcs(g, rank, n)[j] == ArcOf(g, n, Paths(g, rank, n)[j])
    decreases rank[n], |Feeds(g, n)| + 1
  {
    PathsViaAreAll(g, rank, n, |Feeds(g, n)|);
    ArcsViaArePaths(g, rank, n, |Feeds(g, n)|);
  }

  lemma {:induction false} PathsViaAreAll(g: Circuit, rank: map<Net, nat>, n: Net, i: nat)
    requires AcyclicFeeds(g, rank) && n in g.conns && i <= |Feeds(g, n)|
    ensures NoDuplicates(PathsVia(g, rank, n, i))
    ensures forall p: seq<nat> :: p in PathsVia(g, rank, n, i) <==> IsPath(g, n, p) && p[0] < i
    decreases rank[n], i
  {
    hide Attached, FeedsOf, Paths;
    if i > 0 {
      PathsViaAreAll(g, rank, n, i - 1);
      var f := Feeds(g, n)[i - 1];
      assert NetWired(g, f.from);
      if !g.exposed[f.from] {
        ArcsArePaths(g, rank, f.from);
      }
      var back := LastPaths(g, rank, n, i - 1);
      FrontIsPath(g, n, PathsVia(g, rank, n, i - 1), back, i - 1);
    }
  }

  lemma {:induction false} FrontIsPath(g: Circuit, n: Net, front: seq<seq<nat>>, back: seq<seq<nat>>, i: nat)
    requires Wired(g) && NoDuplicates(front) && NoDuplicates(back)
    requires forall p: seq<nat> :: p in front <==> IsPath(g, n, p) && p[0] < i
    requires forall p: seq<nat> :: p in back <==> IsPath(g, n, p) && p[0] == i
    ensures NoDuplicates(front + back) && forall p: seq<nat> :: p in front + back <==> IsPath(g, n, p) && p[0] < i + 1
  {
    hide Feeds, Wired;
    FrontAndBack(front, back, i);
  }

  // The paths through feed i alone.
  lemma {:induction false} LastPaths(g: Circuit, rank: map<Net, nat>, n: Net, i: nat) returns (back: seq<seq<nat>>)
    requires AcyclicFeeds(g, rank) && n in g.conns && i < |Feeds(g, n)| && NetWired(g, Feeds(g, n)[i].from)
    requires var from := Feeds(g, n)[i].from;
             !g.exposed[from] ==> NoDuplicates(Paths(g, rank, from)) && forall p: seq<nat> :: p in Paths(g, rank, from) <==> IsPath(g, from, p)
    ensures var f := Feeds(g, n)[i];
            back == if g.exposed[f.from] then [[i]] else if Carries(f.arc) then Prefixed(i, Paths(g, rank, f.from)) else []
    ensures NoDuplicates(back) && forall p: seq<nat> :: p in back <==> IsPath(g, n, p) && p[0] == i
  {
    var f := Feeds(g, n)[i];
    if g.exposed[f.from] {
      OneFeedPath(g, n, i);
      back := [[i]];
    } else if Carries(f.arc) {
      PrefixedPaths(g, rank, n, i);
      back := Prefixed(i, Paths(g, rank, f.from));
    } else {
      back := [];
    }
  }

  lemma {:induction false} OneFeedPath(g: Circuit, n: Net, i: nat)
    requires Wired(g) && n in g.conns && i < |Feeds(g, n)|
    requires var from := Feeds(g, n)[i].from; from in g.conns && from in g.exposed && g.exposed[from]
    ensures forall p: seq<nat> :: p in [[i]] <==> IsPath(g, n, p) && p[0] == i
  {
    forall p: seq<nat> | IsPath(g, n, p) && p[0] == i ensures p in [[i]] {
      assert p == [i];
    }
  }

  // Paths with different first feeds are different.
  lemma {:induction false} FrontAndBack(front: seq<seq<nat>>, back: seq<seq<nat>>, i: nat)
    requires NoDuplicates(front) && NoDuplicates(back)
    requires (forall p :: p in front ==> p != [] && p[0] < i) && (forall p :: p in back ==> p != [] && p[0] == i)
    ensures NoDuplicates(front + back)
  {
    forall a, b | 0 <= a < |front| && 0 <= b < |back| ensures front[a] != back[b] {
      assert front[a] in front && back[b] in back;
    }
  }

  lemma {:induction false} PrefixedPaths(g: Circuit, rank: map<Net, nat>, n: Net, i: nat)
    requires AcyclicFeeds(g, rank) && n in g.conns && i < |Feeds(g, n)|
    requires Carries(Feeds(g, n)[i].arc)
    requires var from := Feeds(g, n)[i].from; from in g.exposed && !g.exposed[from] && NoDuplicates(Paths(g, rank, from))
    requires var from := Feeds(g, n)[i].from; forall p: seq<nat> :: p in Paths(g, rank, from) <==> IsPath(g, from, p)
    ensures var ps := Prefixed(i, Paths(g, rank, Feeds(g, n)[i].from));
            NoDuplicates(ps) && forall p: seq<nat> :: p in ps <==> IsPath(g, n, p) && p[0] == i
  {
    var ps := Paths(g, rank, Feeds(g, n)[i].from);
    PrefixedDistinct(i, ps);
    forall p: seq<nat> ensures p in Prefixed(i, ps) <==> IsPath(g, n, p) && p[0] == i {
      PrefixedMember(i, ps, p);
    }
  }

  // The arcs belong to the paths, one by one.
  ghost predicate ArcsFit(g: Circuit, n: Net, arcs: seq<NetArc>, ps: seq<seq<nat>>)
    requires Wired(g)
  {
    |arcs| == |ps| && forall j :: 0 <= j < |ps| ==> IsPath(g, n, ps[j]) && arcs[j] == ArcOf(g, n, ps[j])
  }

  lemma {:induction false} ArcsViaArePaths(g: Circuit, rank: map<Net, nat>, n: Net, i: nat)
    requires AcyclicFeeds(g, rank) && n in g.conns && i <= |Feeds(g, n)|
    ensures ArcsFit(g, n, ArcsVia(g, rank, n, i), PathsVia(g, rank, n, i))
    decreases rank[n], i
  {
    hide Attached, FeedsOf, InitialArc, CombinedArc;
    if i > 0 {
      ArcsViaArePaths(g, rank, n, i - 1);
      var f := Feeds(g, n)[i - 1];
      assert NetWired(g, f.from) && NetWired(g, n);
      var front, ps := ArcsVia(g, rank, n, i - 1), PathsVia(g, rank, n, i - 1);
      if g.exposed[f.from] {
        assert ArcOf(g, n, [i - 1]) == InitialArc(g, n, f);
        FitConcat(g, n, front, ps, [InitialArc(g, n, f)], [[i - 1]]);
      } else if Carries(f.arc) {
        ArcsArePaths(g, rank, f.from);
        PrefixedArcs(g, n, i - 1, NetArcs(g, rank, f.from), Paths(g, rank, f.from));
        FitConcat(g, n, front, ps, Combined(g, n, f, NetArcs(g, rank, f.from)), Prefixed(i - 1, Paths(g, rank, f.from)));
      }
    }
  }

  lemma {:induction false} FitConcat(g: Circuit, n: Net, front: seq<NetArc>, ps: seq<seq<nat>>, back: seq<NetArc>, qs: seq<seq<nat>>)
    requires Wired(g) && ArcsFit(g, n, front, ps) && ArcsFit(g, n, back, qs)
    ensures ArcsFit(g, n, front + back, ps + qs)
  {
    hide Feeds, Wired, IsPath;
  }

  lemma {:induction false} PrefixedArcs(g: Circuit, n: Net, i: nat, arcs: seq<NetArc>, ps: seq<seq<nat>>)
    requires Wired(g) && n in g.conns && NetWired(g, n) && i < |Feeds(g, n)|
    requires var f := Feeds(g, n)[i]; f.from in g.conns && f.from in g.exposed && !g.exposed[f.from] && Carries(f.arc) && ArcsFit(g, f.from, arcs, ps)
    ensures ArcsFit(g, n, Combined(g, n, Feeds(g, n)[i], arcs), Prefixed(i, ps))
  {
    hide Attached;
    forall j | 0 <= j < |ps|
      ensures IsPath(g, n, Prefixed(i, ps)[j]) && Combined(g, n, Feeds(g, n)[i], arcs)[j] == ArcOf(g, n, Prefixed(i, ps)[j])
    {
      assert ([i] + ps[j])[1..] == ps[j];
    }
  }

  /** A buffer between two of the cell's own pins: one timing path ends in its output net. */
  lemma {:induction false} BufferExample(pa: Pin, pi: Pin, po: Pin, pb: Pin, buffer: Inst, a: Net, b: Net)
    requires pi != po && a != b
    ensures var g := BufferCircuit(pa, pi, po, pb, buffer, a, b);
            && AcyclicFeeds(g, map[a := 0, b := 1]) && IsPath(g, b, [0])
            && ArcOf(g, b, [0]) == NetArc(pa, Library(0), Library(1))
            && NetArcs(g, map[a := 0, b := 1], b) == [NetArc(pa, Library(0), Library(1))]
  {
    var g := BufferCircuit(pa, pi, po, pb, buffer, a, b);
    var arc, xs, ys := CellArc(po, pi, Library(0), Library(1)), g.conns[a], g.conns[b];
    assert NetWired(g, a) && NetWired(g, b);
    assert Terminal(buffer, pi) in xs && Terminal(buffer, pi) !in ys;
    assert [a, b][..1] == [a] && [a][..0] == [];
    assert FeedsFrom(g, [a], buffer, arc) == [Feed(arc, a)];
    assert FeedsFrom(g, g.nets, buffer, arc) == [Feed(arc, a)];
    OneArcFeeds(g, arc, xs[1]);
    OneArcFeeds(g, arc, ys[0]);
    assert xs[..1][..0] == [] && ys[..1][..0] == [];
    assert FeedsOf(g, []) == [] && ys[..1] == [ys[0]] && g.library[buffer.cell] == [arc];
    assert FeedsOf(g, xs[..1]) == [] && FeedsOf(g, ys[..1]) == [Feed(arc, a)];
    assert Feeds(g, a) == [] && Feeds(g, b) == [Feed(arc, a)];
    assert ExposedPin(xs[..1]) == pa && ExposedPin(xs) == pa;
    OneArc(g, map[a := 0, b := 1], b, Feed(arc, a));
  }

  lemma {:induction false} OneArc(g: Circuit, rank: map<Net, nat>, n: Net, f: Feed)
    requires AcyclicFeeds(g, rank) && n in g.conns && Feeds(g, n) == [f] && f.from in g.exposed && g.exposed[f.from]
    ensures n in g.exposed && n in g.load && f.from in g.conns && NetArcs(g, rank, n) == [InitialArc(g, n, f)]
  {
    assert NetWired(g, n) && Feeds(g, n)[0] == f;
    assert ArcsVia(g, rank, n, 0) == [];
  }

  lemma {:induction false} OneArcFeeds(g: Circuit, arc: CellArc, x: Terminal)
    requires x.inst != null && Wired(g)
    ensures FeedsThrough(g, [arc], x) == if arc.pin == x.pin then FeedsFrom(g, g.nets, x.inst, arc) else []
  {
    assert [arc][..0] == [] && FeedsThrough(g, [], x) == [];
  }

  function BufferCircuit(pa: Pin, pi: Pin, po: Pin, pb: Pin, buffer: Inst, a: Net, b: Net): Circuit {
    Circuit([a, b], map[a := [Terminal(null, pa), Terminal(buffer, pi)], b := [Terminal(buffer, po), Terminal(null, pb)]],
            map[a := true, b := true], map[a := 0.0, b := 0.0], map[buffer.cell := [CellArc(po, pi, Library(0), Library(1))]])
  }

  // --- The state of the nets ---------------------------------------------------------

  datatype NetState = NetState(clean: bool, arcs: seq<NetArc>)

  ghost predicate StateRight(g: Circuit, rank: map<Net, nat>, s: map<Net, NetState>, n: Net)
    requires AcyclicFeeds(g, rank) && n in g.conns && n in s
  {
    s[n].arcs == if s[n].clean then NetArcs(g, rank, n) else []
  }

  /** A clean net has the arcs of all its paths, a dirty one none; the nets being updated
      are exempt. */
  ghost predicate StatesOk(g: Circuit, rank: map<Net, nat>, s: map<Net, NetState>, busy: set<Net>) {
    && AcyclicFeeds(g, rank) && s.Keys == g.conns.Keys
    && forall n {:trigger StateRight(g, rank, s, n)} :: n in g.conns && n !in busy ==> StateRight(g, rank, s, n)
  }

  // Nets that were clean are left alone, on every graph.
  ghost predicate Stable(s: map<Net, NetState>, s': map<Net, NetState>) {
    && s'.Keys == s.Keys
    && forall n {:trigger s'[n]} :: n in s && s[n].clean ==> s'[n] == s[n]
  }

  lemma {:induction false} StableTransitive(s: map<Net, NetState>, s': map<Net, NetState>, s'': map<Net, NetState>)
    requires Stable(s, s') && Stable(s', s'')
    ensures Stable(s, s'')
  {
    forall n {:trigger s''[n]} | n in s && s[n].clean ensures s''[n] == s[n] {
      assert s'[n] == s[n];
    }
  }

  ghost function DirtyNets(s: map<Net, NetState>): set<Net> {
    set n | n in s && !s[n].clean
  }

  lemma {:induction false} StableDirt(s: map<Net, NetState>, s': map<Net, NetState>)
    requires Stable(s, s')
    ensures DirtyNets(s') <= DirtyNets(s)
  {
    forall n | n in DirtyNets(s') ensures n in DirtyNets(s) {
      assert s[n].clean ==> s'[n] == s[n];
    }
  }

  ghost predicate BelowAll(rank: map<Net, nat>, busy: set<Net>, n: Net) {
    n in rank && forall b :: b in busy && b in rank ==> rank[n] < rank[b]
  }

  // The contract of an update, on an acyclic net graph.
  ghost predicate NetSettled(g: Circuit, rank: map<Net, nat>, busy: set<Net>, s: map<Net, NetState>, s': map<Net, NetState>, n: Net) {
    StatesOk(g, rank, s, busy) && n in g.conns && BelowAll(rank, busy, n) ==> StatesOk(g, rank, s', busy) && s'[n].clean
  }

  // While n is updated: it has the arcs through the feeds fs, the first ones of all.
  ghost predicate Growing(g: Circuit, rank: map<Net, nat>, busy: set<Net>, s: map<Net, NetState>, s': map<Net, NetState>, n: Net, i: nat) {
    StatesOk(g, rank, s, busy) && n in g.conns && BelowAll(rank, busy, n) && !s[n].clean ==>
      && StatesOk(g, rank, s', busy + {n}) && s'[n].clean
      && i <= |Feeds(g, n)| && s'[n].arcs == ArcsVia(g, rank, n, i)
  }

  lemma {:induction false} GrowingStart(g: Circuit, rank: map<Net, nat>, busy: set<Net>, s: map<Net, NetState>, n: Net)
    requires n in s && !s[n].clean
    ensures var s' := s[n := NetState(true, s[n].arcs)]; Growing(g, rank, busy, s, s', n, 0) && Stable(s, s')
  {
    var s' := s[n := NetState(true, s[n].arcs)];
    if StatesOk(g, rank, s, busy) && n in g.conns && BelowAll(rank, busy, n) {
      assert n !in busy && StateRight(g, rank, s, n);
      forall m {:trigger StateRight(g, rank, s', m)} | m in g.conns && m !in busy + {n} ensures StateRight(g, rank, s', m) {
        assert StateRight(g, rank, s, m);
      }
    }
  }

  // Updating a net that feeds n.
  lemma {:induction false} GrowingUpdated(g: Circuit, rank: map<Net, nat>, busy: set<Net>, s: map<Net, NetState>,
                                          s': map<Net, NetState>, s'': map<Net, NetState>, n: Net, i: nat, f: Net)
    requires Growing(g, rank, busy, s, s', n, i) && n in s'
    requires NetSettled(g, rank, busy + {n}, s', s'', f) && Stable(s', s'')
    requires StatesOk(g, rank, s, busy) && n in g.conns && BelowAll(rank, busy, n) && !s[n].clean ==> f in g.conns && rank[f] < rank[n]
    ensures Growing(g, rank, busy, s, s'', n, i)
    ensures StatesOk(g, rank, s, busy) && n in g.conns && BelowAll(rank, busy, n) && !s[n].clean ==> f in s'' && s''[f].clean
  {
    if StatesOk(g, rank, s, busy) && n in g.conns && BelowAll(rank, busy, n) && !s[n].clean {
      assert BelowAll(rank, busy + {n}, f);
      assert s''[n] == s'[n];
    }
  }

  // What forwarding through one feed appends.
  ghost function Forwarded(g: Circuit, n: Net, f: Feed, earlier: seq<NetArc>): seq<NetArc>
    requires n in g.exposed && n in g.load && f.from in g.conns && f.from in g.exposed
  {
    if g.exposed[f.from] then [InitialArc(g, n, f)] else Combined(g, n, f, earlier)
  }

  lemma {:induction false} GrowingForward(g: Circuit, rank: map<Net, nat>, busy: set<Net>, s: map<Net, NetState>,
                                          s': map<Net, NetState>, s'': map<Net, NetState>, n: Net, i: nat)
    requires Wired(g) && n in g.conns && i < |Feeds(g, n)| && NetWired(g, n)
    requires Growing(g, rank, busy, s, s', n, i)
    requires var f := Feeds(g, n)[i];
             && f.from in g.conns && f.from in g.exposed && f.from in s' && n in s'
             && (StatesOk(g, rank, s, busy) && BelowAll(rank, busy, n) && !s[n].clean ==> s'[f.from].clean)
             && s'' == s'[n := NetState(s'[n].clean, s'[n].arcs + Forwarded(g, n, f, s'[f.from].arcs))]
    ensures Growing(g, rank, busy, s, s'', n, i + 1)
  {
    if StatesOk(g, rank, s, busy) && BelowAll(rank, busy, n) && !s[n].clean {
      var f := Feeds(g, n)[i];
      assert f.from !in busy + {n};
      assert StateRight(g, rank, s', f.from);
      forall m {:trigger StateRight(g, rank, s'', m)} | m in g.conns && m !in busy + {n} ensures StateRight(g, rank, s'', m) {
        assert StateRight(g, rank, s', m);
      }
    }
  }

  lemma {:induction false} GrowingDone(g: Circuit, rank: map<Net, nat>, busy: set<Net>, s: map<Net, NetState>, s': map<Net, NetState>, n: Net)
    requires Wired(g) && n in g.conns && n in s && !s[n].clean && Growing(g, rank, busy, s, s', n, |Feeds(g, n)|)
    ensures NetSettled(g, rank, busy, s, s', n)
  {
    if StatesOk(g, rank, s, busy) && BelowAll(rank, busy, n) {
      forall m {:trigger StateRight(g, rank, s', m)} | m in g.conns && m !in busy ensures StateRight(g, rank, s', m) {
        assert m != n ==> m !in busy + {n};
      }
    }
  }
}
