/** What a timing path amounts to, feed by feed: the delays along it are added up, each
    resampled with the transition that arrives, and the last transition leaves. */
module PathTiming {
  import opened Marks
  import opened Design
  import opened NetTiming

  // --- The path, feed by feed -----------------------------------------------------

  /** The table of a feed at its net: the load is known inside the cell only. */
  function AtNet(g: Circuit, n: Net, t: TimingTable): TimingTable
    requires n in g.exposed && n in g.load
  {
    if t == NoTable then NoTable
    else if g.exposed[n] then t
    else AtLoad(t, g.load[n])
  }

  ghost function LastFeed(g: Circuit, n: Net, path: seq<nat>): (f: Feed)
    requires Wired(g) && IsPath(g, n, path)
    ensures NetWired(g, n) && f.from in g.conns && f.from in g.exposed
    ensures !g.exposed[f.from] ==> IsPath(g, f.from, path[1..])
  {
    assert NetWired(g, n);
    Feeds(g, n)[path[0]]
  }

  /** The transition at the end of the path. */
  ghost function PathTransition(g: Circuit, n: Net, path: seq<nat>): TimingTable
    requires Wired(g) && IsPath(g, n, path)
    decreases |path|
  {
    var f := LastFeed(g, n, path);
    var own := AtNet(g, n, f.arc.transition);
    if own == NoTable || g.exposed[f.from] || PathTransition(g, f.from, path[1..]) == NoTable then own
    else Resampled(own, PathTransition(g, f.from, path[1..]))
  }

  /** The delays that count, last feed first: those behind the last feed without one. */
  ghost function Delays(g: Circuit, n: Net, path: seq<nat>): (ts: seq<TimingTable>)
    requires Wired(g) && IsPath(g, n, path)
    ensures NoTable !in ts
    decreases |path|
  {
    var f := LastFeed(g, n, path);
    var own := AtNet(g, n, f.arc.delay);
    if own == NoTable then []
    else if g.exposed[f.from] then [own]
    else
      var earlier := PathTransition(g, f.from, path[1..]);
      [if earlier == NoTable then own else Resampled(own, earlier)] + Delays(g, f.from, path[1..])
  }

  /** The exposed net that the path starts from. */
  ghost function PathStart(g: Circuit, n: Net, path: seq<nat>): (from: Net)
    requires Wired(g) && IsPath(g, n, path)
    ensures from in g.conns && from in g.exposed && g.exposed[from]
    decreases |path|
  {
    var f := LastFeed(g, n, path);
    if g.exposed[f.from] then f.from else PathStart(g, f.from, path[1..])
  }

  /** The k terms that k - 1 sums have been made of. */
  function Addends(t: TimingTable, k: nat): (ts: seq<TimingTable>) {
    if k == 0 then []
    else if k > 1 && t.Sum? then [t.delay] + Addends(t.earlier, k - 1)
    else [t]
  }

  // --- What the arc of a path says ------------------------------------------------

  lemma {:induction false} TransitionOfPath(g: Circuit, n: Net, path: seq<nat>)
    requires Wired(g) && IsPath(g, n, path)
    ensures ArcOf(g, n, path).transition == PathTransition(g, n, path)
    decreases |path|
  {
    var f := LastFeed(g, n, path);
    if !g.exposed[f.from] {
      TransitionOfPath(g, f.from, path[1..]);
    }
  }

  lemma {:induction false} DelaysOfPath(g: Circuit, n: Net, path: seq<nat>)
    requires Wired(g) && IsPath(g, n, path)
    ensures ArcOf(g, n, path).delay == NoTable <==> Delays(g, n, path) == []
    ensures Addends(ArcOf(g, n, path).delay, |Delays(g, n, path)|) == Delays(g, n, path)
    decreases |path|
  {
    var f := LastFeed(g, n, path);
    if !g.exposed[f.from] {
      TransitionOfPath(g, f.from, path[1..]);
      DelaysOfPath(g, f.from, path[1..]);
    }
  }

  lemma {:induction false} StartOfPath(g: Circuit, n: Net, path: seq<nat>)
    requires Wired(g) && IsPath(g, n, path)
    ensures ArcOf(g, n, path).related == ExposedPin(g.conns[PathStart(g, n, path)])
    decreases |path|
  {
    var f := LastFeed(g, n, path);
    if !g.exposed[f.from] {
      StartOfPath(g, f.from, path[1..]);
    }
  }

  /** The arc of a path is related to the own pin on the net the path starts from; unfolding its
      delay gives the delays along the path, and its transition is the last one. */
  lemma {:induction false} PathMeaning(g: Circuit, n: Net, path: seq<nat>)
    requires Wired(g) && IsPath(g, n, path)
    ensures var xs, arc := g.conns[PathStart(g, n, path)], ArcOf(g, n, path);
            && (SinglePin(xs) ==>
                  && (forall j :: 0 <= j < |xs| && xs[j].inst == null ==> arc.related == xs[j].pin)
                  && ((forall j :: 0 <= j < |xs| ==> xs[j].inst != null) ==> arc.related == null))
            && (arc.delay == NoTable <==> Delays(g, n, path) == [])
            && Addends(arc.delay, |Delays(g, n, path)|) == Delays(g, n, path)
            && arc.transition == PathTransition(g, n, path)
  {
    TransitionOfPath(g, n, path);
    DelaysOfPath(g, n, path);
    StartOfPath(g, n, path);
    var xs := g.conns[PathStart(g, n, path)];
    if SinglePin(xs) {
      ExposedPinIs(xs);
    }
  }

  /** Every feed of the path has a delay. */
  ghost predicate AllDelayed(g: Circuit, n: Net, path: seq<nat>)
    requires Wired(g) && IsPath(g, n, path)
    decreases |path|
  {
    var f := LastFeed(g, n, path);
    f.arc.delay != NoTable && (!g.exposed[f.from] ==> AllDelayed(g, f.from, path[1..]))
  }

  /** Then there is one term for every feed of the path, and otherwise fewer. */
  lemma {:induction false} OneTermPerFeed(g: Circuit, n: Net, path: seq<nat>)
    requires Wired(g) && IsPath(g, n, path)
    ensures |Delays(g, n, path)| <= |path| && (|Delays(g, n, path)| == |path| <==> AllDelayed(g, n, path))
    decreases |path|
  {
    var f := LastFeed(g, n, path);
    if !g.exposed[f.from] {
      OneTermPerFeed(g, f.from, path[1..]);
    }
  }

  // --- Where the feeds come from --------------------------------------------------

  lemma {:induction false} FromMember(g: Circuit, nets: seq<Net>, inst: Inst, arc: CellArc, f: Feed)
    requires forall j :: 0 <= j < |nets| ==> nets[j] in g.conns
    ensures f in FeedsFrom(g, nets, inst, arc) <==>
            f.arc == arc && f.from in nets && arc.related != null && Terminal(inst, arc.related) in g.conns[f.from]
  {
    if nets != [] {
      var n := |nets| - 1;
      FromMember(g, nets[..n], inst, arc, f);
      assert nets == nets[..n] + [nets[n]];
    }
  }

  lemma {:induction false} ThroughMember(g: Circuit, arcs: seq<CellArc>, x: Terminal, f: Feed)
    requires x.inst != null && Wired(g)
    ensures f in FeedsThrough(g, arcs, x) <==>
            f.arc in arcs && f.arc.pin == x.pin && f.from in g.nets && f.arc.related != null && Terminal(x.inst, f.arc.related) in g.conns[f.from]
  {
    if arcs != [] {
      var n := |arcs| - 1;
      ThroughMember(g, arcs[..n], x, f);
      FromMember(g, g.nets, x.inst, arcs[n], f);
      assert arcs == arcs[..n] + [arcs[n]];
    }
  }

  lemma {:induction false} OfMember(g: Circuit, xs: seq<Terminal>, f: Feed)
    requires Wired(g) && forall j :: 0 <= j < |xs| ==> xs[j].inst != null ==> xs[j].inst.cell in g.library
    ensures f in FeedsOf(g, xs) <==>
            exists j :: 0 <= j < |xs| && xs[j].inst != null && f.arc in g.library[xs[j].inst.cell] && f.arc.pin == xs[j].pin
                        && f.from in g.nets && f.arc.related != null && Terminal(xs[j].inst, f.arc.related) in g.conns[f.from]
  {
    hide FeedsThrough, NetWired, Wired;
    if xs != [] {
      var n := |xs| - 1;
      OfMember(g, xs[..n], f);
      if xs[n].inst != null {
        ThroughMember(g, g.library[xs[n].inst.cell], xs[n], f);
      }
      assert forall j :: 0 <= j < n ==> xs[..n][j] == xs[j];
    }
  }

  /** A net is fed by exactly the arcs, in the cells of its terminals' instances, to a terminal's pin,
      from every net that has the arc's other pin at the same instance. */
  lemma {:induction false} FeedsAre(g: Circuit, n: Net, f: Feed)
    requires Wired(g) && n in g.conns
    ensures NetWired(g, n)
    ensures f in Feeds(g, n) <==>
            exists j :: 0 <= j < |g.conns[n]| && g.conns[n][j].inst != null
                        && f.arc in g.library[g.conns[n][j].inst.cell] && f.arc.pin == g.conns[n][j].pin
                        && f.from in g.nets && f.arc.related != null && Terminal(g.conns[n][j].inst, f.arc.related) in g.conns[f.from]
  {
    assert NetWired(g, n);
    OfMember(g, g.conns[n], f);
  }

  // --- Two buffers in a row -------------------------------------------------------

  lemma {:induction false} NoneAttached(g: Circuit, nets: seq<Net>, inst: Inst, arc: CellArc)
    requires forall j :: 0 <= j < |nets| ==> nets[j] in g.conns && !Attached(g.conns[nets[j]], inst, arc.related)
    ensures FeedsFrom(g, nets, inst, arc) == []
  {
    if nets != [] {
      NoneAttached(g, nets[..|nets| - 1], inst, arc);
    }
  }

  lemma {:induction false} OneAttached(g: Circuit, nets: seq<Net>, inst: Inst, arc: CellArc, k: nat)
    requires forall j :: 0 <= j < |nets| ==> nets[j] in g.conns && (Attached(g.conns[nets[j]], inst, arc.related) <==> j == k)
    requires k < |nets|
    ensures FeedsFrom(g, nets, inst, arc) == [Feed(arc, nets[k])]
  {
    if k == |nets| - 1 {
      NoneAttached(g, nets[..k], inst, arc);
      assert [] + [Feed(arc, nets[k])] == [Feed(arc, nets[k])];
    } else {
      OneAttached(g, nets[..|nets| - 1], inst, arc, k);
    }
  }

  // Own pin, first buffer, inner net, second buffer, own pin.
  function ChainCircuit(pa: Pin, pi: Pin, po: Pin, pb: Pin, first: Inst, second: Inst, i: Net, m: Net, o: Net, load: real): Circuit {
    Circuit([i, m, o],
            map[i := [Terminal(null, pa), Terminal(first, pi)], m := [Terminal(first, po), Terminal(second, pi)],
                o := [Terminal(second, po), Terminal(null, pb)]],
            map[i := true, m := false, o := true], map[i := 0.0, m := load, o := 0.0],
            map[first.cell := [CellArc(po, pi, Library(0), Library(1))]])
  }

  lemma {:induction false} TwoFeeds(g: Circuit, x: Terminal, y: Terminal)
    requires Wired(g) && forall t :: t in [x, y] ==> t.inst != null ==> t.inst.cell in g.library
    ensures FeedsOf(g, [x, y]) == (if x.inst == null then [] else FeedsThrough(g, g.library[x.inst.cell], x))
                                  + (if y.inst == null then [] else FeedsThrough(g, g.library[y.inst.cell], y))
  {
    assert [x, y][..1] == [x] && [x][..0] == [] && FeedsOf(g, []) == [];
  }

  lemma {:induction false} ChainFeeds(g: Circuit, pa: Pin, pi: Pin, po: Pin, pb: Pin, first: Inst, second: Inst, i: Net, m: Net, o: Net, load: real)
    requires pi != po && first != second && first.cell == second.cell && i != m && m != o && i != o
    requires g == ChainCircuit(pa, pi, po, pb, first, second, i, m, o, load)
    ensures Wired(g)
    ensures var arc := CellArc(po, pi, Library(0), Library(1)); Feeds(g, i) == [] && Feeds(g, m) == [Feed(arc, i)] && Feeds(g, o) == [Feed(arc, m)]
  {
    var arc := CellArc(po, pi, Library(0), Library(1));
    assert NetWired(g, i) && NetWired(g, m) && NetWired(g, o);
    assert Wired(g);
    OneArcFeeds(g, arc, Terminal(first, pi));
    OneArcFeeds(g, arc, Terminal(first, po));
    OneArcFeeds(g, arc, Terminal(second, pi));
    OneArcFeeds(g, arc, Terminal(second, po));
    assert g.conns[i][1] == Terminal(first, pi) && g.conns[m][1] == Terminal(second, pi);
    OneAttached(g, g.nets, first, arc, 0);
    OneAttached(g, g.nets, second, arc, 1);
    TwoFeeds(g, g.conns[i][0], g.conns[i][1]);
    TwoFeeds(g, g.conns[m][0], g.conns[m][1]);
    TwoFeeds(g, g.conns[o][0], g.conns[o][1]);
  }

  /** The output of two buffers in a row has one arc: the delay of the second buffer, resampled with the
      transition of the first, and the delay of the first at the load of the net between them. */
  lemma {:induction false} ChainExample(pa: Pin, pi: Pin, po: Pin, pb: Pin, first: Inst, second: Inst, i: Net, m: Net, o: Net, load: real)
    requires pi != po && first != second && first.cell == second.cell && i != m && m != o && i != o
    ensures var g := ChainCircuit(pa, pi, po, pb, first, second, i, m, o, load);
            && AcyclicFeeds(g, map[i := 0, m := 1, o := 2])
            && NetArcs(g, map[i := 0, m := 1, o := 2], o)
               == [NetArc(pa, Sum(Resampled(Library(0), AtLoad(Library(1), load)), AtLoad(Library(0), load)),
                          Resampled(Library(1), AtLoad(Library(1), load)))]
  {
    var g, arc, rank := ChainCircuit(pa, pi, po, pb, first, second, i, m, o, load), CellArc(po, pi, Library(0), Library(1)), map[i := 0, m := 1, o := 2];
    ChainFeeds(g, pa, pi, po, pb, first, second, i, m, o, load);
    hide Feeds, FeedsOf, Wired;
    assert AcyclicFeeds(g, rank);
    assert ExposedPin(g.conns[i][..1]) == pa && ExposedPin(g.conns[i]) == pa;
    assert ArcsVia(g, rank, m, 0) == [] && ArcsVia(g, rank, o, 0) == [];
    var inner := NetArc(pa, AtLoad(Library(0), load), AtLoad(Library(1), load));
    assert NetArcs(g, rank, m) == ArcsVia(g, rank, m, 1) == [inner];
    assert Combined(g, o, Feed(arc, m), [inner]) == [CombinedArc(g, o, Feed(arc, m), inner)];
  }
}
