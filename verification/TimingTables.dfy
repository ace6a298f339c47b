/** What the timing terms of nets stand for: the tables that reducing at a load and joining along
    the input transition make of the library's tables (phx_net_update_timing_arc_forward, combine_arcs). */
module TimingTables {
  import opened MixedRadix
  import opened AxisLookup
  import opened Tables
  import opened TableObjects
  import opened TableReduce
  import opened ReduceTheorems
  import opened TableJoin
  import opened Design
  import opened NetTiming

  const IN_TRANS := 0
  const OUT_CAP := 1

  /** v is b fixed at the load x, or b itself where it does not depend on the load. */
  ghost predicate LoadedBy(b: TableView, x: real, v: TableView) {
    && ValidView(b)
    && if !Has(b.axes, OUT_CAP) then v == b
       else
         var k := Find(b.axes, OUT_CAP);
         Fixable(b, k, x) && Looked(b, k, LerpOf(b, k, x), v)
  }

  /** v is b looked up at the transitions w, or b itself where it does not depend on the transition. */
  ghost predicate ResampledBy(b: TableView, w: TableView, v: TableView) {
    && ValidView(b) && ValidView(w)
    && if !Has(b.axes, IN_TRANS) then v == b
       else
         var k := Find(b.axes, IN_TRANS);
         if w.axes == [] then w.data != [] && Fixable(b, k, w.data[0]) && Looked(b, k, LerpOf(b, k, w.data[0]), v)
         else IndexesAlong(w, IN_TRANS) && EndsWith(b, k, w, Finished) && EveryFixable(b, k, w) && v == JoinResult(b, k, w)
  }

  /** The table of a term, given the tables of the library.  Sums are not interpreted. */
  ghost predicate Means(t: TimingTable, lib: map<nat, TableView>, v: TableView) {
    match t
    case NoTable => false
    case Library(id) => id in lib && v == lib[id] && ValidView(v)
    case AtLoad(u, x) => exists b :: Means(u, lib, b) && LoadedBy(b, x, v)
    case Resampled(u, transition) => exists b, w :: Means(u, lib, b) && Means(transition, lib, w) && ResampledBy(b, w, v)
    case Sum(_, _) => false
  }

  // --- The two steps in the program -------------------------------------------------

  /** The reduction at a net's load. */
  method ReduceToLoad(t: Table, x: real, ghost term: TimingTable, ghost lib: map<nat, TableView>) returns (r: Table?)
    requires t.Valid()
    ensures r == null <==> Has(t.Axes(), OUT_CAP) && !Fixable(t.View(), Find(t.Axes(), OUT_CAP), x)
    ensures r != null ==> r.Valid() && LoadedBy(t.View(), x, r.View())
    ensures r != null && Means(term, lib, t.View()) ==> Means(AtLoad(term, x), lib, r.View())
  {
    ghost var v := t.View();
    FixGathers(v, OUT_CAP, x);
    r := Reduce(t, [Fix(OUT_CAP, x)]);
    if r != null && Has(v.axes, OUT_CAP) {
      ReduceIsLookup(v, Find(v.axes, OUT_CAP), x, r.View());
    }
  }

  lemma {:induction false} FixGathers(v: TableView, id: nat, x: real)
    requires ValidView(v)
    ensures !Has(v.axes, id) ==> Gather(v.axes, [Fix(id, x)]) == Some(Gathered(IdSet(v.axes), []))
    ensures Has(v.axes, id) ==>
              var k := Find(v.axes, id);
              && (Gather(v.axes, [Fix(id, x)]).Some? <==> Fixable(v, k, x))
              && (Fixable(v, k, x) ==> Gather(v.axes, [Fix(id, x)]) == Some(Gathered(IdSet(v.axes) - {id}, [LerpOf(v, k, x)])))
  {
    if Has(v.axes, id) {
      SingleFixGathers(v, Find(v.axes, id), x);
    } else {
      assert [Fix(id, x)][..0] == [];
    }
  }

  /** The join with an earlier arc's transition. */
  method Resample(base: Table, index: Table, ghost term: TimingTable, ghost earlier: TimingTable, ghost lib: map<nat, TableView>)
    returns (r: Table?)
    requires base.Valid() && index.Valid() && (index.Axes() == [] || IndexesAlong(index.View(), IN_TRANS))
    ensures r != null ==> r.Valid() && ResampledBy(base.View(), index.View(), r.View())
    ensures r != null && Means(term, lib, base.View()) && Means(earlier, lib, index.View()) ==> Means(Resampled(term, earlier), lib, r.View())
  {
    hide Means, ValidView, EndsWith, EveryFixable, Looked;
    ghost var b, w := base.View(), index.View();
    if w.axes == [] {
      ScalarHasData(w);
    }
    var e;
    e, r := Join(base, IN_TRANS, index);
    if r != null && Means(term, lib, b) && Means(earlier, lib, w) {
      ResampledMeans(term, earlier, lib, b, w, r.View());
    }
  }

  lemma {:induction false} ScalarHasData(v: TableView)
    requires ValidView(v) && v.axes == []
    ensures v.data != []
  {
    assert Sizes(v.axes) == [];
  }

  lemma {:induction false} ResampledMeans(t: TimingTable, earlier: TimingTable, lib: map<nat, TableView>, b: TableView, w: TableView, v: TableView)
    requires Means(t, lib, b) && Means(earlier, lib, w) && ResampledBy(b, w, v)
    ensures Means(Resampled(t, earlier), lib, v)
  {
  }

  // --- The tables are determined --------------------------------------------------------

  lemma {:induction false} LookedUnique(v: TableView, k: nat, l: Lerp, r: TableView, s: TableView)
    requires Looked(v, k, l, r) && Looked(v, k, l, s)
    ensures r == s
  {
    forall ix {:trigger InBox(ix, Sizes(r.axes))} | InBox(ix, Sizes(r.axes)) ensures At(r, ix) == At(s, ix) {
      assert LookedAt(v, k, l, r, ix) && LookedAt(v, k, l, s, ix);
    }
    SameTable(r, s);
  }

  /** A term has one table at most. */
  lemma {:induction false} MeansUnique(t: TimingTable, lib: map<nat, TableView>, v: TableView, v': TableView)
    requires Means(t, lib, v) && Means(t, lib, v')
    ensures v == v'
  {
    match t
    case Library(_) =>
    case AtLoad(u, x) =>
      var b :| Means(u, lib, b) && LoadedBy(b, x, v);
      var b' :| Means(u, lib, b') && LoadedBy(b', x, v');
      MeansUnique(u, lib, b, b');
      LoadedUnique(b, x, v, v');
    case Resampled(u, transition) =>
      var b, w :| Means(u, lib, b) && Means(transition, lib, w) && ResampledBy(b, w, v);
      var b', w' :| Means(u, lib, b') && Means(transition, lib, w') && ResampledBy(b', w', v');
      MeansUnique(u, lib, b, b');
      MeansUnique(transition, lib, w, w');
      ResampledUnique(b, w, v, v');
  }

  lemma {:induction false} LoadedUnique(b: TableView, x: real, v: TableView, v': TableView)
    requires LoadedBy(b, x, v) && LoadedBy(b, x, v')
    ensures v == v'
  {
    if Has(b.axes, OUT_CAP) {
      var k := Find(b.axes, OUT_CAP);
      LookedUnique(b, k, LerpOf(b, k, x), v, v');
    }
  }

  lemma {:induction false} ResampledUnique(b: TableView, w: TableView, v: TableView, v': TableView)
    requires ResampledBy(b, w, v) && ResampledBy(b, w, v')
    ensures v == v'
  {
    if Has(b.axes, IN_TRANS) && w.axes == [] {
      var k := Find(b.axes, IN_TRANS);
      LookedUnique(b, k, LerpOf(b, k, w.data[0]), v, v');
    }
  }

  // --- Which axes the tables of a path have ----------------------------------------------

  ghost predicate AxesAmong(v: TableView, ids: set<nat>) {
    ValidView(v) && forall k :: 0 <= k < |v.axes| ==> v.axes[k].id in ids
  }

  /** The tables of a term, where it has one, have no other axes. */
  ghost predicate TermAxes(t: TimingTable, lib: map<nat, TableView>, ids: set<nat>) {
    forall v :: Means(t, lib, v) ==> AxesAmong(v, ids)
  }

  /** The arcs that drive nets depend on the input transition and the load at most. */
  ghost predicate FeedsFit(g: Circuit, lib: map<nat, TableView>)
    requires Wired(g)
  {
    forall n, i {:trigger Feeds(g, n)[i]} :: n in g.conns && 0 <= i < |Feeds(g, n)| ==>
      TermAxes(Feeds(g, n)[i].arc.transition, lib, {IN_TRANS, OUT_CAP})
  }

  ghost function NetAxes(g: Circuit, n: Net): set<nat>
    requires n in g.exposed
  {
    if g.exposed[n] then {IN_TRANS, OUT_CAP} else {IN_TRANS}
  }

  lemma {:induction false} LoadedAxes(b: TableView, x: real, v: TableView)
    requires LoadedBy(b, x, v) && AxesAmong(b, {IN_TRANS, OUT_CAP})
    ensures AxesAmong(v, {IN_TRANS})
  {
    if Has(b.axes, OUT_CAP) {
      var k := Find(b.axes, OUT_CAP);
      forall j | 0 <= j < |v.axes| ensures v.axes[j].id == IN_TRANS {
        assert v.axes[j].id == Remove(b.axes, k)[j].id;
      }
    } else {
      forall j | 0 <= j < |b.axes| ensures b.axes[j].id != OUT_CAP {
        FindSorted(b.axes, j);
      }
    }
  }

  lemma {:induction false} ResampledAxes(b: TableView, w: TableView, v: TableView, ids: set<nat>)
    requires ResampledBy(b, w, v) && AxesAmong(b, ids)
    ensures AxesAmong(v, ids)
  {
    if Has(b.axes, IN_TRANS) {
      var k := Find(b.axes, IN_TRANS);
      if w.axes == [] {
        forall j | 0 <= j < |v.axes| ensures v.axes[j].id in ids {
          assert v.axes[j].id == Remove(b.axes, k)[j].id;
        }
      } else {
        ghost var top := ResultSlices(b, k, w, v);
      }
    }
  }

  /** Among one axis, a table is a scalar or varies along it. */
  lemma {:induction false} OneAxisAtMost(v: TableView, id: nat)
    requires AxesAmong(v, {id})
    ensures v.axes == [] || IndexesAlong(v, id)
  {
    if v.axes != [] {
      FindSorted(v.axes, 0);
      FindSorted(v.axes, |v.axes| - 1);
    }
  }

  lemma {:induction false} TableAxes(g: Circuit, n: Net, t: TimingTable, lib: map<nat, TableView>)
    requires n in g.exposed && n in g.load && TermAxes(t, lib, {IN_TRANS, OUT_CAP})
    ensures TermAxes(ArcTable(g, n, t), lib, NetAxes(g, n))
  {
    if !g.exposed[n] && t != NoTable {
      forall v | Means(AtLoad(t, g.load[n]), lib, v) ensures AxesAmong(v, {IN_TRANS}) {
        var b :| Means(t, lib, b) && LoadedBy(b, g.load[n], v);
        LoadedAxes(b, g.load[n], v);
      }
    }
  }

  lemma {:induction false} JoinedTermAxes(t: TimingTable, earlier: TimingTable, lib: map<nat, TableView>, ids: set<nat>)
    requires TermAxes(t, lib, ids)
    ensures TermAxes(JoinedBy(t, earlier), lib, ids)
  {
    if t != NoTable && earlier != NoTable {
      forall v | Means(Resampled(t, earlier), lib, v) ensures AxesAmong(v, ids) {
        var b, w :| Means(t, lib, b) && Means(earlier, lib, w) && ResampledBy(b, w, v);
        ResampledAxes(b, w, v, ids);
      }
    }
  }

  /** The transition at the end of a timing path does not depend on the load, unless the net is exposed. */
  lemma {:induction false} PathAxes(g: Circuit, n: Net, path: seq<nat>, lib: map<nat, TableView>)
    requires Wired(g) && IsPath(g, n, path) && FeedsFit(g, lib)
    ensures n in g.exposed && TermAxes(ArcOf(g, n, path).transition, lib, NetAxes(g, n))
  {
    assert NetWired(g, n);
    var f := Feeds(g, n)[path[0]];
    TableAxes(g, n, f.arc.transition, lib);
    if !g.exposed[f.from] {
      JoinedTermAxes(ArcTable(g, n, f.arc.transition), ArcOf(g, f.from, path[1..]).transition, lib, NetAxes(g, n));
    }
  }

  /** Whatever a path's arc is combined with: its transition is a scalar or varies along the input
      transition alone, as the join requires. */
  lemma {:induction false} EarlierIsIndex(g: Circuit, n: Net, path: seq<nat>, lib: map<nat, TableView>, w: TableView)
    requires Wired(g) && IsPath(g, n, path) && |path| > 1 && FeedsFit(g, lib)
    requires var from := Feeds(g, n)[path[0]].from; IsPath(g, from, path[1..]) ==> Means(ArcOf(g, from, path[1..]).transition, lib, w)
    ensures w.axes == [] || IndexesAlong(w, IN_TRANS)
  {
    var from := Feeds(g, n)[path[0]].from;
    PathAxes(g, from, path[1..], lib);
    OneAxisAtMost(w, IN_TRANS);
  }

  // --- The range of the tables of a path -----------------------------------------------------

  // The program packs the transition axis, where there is one, first.
  ghost predicate TransitionFirst(v: TableView) {
    Has(v.axes, IN_TRANS) ==> StrideAgrees(v.axes, Find(v.axes, IN_TRANS))
  }

  lemma {:induction false} LoadedBetween(b: TableView, x: real, v: TableView, lo: real, hi: real)
    requires LoadedBy(b, x, v) && TransitionFirst(b) && ValuesBetween(b, lo, hi)
    ensures TransitionFirst(v) && ValuesBetween(v, lo, hi)
  {
    if Has(b.axes, OUT_CAP) {
      var k := Find(b.axes, OUT_CAP);
      LookedBetween(b, k, LerpOf(b, k, x), v, lo, hi);
      if Has(v.axes, IN_TRANS) {
        var j := Find(v.axes, IN_TRANS);
        assert Strides(v.axes)[j] == Canonical(Sizes(v.axes))[j];
      }
    }
  }

  lemma {:induction false} ResampledBetween(b: TableView, w: TableView, v: TableView, lo: real, hi: real)
    requires ResampledBy(b, w, v) && TransitionFirst(b) && ValuesBetween(b, lo, hi)
    ensures ValuesBetween(v, lo, hi)
  {
    if Has(b.axes, IN_TRANS) {
      var k := Find(b.axes, IN_TRANS);
      if w.axes == [] {
        LookedBetween(b, k, LerpOf(b, k, w.data[0]), v, lo, hi);
      } else {
        AgreeingJoin(b, k, w);
        JoinBetween(b, k, w, v, lo, hi);
      }
    }
  }

  /** Tables of a term, where it has one, are packed as said and stay in the range. */
  ghost predicate TermBetween(t: TimingTable, lib: map<nat, TableView>, lo: real, hi: real) {
    forall v :: Means(t, lib, v) ==> TransitionFirst(v) && ValuesBetween(v, lo, hi)
  }

  /** The transition at the end of a timing path stays in the range of the last arc's own table,
      whatever the arcs before it and the loads are. */
  lemma {:induction false} PathBetween(g: Circuit, n: Net, path: seq<nat>, lib: map<nat, TableView>, v: TableView, lo: real, hi: real)
    requires Wired(g) && IsPath(g, n, path) && TermBetween(Feeds(g, n)[path[0]].arc.transition, lib, lo, hi)
    requires Means(ArcOf(g, n, path).transition, lib, v)
    ensures ValuesBetween(v, lo, hi)
  {
    assert NetWired(g, n);
    var f := Feeds(g, n)[path[0]];
    TableBetween(g, n, f.arc.transition, lib, lo, hi);
    if !g.exposed[f.from] {
      var earlier := ArcOf(g, f.from, path[1..]).transition;
      assert Means(JoinedBy(ArcTable(g, n, f.arc.transition), earlier), lib, v);
      if earlier == NoTable {
        return;
      }
      var b, w :| Means(ArcTable(g, n, f.arc.transition), lib, b) && Means(earlier, lib, w) && ResampledBy(b, w, v);
      ResampledBetween(b, w, v, lo, hi);
    }
  }

  lemma {:induction false} TableBetween(g: Circuit, n: Net, t: TimingTable, lib: map<nat, TableView>, lo: real, hi: real)
    requires n in g.exposed && n in g.load && TermBetween(t, lib, lo, hi)
    ensures TermBetween(ArcTable(g, n, t), lib, lo, hi)
  {
    if !g.exposed[n] && t != NoTable {
      forall v | Means(AtLoad(t, g.load[n]), lib, v) ensures TransitionFirst(v) && ValuesBetween(v, lo, hi) {
        var b :| Means(t, lib, b) && LoadedBy(b, g.load[n], v);
        LoadedBetween(b, g.load[n], v, lo, hi);
      }
    }
  }
}
