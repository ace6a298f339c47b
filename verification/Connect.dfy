/** Building a cell's netlist from pairs of terminals (connect in misc.c). */
module Connect {
  import opened Design

  /** What connecting changes about a net. */
  datatype NetData = NetData(conns: seq<Terminal>, exposed: bool)

  /** The nets a terminal is found on. */
  datatype Place = Nowhere | At(net: nat) | Several

  datatype Outcome = Built(nets: seq<NetData>) | Abort

  function Snapshot(nets: seq<Net>): (r: seq<NetData>)
    reads nets
    ensures |r| == |nets| && forall i :: 0 <= i < |nets| ==> r[i] == NetData(nets[i].conns, nets[i].exposed)
  {
    seq(|nets|, i requires 0 <= i < |nets| reads nets => NetData(nets[i].conns, nets[i].exposed))
  }

  function Find(nets: seq<NetData>, t: Terminal): (p: Place)
    ensures p == Nowhere <==> forall i :: 0 <= i < |nets| ==> t !in nets[i].conns
    ensures p.At? ==> p.net < |nets| && forall i :: 0 <= i < |nets| ==> (t in nets[i].conns <==> i == p.net)
    ensures p == Several ==> exists i, j :: 0 <= i < j < |nets| && t in nets[i].conns && t in nets[j].conns
  {
    if nets == [] then Nowhere
    else
      var n := |nets| - 1;
      var p := Find(nets[..n], t);
      if t !in nets[n].conns then p else if p == Nowhere then At(n) else Several
  }

  function Extended(net: NetData, t: Terminal): NetData {
    NetData(net.conns + [t], net.exposed || t.inst == null)
  }

  /** One call.  It aborts on a terminal with several nets, and when two nets would have to be merged. */
  function Connected(nets: seq<NetData>, a: Terminal, b: Terminal): (r: Outcome) {
    var p, q := Find(nets, a), Find(nets, b);
    if p == Several || q == Several then Abort
    else if p.At? && p == q then Built(nets)
    else if p == Nowhere && q == Nowhere then Built(nets + [NetData([a, b], a.inst == null || b.inst == null)])
    else if p.At? && q.At? then Abort
    else if p.At? then Built(nets[p.net := Extended(nets[p.net], b)])
    else Built(nets[q.net := Extended(nets[q.net], a)])
  }

  /** A run of calls on a cell without nets. */
  function Run(calls: seq<(Terminal, Terminal)>): (r: Outcome) {
    if calls == [] then Built([])
    else
      var n := |calls| - 1;
      var r := Run(calls[..n]);
      if r.Built? then Connected(r.nets, calls[n].0, calls[n].1) else Abort
  }

  // --- The code ---------------------------------------------------------------------

  method ConnectsTo(net: Net, pin: Pin, inst: Inst?) returns (r: bool)
    ensures r <==> Terminal(inst, pin) in net.conns
  {
    var z := 0;
    while z < |net.conns|
      invariant z <= |net.conns| && Terminal(inst, pin) !in net.conns[..z]
    {
      var conn := net.conns[z];
      if conn.pin == pin && conn.inst == inst {
        return true;
      }
      z := z + 1;
    }
    r := false;
  }

  // Takes down that net z has the terminal; a second such net fails the assertion.
  method Note(net: Net, z: nat, t: Terminal, found: Place) returns (p: Place)
    ensures p == if t !in net.conns then found else if found == Nowhere then At(z) else Several
  {
    var on := ConnectsTo(net, t.pin, t.inst);
    p := if !on then found else if found == Nowhere then At(z) else Several;
  }

  // The scan for the nets of both terminals; `ok` is false where an assertion fails.
  method FindNets(nets: seq<Net>, a: Terminal, b: Terminal) returns (ok: bool, netA: Place, netB: Place)
    ensures ok <==> Find(Snapshot(nets), a) != Several && Find(Snapshot(nets), b) != Several
    ensures ok ==> netA == Find(Snapshot(nets), a) && netB == Find(Snapshot(nets), b)
  {
    netA, netB := Nowhere, Nowhere;
    var z := 0;
    ghost var s := Snapshot(nets);
    while z < |nets|
      invariant z <= |nets| && s == Snapshot(nets)
      invariant netA == Find(s[..z], a) && netA != Several
      invariant netB == Find(s[..z], b) && netB != Several
    {
      FindStep(s, z, a);
      FindStep(s, z, b);
      netA := Note(nets[z], z, a, netA);
      if netA == Several {
        return false, netA, netB;
      }
      netB := Note(nets[z], z, b, netB);
      if netB == Several {
        return false, netA, netB;
      }
      z := z + 1;
    }
    assert s[..z] == s;
    ok := true;
  }

  // Finding goes net by net, and several nets stay several.
  lemma {:induction false} FindStep(nets: seq<NetData>, z: nat, t: Terminal)
    requires z < |nets|
    ensures var p := Find(nets[..z], t);
            Find(nets[..z + 1], t) == if t !in nets[z].conns then p else if p == Nowhere then At(z) else Several
    ensures Find(nets[..z + 1], t) == Several ==> Find(nets, t) == Several
  {
    assert nets[..z + 1][..z] == nets[..z];
    if Find(nets[..z + 1], t) == Several {
      var i, j :| 0 <= i < j < z + 1 && t in nets[..z + 1][i].conns && t in nets[..z + 1][j].conns;
      assert t in nets[i].conns && t in nets[j].conns;
    }
  }

  /** Connects two terminals of a cell; `ok` is false where the program aborts, before any change. */
  method Connect(cell: Cell, pinA: Pin, instA: Inst?, pinB: Pin, instB: Inst?) returns (ok: bool)
    requires forall i, j :: 0 <= i < j < |cell.nets| ==> cell.nets[i] != cell.nets[j]
    modifies cell`nets, cell.nets`conns, cell.nets`exposed
    ensures var r := Connected(old(Snapshot(cell.nets)), Terminal(instA, pinA), Terminal(instB, pinB));
            Snapshot(cell.nets) == (if r.Built? then r.nets else old(Snapshot(cell.nets))) && (ok <==> r.Built?)
    ensures cell.nets == old(cell.nets)
            || (|cell.nets| > 0 && cell.nets[..|cell.nets| - 1] == old(cell.nets) && fresh(cell.nets[|cell.nets| - 1]))
    ensures |cell.nets| == |old(cell.nets)| + 1 ==> cell.nets[|cell.nets| - 1].invalid == {} && cell.nets[|cell.nets| - 1].arcs == []
    ensures forall i, j :: 0 <= i < j < |cell.nets| ==> cell.nets[i] != cell.nets[j]
  {
    var a, b := Terminal(instA, pinA), Terminal(instB, pinB);
    ghost var s := Snapshot(cell.nets);
    var found, netA, netB := FindNets(cell.nets, a, b);
    if !found {
      return false;
    }
    if netA.At? && netA == netB {
      return true;
    }
    if netA == Nowhere && netB == Nowhere {
      var net := new Net(cell, [a, b], instA == null || instB == null);
      cell.nets := cell.nets + [net];
      assert Snapshot(cell.nets) == s + [NetData([a, b], instA == null || instB == null)];
    } else if netA.At? && netB.At? {
      return false;
    } else if netA.At? {
      Extend(cell.nets, netA.net, b);
    } else {
      Extend(cell.nets, netB.net, a);
    }
    ok := true;
  }

  method Extend(nets: seq<Net>, z: nat, t: Terminal)
    requires z < |nets| && forall i, j :: 0 <= i < j < |nets| ==> nets[i] != nets[j]
    modifies nets`conns, nets`exposed
    ensures Snapshot(nets) == old(Snapshot(nets))[z := Extended(old(Snapshot(nets))[z], t)]
  {
    nets[z].conns := nets[z].conns + [t];
    if t.inst == null {
      nets[z].exposed := true;
    }
  }

  // --- What a run builds --------------------------------------------------------------

  ghost predicate Together(nets: seq<NetData>, s: Terminal, t: Terminal) {
    exists i :: 0 <= i < |nets| && s in nets[i].conns && t in nets[i].conns
  }

  /** t can be reached from s along k calls, each taken in either direction. */
  ghost predicate Steps(calls: seq<(Terminal, Terminal)>, s: Terminal, t: Terminal, k: nat)
    decreases k, 1
  {
    if k == 0 then s == t else exists c :: 0 <= c < |calls| && StepsBy(calls, c, s, t, k)
  }

  // The first of k steps is call c.
  ghost predicate StepsBy(calls: seq<(Terminal, Terminal)>, c: nat, s: Terminal, t: Terminal, k: nat)
    requires c < |calls| && k > 0
    decreases k, 0
  {
    (calls[c].0 == s && Steps(calls, calls[c].1, t, k - 1)) || (calls[c].1 == s && Steps(calls, calls[c].0, t, k - 1))
  }

  // Where the first step leads.
  ghost function Next(calls: seq<(Terminal, Terminal)>, c: nat, s: Terminal, t: Terminal, k: nat): (n: Terminal)
    requires c < |calls| && k > 0 && StepsBy(calls, c, s, t, k)
    ensures (calls[c] == (s, n) || calls[c] == (n, s)) && Steps(calls, n, t, k - 1)
  {
    if calls[c].0 == s && Steps(calls, calls[c].1, t, k - 1) then calls[c].1 else calls[c].0
  }

  /** The equivalence closure of the calls, on the terminals that occur in them. */
  ghost predicate Linked(calls: seq<(Terminal, Terminal)>, s: Terminal, t: Terminal) {
    exists k: nat :: k > 0 && Steps(calls, s, t, k)
  }

  // No terminal is on two nets.
  ghost predicate Disjoint(nets: seq<NetData>) {
    forall i, j :: 0 <= i < |nets| && 0 <= j < |nets| && i != j ==> forall t :: t in nets[i].conns ==> t !in nets[j].conns
  }

  ghost predicate AllTogether(calls: seq<(Terminal, Terminal)>, nets: seq<NetData>) {
    forall c {:trigger calls[c]} :: 0 <= c < |calls| ==> Together(nets, calls[c].0, calls[c].1)
  }

  ghost predicate AllLinked(calls: seq<(Terminal, Terminal)>, net: NetData) {
    forall s, t :: s in net.conns && t in net.conns ==> Linked(calls, s, t)
  }

  /** A net is exposed when a terminal has no instance; only the first two terminals may be the same. */
  ghost predicate Shaped(net: NetData) {
    && (net.exposed <==> exists z :: 0 <= z < |net.conns| && net.conns[z].inst == null)
    && |net.conns| >= 2
    && forall y, z :: 0 <= y < z < |net.conns| && net.conns[y] == net.conns[z] ==> y == 0 && z == 1
  }

  ghost predicate Invariant(calls: seq<(Terminal, Terminal)>, nets: seq<NetData>) {
    && Disjoint(nets) && AllTogether(calls, nets)
    && forall i :: 0 <= i < |nets| ==> AllLinked(calls, nets[i]) && Shaped(nets[i])
  }

  lemma {:induction false} StepsMore(calls: seq<(Terminal, Terminal)>, more: seq<(Terminal, Terminal)>, s: Terminal, t: Terminal, k: nat)
    requires Steps(calls, s, t, k)
    ensures Steps(calls + more, s, t, k)
    decreases k
  {
    if k > 0 {
      var c :| 0 <= c < |calls| && StepsBy(calls, c, s, t, k);
      StepsMore(calls, more, Next(calls, c, s, t, k), t, k - 1);
      assert (calls + more)[c] == calls[c] && StepsBy(calls + more, c, s, t, k);
    }
  }

  lemma {:induction false} StepsJoin(calls: seq<(Terminal, Terminal)>, s: Terminal, t: Terminal, u: Terminal, k: nat, m: nat)
    requires Steps(calls, s, t, k) && Steps(calls, t, u, m)
    ensures Steps(calls, s, u, k + m)
    decreases k
  {
    if k > 0 {
      var c :| 0 <= c < |calls| && StepsBy(calls, c, s, t, k);
      StepsJoin(calls, Next(calls, c, s, t, k), t, u, k - 1, m);
      assert StepsBy(calls, c, s, u, k + m);
    }
  }

  lemma {:induction false} OneStep(calls: seq<(Terminal, Terminal)>, c: nat)
    requires c < |calls|
    ensures Linked(calls, calls[c].0, calls[c].1) && Linked(calls, calls[c].1, calls[c].0)
  {
    assert Steps(calls, calls[c].1, calls[c].1, 0) && Steps(calls, calls[c].0, calls[c].0, 0);
    assert StepsBy(calls, c, calls[c].0, calls[c].1, 1) && StepsBy(calls, c, calls[c].1, calls[c].0, 1);
    assert Steps(calls, calls[c].0, calls[c].1, 1) && Steps(calls, calls[c].1, calls[c].0, 1);
  }

  lemma {:induction false} LinkedJoin(calls: seq<(Terminal, Terminal)>, s: Terminal, t: Terminal, u: Terminal)
    requires Linked(calls, s, t) && Linked(calls, t, u)
    ensures Linked(calls, s, u)
  {
    var k: nat :| k > 0 && Steps(calls, s, t, k);
    var m: nat :| m > 0 && Steps(calls, t, u, m);
    StepsJoin(calls, s, t, u, k, m);
  }

  lemma {:induction false} NetLinkedMore(calls: seq<(Terminal, Terminal)>, more: seq<(Terminal, Terminal)>, net: NetData)
    requires AllLinked(calls, net)
    ensures AllLinked(calls + more, net)
  {
    forall s, t | s in net.conns && t in net.conns ensures Linked(calls + more, s, t) {
      var k: nat :| k > 0 && Steps(calls, s, t, k);
      StepsMore(calls, more, s, t, k);
    }
  }

  // Walking along calls never leaves a net.
  lemma {:induction false} StepsStay(calls: seq<(Terminal, Terminal)>, nets: seq<NetData>, s: Terminal, t: Terminal, k: nat)
    requires Disjoint(nets) && AllTogether(calls, nets) && k > 0 && Steps(calls, s, t, k)
    ensures Together(nets, s, t)
    decreases k
  {
    var c :| 0 <= c < |calls| && StepsBy(calls, c, s, t, k);
    var n := Next(calls, c, s, t, k);
    assert Together(nets, calls[c].0, calls[c].1);
    var i :| 0 <= i < |nets| && s in nets[i].conns && n in nets[i].conns;
    if k > 1 {
      StepsStay(calls, nets, n, t, k - 1);
      var j :| 0 <= j < |nets| && n in nets[j].conns && t in nets[j].conns;
      assert i == j;
    }
  }

  // A terminal joins the net of one it is connected to.
  lemma {:induction false} JoinKeeps(calls: seq<(Terminal, Terminal)>, nets: seq<NetData>, i: nat, t: Terminal, c: nat)
    requires Disjoint(nets) && i < |nets| && (forall j :: 0 <= j < |nets| ==> t !in nets[j].conns && Shaped(nets[j]))
    requires forall j :: 0 <= j < |nets| ==> AllLinked(calls, nets[j])
    requires c < |calls| && ((calls[c].0 in nets[i].conns && calls[c].1 == t) || (calls[c].1 in nets[i].conns && calls[c].0 == t))
    ensures var nets' := nets[i := Extended(nets[i], t)];
            Disjoint(nets') && forall j :: 0 <= j < |nets| ==> AllLinked(calls, nets'[j]) && Shaped(nets'[j])
  {
    var net := Extended(nets[i], t);
    OneStep(calls, c);
    var u := if calls[c].1 == t && calls[c].0 in nets[i].conns then calls[c].0 else calls[c].1;
    LinkedJoin(calls, t, u, t);
    forall x, y | x in net.conns && y in net.conns ensures Linked(calls, x, y) {
      if x != t && y == t {
        LinkedJoin(calls, x, u, t);
      } else if x == t && y != t {
        LinkedJoin(calls, t, u, y);
      }
    }
    ExtendedShaped(nets[i], t);
  }

  lemma {:induction false} ExtendedShaped(net: NetData, t: Terminal)
    requires Shaped(net) && t !in net.conns
    ensures Shaped(Extended(net, t))
  {
    var n := Extended(net, t);
    assert n.conns[|net.conns|] == t;
    if net.exposed {
      var z :| 0 <= z < |net.conns| && net.conns[z].inst == null;
      assert n.conns[z].inst == null;
    }
  }

  // A net of its own for two new terminals.
  lemma {:induction false} PairLinked(calls: seq<(Terminal, Terminal)>, c: nat)
    requires c < |calls|
    ensures var a, b := calls[c].0, calls[c].1;
            var net := NetData([a, b], a.inst == null || b.inst == null);
            AllLinked(calls, net) && Shaped(net)
  {
    var a, b := calls[c].0, calls[c].1;
    OneStep(calls, c);
    LinkedJoin(calls, a, b, a);
    LinkedJoin(calls, b, a, b);
    assert [a, b][0] == a && [a, b][1] == b;
  }

  lemma {:induction false} TogetherKept(nets: seq<NetData>, nets': seq<NetData>, s: Terminal, t: Terminal)
    requires Together(nets, s, t) && |nets| <= |nets'|
    requires forall i, u :: 0 <= i < |nets| && u in nets[i].conns ==> u in nets'[i].conns
    ensures Together(nets', s, t)
  {
    var i :| 0 <= i < |nets| && s in nets[i].conns && t in nets[i].conns;
    assert s in nets'[i].conns && t in nets'[i].conns;
  }

  /** One more call keeps the invariant. */
  lemma {:induction false} CallKeeps(calls: seq<(Terminal, Terminal)>, nets: seq<NetData>, a: Terminal, b: Terminal)
    requires Invariant(calls, nets) && Connected(nets, a, b).Built?
    ensures Invariant(calls + [(a, b)], Connected(nets, a, b).nets)
  {
    var all, nets' := calls + [(a, b)], Connected(nets, a, b).nets;
    var p, q := Find(nets, a), Find(nets, b);
    forall i | 0 <= i < |nets| ensures AllLinked(all, nets[i]) {
      NetLinkedMore(calls, [(a, b)], nets[i]);
    }
    assert all[|calls|] == (a, b);
    if p == Nowhere && q == Nowhere {
      PairLinked(all, |calls|);
      assert nets'[|nets|].conns == [a, b] && a in nets'[|nets|].conns && b in nets'[|nets|].conns;
    } else if p.At? && q == Nowhere {
      JoinKeeps(all, nets, p.net, b, |calls|);
      assert a in nets'[p.net].conns && b in nets'[p.net].conns;
    } else if p == Nowhere && q.At? {
      JoinKeeps(all, nets, q.net, a, |calls|);
      assert a in nets'[q.net].conns && b in nets'[q.net].conns;
    }
    TogetherMore(calls, nets, nets', a, b);
  }

  lemma {:induction false} TogetherMore(calls: seq<(Terminal, Terminal)>, nets: seq<NetData>, nets': seq<NetData>, a: Terminal, b: Terminal)
    requires AllTogether(calls, nets) && Together(nets', a, b) && |nets| <= |nets'|
    requires forall i, u :: 0 <= i < |nets| && u in nets[i].conns ==> u in nets'[i].conns
    ensures AllTogether(calls + [(a, b)], nets')
  {
    var all := calls + [(a, b)];
    forall c {:trigger all[c]} | 0 <= c < |all| ensures Together(nets', all[c].0, all[c].1) {
      if c < |calls| {
        assert all[c] == calls[c];
        TogetherKept(nets, nets', calls[c].0, calls[c].1);
      }
    }
  }

  lemma {:induction false} RunSnoc(calls: seq<(Terminal, Terminal)>, a: Terminal, b: Terminal)
    ensures Run(calls + [(a, b)]) == if Run(calls).Built? then Connected(Run(calls).nets, a, b) else Abort
  {
    assert (calls + [(a, b)])[..|calls|] == calls;
  }

  lemma {:induction false} LastCall(calls: seq<(Terminal, Terminal)>) returns (before: seq<(Terminal, Terminal)>, a: Terminal, b: Terminal)
    requires calls != []
    ensures calls == before + [(a, b)] && |before| < |calls|
  {
    var n := |calls| - 1;
    before, a, b := calls[..n], calls[n].0, calls[n].1;
    assert calls[n] == (a, b);
  }

  lemma {:induction false} RunInvariant(calls: seq<(Terminal, Terminal)>)
    requires Run(calls).Built?
    ensures Invariant(calls, Run(calls).nets)
    decreases |calls|
  {
    if calls != [] {
      var before, a, b := LastCall(calls);
      RunSnoc(before, a, b);
      RunInvariant(before);
      CallKeeps(before, Run(before).nets, a, b);
    }
  }

  /** After any run that does not abort, two terminals share a net exactly when the calls link them. */
  lemma {:induction false} RunIsClosure(calls: seq<(Terminal, Terminal)>, s: Terminal, t: Terminal)
    requires Run(calls).Built?
    ensures Together(Run(calls).nets, s, t) <==> Linked(calls, s, t)
  {
    RunInvariant(calls);
    var nets := Run(calls).nets;
    if Together(nets, s, t) {
      var i :| 0 <= i < |nets| && s in nets[i].conns && t in nets[i].conns;
      assert AllLinked(calls, nets[i]);
    }
    if Linked(calls, s, t) {
      var k: nat :| k > 0 && Steps(calls, s, t, k);
      StepsStay(calls, nets, s, t, k);
    }
  }

  /** No terminal is on two nets, a net is exposed exactly when one of its terminals has no
      instance, and a net lists no terminal twice, save one that was first connected to itself. */
  lemma {:induction false} RunNets(calls: seq<(Terminal, Terminal)>)
    requires Run(calls).Built?
    ensures Disjoint(Run(calls).nets) && forall i :: 0 <= i < |Run(calls).nets| ==> Shaped(Run(calls).nets[i])
  {
    RunInvariant(calls);
  }

  /** The next call aborts exactly when both terminals were connected before, but not to each other. */
  lemma {:induction false} AbortIff(calls: seq<(Terminal, Terminal)>, a: Terminal, b: Terminal)
    requires Run(calls).Built?
    ensures Run(calls + [(a, b)]) == Abort <==> Linked(calls, a, a) && Linked(calls, b, b) && !Linked(calls, a, b)
  {
    var nets := Run(calls).nets;
    RunSnoc(calls, a, b);
    RunInvariant(calls);
    RunIsClosure(calls, a, a);
    RunIsClosure(calls, b, b);
    RunIsClosure(calls, a, b);
    assert Find(nets, a) != Several && Find(nets, b) != Several;
    assert Find(nets, a).At? ==> a in nets[Find(nets, a).net].conns;
    assert Find(nets, b).At? ==> b in nets[Find(nets, b).net].conns;
  }

  /** Two pairs are connected, then a terminal of one with a terminal of the other. */
  lemma {:induction false} MergeExample(a: Terminal, b: Terminal, c: Terminal, d: Terminal)
    requires a != b && a != c && a != d && b != c && b != d && c != d
    ensures Run([(a, b), (c, d)]).Built? && Run([(a, b), (c, d), (a, c)]) == Abort
  {
    var first, second := NetData([a, b], a.inst == null || b.inst == null), NetData([c, d], c.inst == null || d.inst == null);
    assert [(a, b)] == [] + [(a, b)] && [(a, b), (c, d)] == [(a, b)] + [(c, d)] && [(a, b), (c, d), (a, c)] == [(a, b), (c, d)] + [(a, c)];
    assert Run([]) == Built([]);
    PairOfNew([], a, b);
    RunSnoc([], a, b);
    PairOfNew([first], c, d);
    RunSnoc([(a, b)], c, d);
    assert Run([(a, b), (c, d)]) == Built([first, second]);
    TwoNetsAbort(first, second, a, c);
    RunSnoc([(a, b), (c, d)], a, c);
  }

  lemma {:induction false} PairOfNew(nets: seq<NetData>, a: Terminal, b: Terminal)
    requires forall i :: 0 <= i < |nets| ==> a !in nets[i].conns && b !in nets[i].conns
    ensures Connected(nets, a, b) == Built(nets + [NetData([a, b], a.inst == null || b.inst == null)])
  {
    assert Find(nets, a) == Nowhere && Find(nets, b) == Nowhere;
  }

  lemma {:induction false} TwoNetsAbort(first: NetData, second: NetData, a: Terminal, c: Terminal)
    requires a in first.conns && c in second.conns && a !in second.conns && c !in first.conns
    ensures Connected([first, second], a, c) == Abort
  {
    var nets := [first, second];
    assert nets[0] == first && nets[1] == second;
    assert Find(nets, a) != Nowhere && Find(nets, c) != Nowhere;
    assert Find(nets, a).At? ==> a in nets[Find(nets, a).net].conns;
    assert Find(nets, c).At? ==> c in nets[Find(nets, c).net].conns;
  }
}
