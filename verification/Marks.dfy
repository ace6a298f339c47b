/** Dirty marks on a directed graph: what a depth-first marking that stops at marked
    nodes leaves behind, whatever the graph looks like. */
module Marks {

  /** The parts of a design that can be invalid. */
  datatype Bit = EXTENTS | CAPACITANCES | TIMING | POWER_LKG | POWER_INT

  const ALL_BITS: set<Bit> := {EXTENTS, CAPACITANCES, TIMING, POWER_LKG, POWER_INT}

  // Every node's successors are nodes.
  ghost predicate IsGraph<N>(up: map<N, set<N>>) {
    forall n {:trigger up[n]} :: n in up ==> up[n] <= up.Keys
  }

  /** n can be reached from c along k edges. */
  ghost predicate Steps<N>(up: map<N, set<N>>, c: N, n: N, k: nat) {
    if k == 0 then c == n && c in up
    else c in up && exists s :: s in up[c] && Steps(up, s, n, k - 1)
  }

  ghost predicate Reachable<N>(up: map<N, set<N>>, c: N, n: N) {
    exists k: nat :: Steps(up, c, n, k)
  }

  lemma {:induction false} ReachableSelf<N>(up: map<N, set<N>>, c: N)
    requires c in up
    ensures Reachable(up, c, c)
  {
    assert Steps(up, c, c, 0);
  }

  lemma {:induction false} ReachableStep<N>(up: map<N, set<N>>, c: N, s: N, n: N)
    requires c in up && s in up[c] && Reachable(up, s, n)
    ensures Reachable(up, c, n)
  {
    var k: nat :| Steps(up, s, n, k);
    assert Steps(up, c, n, k + 1);
  }

  // Every node with the mark passes it on to its successors.
  ghost predicate Closed<N>(up: map<N, set<N>>, m: map<N, set<Bit>>, b: Bit)
    requires m.Keys == up.Keys && IsGraph(up)
  {
    forall n, s :: n in up && b in m[n] && s in up[n] ==> b in m[s]
  }

  lemma {:induction false} ClosedReaches<N>(up: map<N, set<N>>, m: map<N, set<Bit>>, b: Bit, c: N, n: N, k: nat)
    requires m.Keys == up.Keys && IsGraph(up) && Closed(up, m, b)
    requires c in up && b in m[c] && Steps(up, c, n, k)
    ensures n in up && b in m[n]
    decreases k
  {
    if k > 0 {
      var s :| s in up[c] && Steps(up, s, n, k - 1);
      ClosedReaches(up, m, b, s, n, k - 1);
    }
  }

  // A node either keeps its marks or gains all of the bits; a node that gains them
  // was reached from c and, unless it is `open`, has passed them on.
  ghost predicate Gained<N>(up: map<N, set<N>>, m: map<N, set<Bit>>, m': map<N, set<Bit>>, c: N, bits: set<Bit>, open: set<N>, n: N)
    requires m.Keys == m'.Keys == up.Keys && IsGraph(up) && n in up
  {
    || m'[n] == m[n]
    || (m'[n] == m[n] + bits && Reachable(up, c, n) && (n in open || forall s :: s in up[n] ==> bits <= m'[s]))
  }

  ghost predicate Marking<N>(up: map<N, set<N>>, m: map<N, set<Bit>>, m': map<N, set<Bit>>, c: N, bits: set<Bit>, open: set<N>) {
    && m.Keys == m'.Keys == up.Keys && IsGraph(up)
    && c in up && bits <= m'[c]
    && forall n {:trigger Gained(up, m, m', c, bits, open, n)} :: n in up ==> Gained(up, m, m', c, bits, open, n)
  }

  /** What one invalidation from c may do to the marks, starting from any marks at all. */
  ghost predicate Spread<N>(up: map<N, set<N>>, m: map<N, set<Bit>>, m': map<N, set<Bit>>, c: N, bits: set<Bit>) {
    Marking(up, m, m', c, bits, {})
  }

  lemma {:induction false} SpreadNothing<N>(up: map<N, set<N>>, m: map<N, set<Bit>>, c: N, bits: set<Bit>)
    requires m.Keys == up.Keys && IsGraph(up) && c in up && bits <= m[c]
    ensures Spread(up, m, m, c, bits)
  {
  }

  // The start of the walk: c itself is marked and its successors are still to be visited.
  lemma {:induction false} MarkingStart<N>(up: map<N, set<N>>, m: map<N, set<Bit>>, m': map<N, set<Bit>>, c: N, bits: set<Bit>)
    requires m.Keys == up.Keys && IsGraph(up) && c in up && m' == m[c := m[c] + bits]
    ensures Marking(up, m, m', c, bits, {c})
    ensures !(bits <= m[c]) ==> Clear(m', bits) < Clear(m, bits)
  {
    ReachableSelf(up, c);
    MarkingClears(up, m, m', c, bits, {c});
  }

  // One successor visited.
  lemma {:induction false} MarkingStep<N>(up: map<N, set<N>>, m: map<N, set<Bit>>, m': map<N, set<Bit>>, m'': map<N, set<Bit>>,
                                          c: N, s: N, bits: set<Bit>)
    requires Marking(up, m, m', c, bits, {c}) && s in up[c] && Spread(up, m', m'', s, bits)
    ensures Marking(up, m, m'', c, bits, {c})
    ensures forall n :: n in up && bits <= m'[n] ==> bits <= m''[n]
  {
    forall n | n in up ensures Gained(up, m, m'', c, bits, {c}, n) && m'[n] <= m''[n] {
      assert Gained(up, m, m', c, bits, {c}, n);
      assert Gained(up, m', m'', s, bits, {}, n);
      if Reachable(up, s, n) {
        ReachableStep(up, c, s, n);
      }
      forall t | t in up[n] ensures m'[t] <= m''[t] {
        assert Gained(up, m', m'', s, bits, {}, t);
      }
    }
    assert Gained(up, m', m'', s, bits, {}, c);
  }

  lemma {:induction false} MarkingDone<N>(up: map<N, set<N>>, m: map<N, set<Bit>>, m': map<N, set<Bit>>, c: N, bits: set<Bit>)
    requires Marking(up, m, m', c, bits, {c}) && forall s :: s in up[c] ==> bits <= m'[s]
    ensures Spread(up, m, m', c, bits)
  {
    forall n | n in up ensures Gained(up, m, m', c, bits, {}, n) {
      assert Gained(up, m, m', c, bits, {c}, n);
    }
  }

  /** From closed marks, an invalidation marks exactly what was marked plus everything
      reachable from its start, and leaves the marks closed; other bits are not touched. */
  lemma {:induction false} SpreadIsReachability<N>(up: map<N, set<N>>, m: map<N, set<Bit>>, m': map<N, set<Bit>>, c: N, bits: set<Bit>, b: Bit)
    requires Spread(up, m, m', c, bits) && Closed(up, m, b)
    ensures Closed(up, m', b)
    ensures forall n :: n in up ==> (b in m'[n] <==> b in m[n] || (b in bits && Reachable(up, c, n)))
  {
    forall n, s | n in up && b in m'[n] && s in up[n] ensures b in m'[s] {
      assert Gained(up, m, m', c, bits, {}, n) && Gained(up, m, m', c, bits, {}, s);
    }
    forall n | n in up ensures b in m'[n] <==> b in m[n] || (b in bits && Reachable(up, c, n)) {
      assert Gained(up, m, m', c, bits, {}, n);
      if b in bits && Reachable(up, c, n) {
        var k: nat :| Steps(up, c, n, k);
        ClosedReaches(up, m', b, c, n, k);
      }
    }
  }

  // Some marks among the bits may have come, and none have gone.
  ghost predicate Gains<N>(m: map<N, set<Bit>>, m': map<N, set<Bit>>, bits: set<Bit>) {
    m'.Keys == m.Keys && forall n {:trigger m'[n]} :: n in m ==> m[n] <= m'[n] <= m[n] + bits
  }

  lemma {:induction false} GainsMore<N>(m: map<N, set<Bit>>, m': map<N, set<Bit>>, m'': map<N, set<Bit>>, bits: set<Bit>)
    requires Gains(m, m', bits) && Gains(m', m'', bits)
    ensures Gains(m, m'', bits)
  {
    forall n {:trigger m''[n]} | n in m ensures m[n] <= m''[n] <= m[n] + bits {
      assert m'[n] <= m''[n];
    }
  }

  lemma {:induction false} SpreadGains<N>(up: map<N, set<N>>, m: map<N, set<Bit>>, m': map<N, set<Bit>>, c: N, bits: set<Bit>)
    requires Spread(up, m, m', c, bits)
    ensures Gains(m, m', bits)
  {
    forall n {:trigger m'[n]} | n in m ensures m[n] <= m'[n] <= m[n] + bits {
      assert Gained(up, m, m', c, bits, {}, n);
    }
  }

  // --- Termination ---------------------------------------------------------

  // The nodes that an invalidation with these bits would still enter.
  ghost function Clear<N>(m: map<N, set<Bit>>, bits: set<Bit>): set<N> {
    set n | n in m && !(bits <= m[n])
  }

  lemma {:induction false} MarkingClears<N>(up: map<N, set<N>>, m: map<N, set<Bit>>, m': map<N, set<Bit>>, c: N, bits: set<Bit>, open: set<N>)
    requires Marking(up, m, m', c, bits, open)
    ensures Clear(m', bits) <= Clear(m, bits)
    ensures c in Clear(m, bits) ==> Clear(m', bits) < Clear(m, bits)
  {
    forall n | n in Clear(m', bits) ensures n in Clear(m, bits) {
      assert Gained(up, m, m', c, bits, open, n);
    }
  }
}
