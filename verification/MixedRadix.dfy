/** Strided addressing of an n-dimensional box and the odometer that walks it.

    An index vector `ix` addresses the flat slot `Dot(ix, strides)`.  Strides are
    `Packed` when some order of the axes makes each stride the number of values
    covered by the axes before it; canonical strides (first axis fastest) are the
    special case in which that order is the order of the axes themselves. */
module MixedRadix {

  ghost predicate InBox(ix: seq<nat>, sizes: seq<nat>) {
    |ix| == |sizes| && forall k :: 0 <= k < |ix| ==> ix[k] < sizes[k]
  }

  function Dot(ix: seq<nat>, strides: seq<nat>): nat
    requires |ix| == |strides|
  {
    if ix == [] then 0
    else
      var n := |ix| - 1;
      Dot(ix[..n], strides[..n]) + ix[n] * strides[n]
  }

  function Product(sizes: seq<nat>): nat {
    if sizes == [] then 1
    else Product(sizes[..|sizes| - 1]) * sizes[|sizes| - 1]
  }

  lemma {:induction false} ProductStep(sizes: seq<nat>, u: nat)
    requires u < |sizes|
    ensures Product(sizes[..u + 1]) == Product(sizes[..u]) * sizes[u]
  {
    assert sizes[..u + 1][..u] == sizes[..u];
  }

  function Canonical(sizes: seq<nat>): (strides: seq<nat>)
    ensures |strides| == |sizes|
    ensures forall k :: 0 <= k < |sizes| ==> strides[k] == Product(sizes[..k])
  {
    seq(|sizes|, k requires 0 <= k < |sizes| => Product(sizes[..k]))
  }

  ghost predicate AllPositive(sizes: seq<nat>) {
    forall k :: 0 <= k < |sizes| ==> sizes[k] > 0
  }

  function Remove<T>(s: seq<T>, k: nat): (r: seq<T>)
    requires k < |s|
    ensures |r| == |s| - 1
  {
    s[..k] + s[k + 1..]
  }

  function Insert<T>(s: seq<T>, k: nat, x: T): (r: seq<T>)
    requires k <= |s|
    ensures |r| == |s| + 1
  {
    s[..k] + [x] + s[k..]
  }

  // Some axis is outermost and covers n values; the others pack into its stride.
  ghost predicate Packed(sizes: seq<nat>, strides: seq<nat>, n: nat)
    requires |sizes| == |strides|
    decreases |sizes|
  {
    if sizes == [] then n == 1
    else exists k :: PackedAt(sizes, strides, n, k)
  }

  ghost predicate PackedAt(sizes: seq<nat>, strides: seq<nat>, n: nat, k: nat)
    requires |sizes| == |strides|
    decreases |sizes|, 0
  {
    k < |sizes| && sizes[k] * strides[k] == n && Packed(Remove(sizes, k), Remove(strides, k), strides[k])
  }

  // --- Dot and products ---------------------------------------------------

  lemma {:induction false} DotSplit(ix: seq<nat>, strides: seq<nat>, k: nat)
    requires |ix| == |strides| && k <= |ix|
    ensures Dot(ix, strides) == Dot(ix[..k], strides[..k]) + Dot(ix[k..], strides[k..])
    decreases |ix|
  {
    var n := |ix| - 1;
    if k == |ix| {
      assert ix[..k] == ix && strides[..k] == strides;
      assert ix[k..] == [] && strides[k..] == [];
    } else {
      DotSplit(ix[..n], strides[..n], k);
      assert ix[..n][..k] == ix[..k] && strides[..n][..k] == strides[..k];
      assert ix[..n][k..] == ix[k..][..n - k] && strides[..n][k..] == strides[k..][..n - k];
    }
  }

  lemma {:induction false} DotSnoc(ix: seq<nat>, strides: seq<nat>, i: nat, stride: nat)
    requires |ix| == |strides|
    ensures Dot(ix + [i], strides + [stride]) == Dot(ix, strides) + i * stride
  {
    assert (ix + [i])[..|ix|] == ix && (strides + [stride])[..|ix|] == strides;
  }

  // Taking one axis out of the address computation.
  lemma {:induction false} DotRemove(ix: seq<nat>, strides: seq<nat>, k: nat)
    requires |ix| == |strides| && k < |ix|
    ensures Dot(ix, strides) == Dot(Remove(ix, k), Remove(strides, k)) + ix[k] * strides[k]
  {
    DotSplit(ix, strides, k + 1);
    assert ix[..k + 1][..k] == ix[..k] && strides[..k + 1][..k] == strides[..k];
    DotSplit(Remove(ix, k), Remove(strides, k), k);
    assert Remove(ix, k)[..k] == ix[..k] && Remove(strides, k)[..k] == strides[..k];
    assert Remove(ix, k)[k..] == ix[k + 1..] && Remove(strides, k)[k..] == strides[k + 1..];
  }

  lemma {:induction false} DotInsert(ix: seq<nat>, strides: seq<nat>, k: nat, i: nat)
    requires k < |strides| && |ix| == |strides| - 1
    ensures Dot(Insert(ix, k, i), strides) == Dot(ix, Remove(strides, k)) + i * strides[k]
  {
    DotRemove(Insert(ix, k, i), strides, k);
    assert Remove(Insert(ix, k, i), k) == ix;
  }

  lemma {:induction false} ProductPositive(sizes: seq<nat>)
    requires AllPositive(sizes)
    ensures Product(sizes) > 0
  {
    if sizes != [] {
      var n := |sizes| - 1;
      ProductPositive(sizes[..n]);
      assert Product(sizes[..n]) > 0 && sizes[n] > 0;
    }
  }

  lemma {:induction false} DotZero(ix: seq<nat>, strides: seq<nat>)
    requires |ix| == |strides| && forall k :: 0 <= k < |ix| ==> ix[k] == 0
    ensures Dot(ix, strides) == 0
  {
    if ix != [] {
      var n := |ix| - 1;
      DotZero(ix[..n], strides[..n]);
    }
  }

  // --- Packed strides address a box one-to-one ----------------------------

  lemma {:induction false} RemoveInBox(ix: seq<nat>, sizes: seq<nat>, k: nat)
    requires InBox(ix, sizes) && k < |sizes|
    ensures InBox(Remove(ix, k), Remove(sizes, k))
  {
    var r, t := Remove(ix, k), Remove(sizes, k);
    forall j | 0 <= j < |r| ensures r[j] < t[j] {
      if j < k {
        assert r[j] == ix[j] && t[j] == sizes[j];
      } else {
        assert r[j] == ix[j + 1] && t[j] == sizes[j + 1];
      }
    }
  }

  lemma {:induction false} InsertInBox(ix: seq<nat>, sizes: seq<nat>, k: nat, i: nat)
    requires k < |sizes| && InBox(ix, Remove(sizes, k)) && i < sizes[k]
    ensures InBox(Insert(ix, k, i), sizes)
  {
    var r, t := Insert(ix, k, i), Remove(sizes, k);
    forall j | 0 <= j < |r| ensures r[j] < sizes[j] {
      if j < k {
        assert r[j] == ix[j] && t[j] == sizes[j];
      } else if j > k {
        assert r[j] == ix[j - 1] && t[j - 1] == sizes[j];
      }
    }
  }

  lemma {:induction false} PackedRange(ix: seq<nat>, sizes: seq<nat>, strides: seq<nat>, n: nat)
    requires |sizes| == |strides| && Packed(sizes, strides, n) && InBox(ix, sizes)
    ensures Dot(ix, strides) < n
    decreases |sizes|
  {
    if sizes != [] {
      var k: nat :| PackedAt(sizes, strides, n, k);
      RemoveInBox(ix, sizes, k);
      PackedRange(Remove(ix, k), Remove(sizes, k), Remove(strides, k), strides[k]);
      DotRemove(ix, strides, k);
      BelowNextStep(Dot(Remove(ix, k), Remove(strides, k)), ix[k], sizes[k], strides[k]);
    }
  }

  lemma {:induction false} BelowNextStep(r: nat, i: nat, size: nat, m: nat)
    requires r < m && i < size
    ensures r + i * m < size * m
  {
    MulMonotone(i + 1, size, m);
  }

  lemma {:induction false} MulMonotone(a: nat, b: nat, m: nat)
    ensures a <= b ==> a * m <= b * m
  {
    if a <= b {
      assert (b - a) * m >= 0;
    }
  }

  lemma {:induction false} PackedInjective(ix: seq<nat>, jx: seq<nat>, sizes: seq<nat>, strides: seq<nat>, n: nat)
    requires |sizes| == |strides| && Packed(sizes, strides, n) && InBox(ix, sizes) && InBox(jx, sizes)
    requires Dot(ix, strides) == Dot(jx, strides)
    ensures ix == jx
    decreases |sizes|
  {
    if sizes != [] {
      var k: nat :| PackedAt(sizes, strides, n, k);
      var si, ti := Remove(sizes, k), Remove(strides, k);
      RemoveInBox(ix, sizes, k);
      RemoveInBox(jx, sizes, k);
      SameLastStep(ix, jx, sizes, strides, k);
      PackedInjective(Remove(ix, k), Remove(jx, k), si, ti, strides[k]);
      SameRemove(ix, jx, k);
    }
  }

  lemma {:induction false} SameRemove(ix: seq<nat>, jx: seq<nat>, k: nat)
    requires |ix| == |jx| && k < |ix| && Remove(ix, k) == Remove(jx, k) && ix[k] == jx[k]
    ensures ix == jx
  {
    assert ix == Insert(Remove(ix, k), k, ix[k]);
    assert jx == Insert(Remove(jx, k), k, jx[k]);
  }

  lemma {:induction false} SameLastStep(ix: seq<nat>, jx: seq<nat>, sizes: seq<nat>, strides: seq<nat>, k: nat)
    requires |sizes| == |strides| && k < |sizes| && Packed(Remove(sizes, k), Remove(strides, k), strides[k])
    requires |ix| == |jx| == |sizes| && InBox(Remove(ix, k), Remove(sizes, k)) && InBox(Remove(jx, k), Remove(sizes, k))
    requires Dot(ix, strides) == Dot(jx, strides)
    ensures ix[k] == jx[k] && Dot(Remove(ix, k), Remove(strides, k)) == Dot(Remove(jx, k), Remove(strides, k))
  {
    var si, ti := Remove(sizes, k), Remove(strides, k);
    PackedRange(Remove(ix, k), si, ti, strides[k]);
    PackedRange(Remove(jx, k), si, ti, strides[k]);
    DotRemove(ix, strides, k);
    DotRemove(jx, strides, k);
    QuotientUnique(strides[k], ix[k], Dot(Remove(ix, k), ti), jx[k], Dot(Remove(jx, k), ti));
  }

  lemma {:induction false} QuotientUnique(m: nat, q: nat, r: nat, q': nat, r': nat)
    requires r < m && r' < m && q * m + r == q' * m + r'
    ensures q == q' && r == r'
  {
    MulMonotone(q + 1, q', m);
    MulMonotone(q' + 1, q, m);
  }

  lemma {:induction false} PackedSurjective(v: nat, sizes: seq<nat>, strides: seq<nat>, n: nat) returns (ix: seq<nat>)
    requires |sizes| == |strides| && Packed(sizes, strides, n) && v < n
    ensures InBox(ix, sizes) && Dot(ix, strides) == v
    decreases |sizes|
  {
    if sizes == [] {
      ix := [];
    } else {
      var k: nat :| PackedAt(sizes, strides, n, k);
      QuotientBelow(v, sizes[k], strides[k]);
      var m := strides[k];
      var rest := PackedSurjective(v % m, Remove(sizes, k), Remove(strides, k), m);
      ix := Insert(rest, k, v / m);
      DotInsert(rest, strides, k, v / m);
      InsertInBox(rest, sizes, k, v / m);
    }
  }

  lemma {:induction false} QuotientBelow(v: nat, size: nat, m: nat)
    requires v < size * m
    ensures m > 0 && v / m < size && v / m * m + v % m == v
  {
    MulMonotone(m, 0, size);
    assert m > 0;
    assert v / m * m + v % m == v;
    MulMonotone(size, v / m, m);
  }

  ghost predicate Addressed(v: nat, sizes: seq<nat>, strides: seq<nat>)
    requires |sizes| == |strides|
  {
    exists ix {:trigger InBox(ix, sizes)} :: InBox(ix, sizes) && Dot(ix, strides) == v
  }

  /** Table addressing is a bijection between the axis box and [0, n). */
  lemma {:induction false} PackedBijection(sizes: seq<nat>, strides: seq<nat>, n: nat)
    requires |sizes| == |strides| && Packed(sizes, strides, n)
    ensures forall ix {:trigger InBox(ix, sizes)} :: InBox(ix, sizes) ==> Dot(ix, strides) < n
    ensures forall ix, jx {:trigger InBox(ix, sizes), InBox(jx, sizes)} ::
              InBox(ix, sizes) && InBox(jx, sizes) && Dot(ix, strides) == Dot(jx, strides) ==> ix == jx
    ensures forall v: nat :: v < n ==> Addressed(v, sizes, strides)
  {
    forall ix | InBox(ix, sizes) ensures Dot(ix, strides) < n {
      PackedRange(ix, sizes, strides, n);
    }
    forall ix, jx | InBox(ix, sizes) && InBox(jx, sizes) && Dot(ix, strides) == Dot(jx, strides) ensures ix == jx {
      PackedInjective(ix, jx, sizes, strides, n);
    }
    forall v: nat | v < n ensures Addressed(v, sizes, strides) {
      var ix := PackedSurjective(v, sizes, strides, n);
    }
  }

  lemma {:induction false} CanonicalPacked(sizes: seq<nat>)
    ensures Packed(sizes, Canonical(sizes), Product(sizes))
  {
    if sizes != [] {
      var n := |sizes| - 1;
      CanonicalPacked(sizes[..n]);
      assert Remove(sizes, n) == sizes[..n];
      assert Remove(Canonical(sizes), n) == Canonical(sizes[..n]) by {
        forall k | 0 <= k < n ensures Canonical(sizes)[k] == Canonical(sizes[..n])[k] {
          assert sizes[..n][..k] == sizes[..k];
        }
      }
      assert PackedAt(sizes, Canonical(sizes), Product(sizes), n);
    }
  }

  ghost predicate IsPermutation(order: seq<nat>, n: nat) {
    && |order| == n
    && (forall j :: 0 <= j < n ==> order[j] < n)
    && (forall k :: 0 <= k < n ==> k in order)
    && (forall i, j :: 0 <= i < j < n ==> order[i] != order[j])
  }

  // Sizes and strides given in one order and stored in another.
  ghost predicate Reordered(sizes: seq<nat>, strides: seq<nat>, given: seq<nat>, order: seq<nat>) {
    && |sizes| == |strides| == |given| && IsPermutation(order, |given|)
    && forall j :: 0 <= j < |sizes| ==> sizes[j] == given[order[j]] && strides[j] == Product(given[..order[j]])
  }

  // Strides assigned in one order of the axes and stored in another still pack.
  lemma {:induction false} PermutedCanonicalPacked(sizes: seq<nat>, strides: seq<nat>, given: seq<nat>, order: seq<nat>)
    requires Reordered(sizes, strides, given, order)
    ensures Packed(sizes, strides, Product(given))
    decreases |given|
  {
    if given != [] {
      var n := |given| - 1;
      assert n in order;
      var k: nat :| k < |order| && order[k] == n;
      ReorderedWithoutLast(sizes, strides, given, order, n, k);
      PermutedCanonicalPacked(Remove(sizes, k), Remove(strides, k), given[..n], Remove(order, k));
      assert PackedAt(sizes, strides, Product(given), k);
    }
  }

  lemma {:induction false} ReorderedWithoutLast(sizes: seq<nat>, strides: seq<nat>, given: seq<nat>, order: seq<nat>, n: nat, k: nat)
    requires Reordered(sizes, strides, given, order) && n + 1 == |given| && k < |order| && order[k] == n
    ensures Reordered(Remove(sizes, k), Remove(strides, k), given[..n], Remove(order, k))
    ensures strides[k] == Product(given[..n]) && sizes[k] == given[n]
  {
    var given', order' := given[..n], Remove(order, k);
    PermutationWithoutLast(order, n, k);
    forall j | 0 <= j < n
      ensures Remove(sizes, k)[j] == given'[order'[j]] && Remove(strides, k)[j] == Product(given'[..order'[j]])
    {
      assert given'[..order'[j]] == given[..order'[j]];
    }
  }

  lemma {:induction false} PermutationWithoutLast(order: seq<nat>, n: nat, k: nat)
    requires IsPermutation(order, n + 1) && k < |order| && order[k] == n
    ensures IsPermutation(Remove(order, k), n)
  {
    var r := Remove(order, k);
    assert forall j :: 0 <= j < n ==> r[j] == if j < k then order[j] else order[j + 1];
    forall i | 0 <= i < n ensures i in r {
      assert i in order;
      var j: nat :| j < |order| && order[j] == i;
      assert r[if j < k then j else j - 1] == i;
    }
  }

  lemma {:induction false} ProductRemove(sizes: seq<nat>, k: nat)
    requires k < |sizes|
    ensures Product(sizes) == Product(Remove(sizes, k)) * sizes[k]
  {
    var n := |sizes| - 1;
    if k == n {
      assert Remove(sizes, k) == sizes[..n];
    } else {
      ProductRemove(sizes[..n], k);
      assert Remove(sizes, k)[..n - 1] == Remove(sizes[..n], k);
      Regroup(Product(Remove(sizes[..n], k)), sizes[k], sizes[n]);
    }
  }

  lemma {:induction false} Regroup(a: nat, b: nat, c: nat)
    ensures a * b * c == a * c * b
  {
  }

  /** Packed strides cover exactly as many values as the box has index vectors. */
  lemma {:induction false} PackedCount(sizes: seq<nat>, strides: seq<nat>, n: nat)
    requires |sizes| == |strides| && Packed(sizes, strides, n)
    ensures n == Product(sizes)
    decreases |sizes|
  {
    if sizes != [] {
      var k: nat :| PackedAt(sizes, strides, n, k);
      PackedCount(Remove(sizes, k), Remove(strides, k), strides[k]);
      ProductRemove(sizes, k);
    }
  }

  // --- The odometer -------------------------------------------------------

  /** Position of an index vector in the order the odometer visits the box. */
  function Rank(ix: seq<nat>, sizes: seq<nat>): nat
    requires |ix| == |sizes|
  {
    Dot(ix, Canonical(sizes))
  }

  lemma {:induction false} RankInjective(ix: seq<nat>, jx: seq<nat>, sizes: seq<nat>)
    requires InBox(ix, sizes) && InBox(jx, sizes) && Rank(ix, sizes) == Rank(jx, sizes)
    ensures ix == jx
  {
    CanonicalPacked(sizes);
    PackedInjective(ix, jx, sizes, Canonical(sizes), Product(sizes));
  }

  lemma {:induction false} RankBelow(ix: seq<nat>, sizes: seq<nat>)
    requires InBox(ix, sizes)
    ensures Rank(ix, sizes) < Product(sizes)
  {
    CanonicalPacked(sizes);
    PackedRange(ix, sizes, Canonical(sizes), Product(sizes));
  }

  // A prefix in which every digit is at its maximum ranks just below the next digit's weight.
  lemma {:induction false} FullPrefixRank(ix: seq<nat>, sizes: seq<nat>)
    requires |ix| == |sizes| && AllPositive(sizes)
    requires forall k :: 0 <= k < |ix| ==> ix[k] + 1 == sizes[k]
    ensures Rank(ix, sizes) + 1 == Product(sizes)
  {
    if ix != [] {
      var n := |ix| - 1;
      CanonicalPrefix(sizes, n);
      FullPrefixRank(ix[..n], sizes[..n]);
      StepUp(ix[n], Product(sizes[..n]));
    }
  }

  lemma {:induction false} CanonicalPrefix(sizes: seq<nat>, n: nat)
    requires n <= |sizes|
    ensures Canonical(sizes)[..n] == Canonical(sizes[..n])
  {
    forall k | 0 <= k < n ensures Canonical(sizes)[k] == Canonical(sizes[..n])[k] {
      assert sizes[..n][..k] == sizes[..k];
    }
  }

  // Clearing u full digits and incrementing the next one moves to the next rank.
  lemma {:induction false} CarryRank(ix: seq<nat>, next: seq<nat>, sizes: seq<nat>, u: nat)
    requires |ix| == |next| == |sizes| && u < |ix| && AllPositive(sizes)
    requires forall k :: 0 <= k < u ==> ix[k] + 1 == sizes[k] && next[k] == 0
    requires next[u] == ix[u] + 1 && next[u + 1..] == ix[u + 1..]
    ensures Rank(next, sizes) == Rank(ix, sizes) + 1
  {
    var c := Canonical(sizes);
    DotAround(ix, c, u);
    DotAround(next, c, u);
    CanonicalPrefix(sizes, u);
    FullPrefixRank(ix[..u], sizes[..u]);
    DotZero(next[..u], c[..u]);
    StepUp(ix[u], c[u]);
  }

  lemma {:induction false} StepUp(i: nat, m: nat)
    ensures (i + 1) * m == i * m + m
  {
  }

  lemma {:induction false} DotAround(ix: seq<nat>, strides: seq<nat>, u: nat)
    requires |ix| == |strides| && u < |ix|
    ensures Dot(ix, strides) == Dot(ix[..u], strides[..u]) + ix[u] * strides[u] + Dot(ix[u + 1..], strides[u + 1..])
  {
    DotSplit(ix, strides, u + 1);
    assert ix[..u + 1][..u] == ix[..u] && strides[..u + 1][..u] == strides[..u];
  }

  /** Advances an index vector in place, first digit fastest.  `carry` reports
      that the vector wrapped around to zero after the last position. */
  method Advance(index: array<nat>, max: seq<nat>) returns (carry: bool)
    requires InBox(index[..], max)
    modifies index
    ensures InBox(index[..], max)
    ensures carry <==> Rank(old(index[..]), max) + 1 == Product(max)
    ensures !carry ==> Rank(index[..], max) == Rank(old(index[..]), max) + 1
    ensures carry ==> Rank(index[..], max) == 0
  {
    ghost var was := index[..];
    carry := true;
    var u := 0;
    while u < index.Length && carry
      invariant u <= index.Length
      invariant carry ==> forall k :: 0 <= k < u ==> was[k] + 1 == max[k] && index[k] == 0
      invariant carry ==> forall k :: u <= k < index.Length ==> index[k] == was[k]
      invariant !carry ==> InBox(index[..], max) && Rank(index[..], max) == Rank(was, max) + 1
    {
      index[u] := index[u] + 1;
      if index[u] == max[u] {
        index[u] := 0;
      } else {
        carry := false;
        CarryRank(was, index[..], max, u);
      }
      u := u + 1;
    }
    if carry {
      FullPrefixRank(was, max);
      DotZero(index[..], Canonical(max));
    } else {
      RankBelow(index[..], max);
    }
  }

  method Offset(index: array<nat>, strides: seq<nat>) returns (d: nat)
    requires index.Length == |strides|
    ensures d == Dot(index[..], strides)
  {
    d := 0;
    var u := 0;
    while u < index.Length
      invariant u <= index.Length && d == Dot(index[..u], strides[..u])
    {
      assert index[..u + 1][..u] == index[..u] && strides[..u + 1][..u] == strides[..u];
      d := d + index[u] * strides[u];
      u := u + 1;
    }
    assert index[..u] == index[..] && strides[..u] == strides;
  }

  /** The index vector at a given rank. */
  function Digits(t: nat, sizes: seq<nat>): (ix: seq<nat>)
    requires AllPositive(sizes)
    ensures |ix| == |sizes|
  {
    if sizes == [] then []
    else
      ProductPositive(sizes[..|sizes| - 1]);
      var m := Product(sizes[..|sizes| - 1]);
      Digits(t % m, sizes[..|sizes| - 1]) + [t / m]
  }

  lemma {:induction false} DigitsSnoc(t: nat, sizes: seq<nat>, n: nat, m: nat, low: nat, high: nat)
    requires AllPositive(sizes) && |sizes| == n + 1 && m == Product(sizes[..n]) && high < sizes[n] && high * m + low == t
    requires Digits(t, sizes) == Digits(low, sizes[..n]) + [high]
    requires InBox(Digits(low, sizes[..n]), sizes[..n]) && Rank(Digits(low, sizes[..n]), sizes[..n]) == low
    ensures InBox(Digits(t, sizes), sizes) && Rank(Digits(t, sizes), sizes) == t
  {
    RankSnoc(Digits(low, sizes[..n]), high, sizes[..n], sizes[n], m);
    assert sizes == sizes[..n] + [sizes[n]];
  }

  lemma {:induction false} LastDigit(t: nat, sizes: seq<nat>, n: nat) returns (low: nat, high: nat)
    requires AllPositive(sizes) && t < Product(sizes) && |sizes| == n + 1
    ensures low < Product(sizes[..n]) && high < sizes[n] && high * Product(sizes[..n]) + low == t
    ensures Digits(t, sizes) == Digits(low, sizes[..n]) + [high]
  {
    ProductPositive(sizes[..n]);
    var m := Product(sizes[..n]);
    QuotientBelow(t, sizes[n], m);
    low, high := t % m, t / m;
  }

  lemma {:induction false} DigitsRank(t: nat, sizes: seq<nat>)
    requires AllPositive(sizes) && t < Product(sizes)
    ensures InBox(Digits(t, sizes), sizes) && Rank(Digits(t, sizes), sizes) == t
  {
    if sizes != [] {
      var n := |sizes| - 1;
      var low, high := LastDigit(t, sizes, n);
      hide Digits;
      DigitsRank(low, sizes[..n]);
      DigitsSnoc(t, sizes, n, Product(sizes[..n]), low, high);
    }
  }

  lemma {:induction false} RankSnoc(ix: seq<nat>, i: nat, sizes: seq<nat>, size: nat, m: nat)
    requires InBox(ix, sizes) && i < size && m == Product(sizes)
    ensures InBox(ix + [i], sizes + [size]) && Rank(ix + [i], sizes + [size]) == Rank(ix, sizes) + i * m
  {
    var s := sizes + [size];
    CanonicalPrefix(s, |sizes|);
    assert s[..|sizes|] == sizes;
    assert Canonical(s) == Canonical(sizes) + [m];
    DotSnoc(ix, Canonical(sizes), i, m);
  }

  lemma {:induction false} RankDigits(ix: seq<nat>, sizes: seq<nat>)
    requires InBox(ix, sizes)
    ensures AllPositive(sizes) && Digits(Rank(ix, sizes), sizes) == ix
  {
    RankBelow(ix, sizes);
    DigitsRank(Rank(ix, sizes), sizes);
    RankInjective(ix, Digits(Rank(ix, sizes), sizes), sizes);
  }
}
