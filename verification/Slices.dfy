/** Writing a table slice by slice with a stride between slices that need not be the table's
    own: which slots are written, and by which slice last (the addresses of phx_table_join). */
module Slices {
  import opened MixedRadix
  import opened AxisLookup

  /** `n` slices over the index box `sizes`; entries lie at `rest`, slices start `step` apart
      where the table of `size` slots has them `own` apart. */
  datatype Slicing = Slicing(sizes: seq<nat>, rest: seq<nat>, step: nat, own: nat, n: nat, size: nat)

  datatype Entry = Entry(slice: nat, jx: seq<nat>)

  /** Where slice t starts. */
  function Start(t: nat, step: nat): (p: nat)
    ensures p == t * step
  {
    t * step
  }

  ghost predicate EntryAt(g: Slicing, t: nat, jx: seq<nat>, p: int) {
    |g.sizes| == |g.rest| && InBox(jx, g.sizes) && p == t * g.step + Dot(jx, g.rest)
  }

  ghost predicate Covers(g: Slicing, t: nat, p: int) {
    exists jx :: EntryAt(g, t, jx, p)
  }

  /** The entry that slot p holds after m slices. */
  ghost function LastWrite(g: Slicing, m: nat, p: int): (e: Option<Entry>)
    ensures e.Some? ==> e.value.slice < m && EntryAt(g, e.value.slice, e.value.jx, p)
  {
    if m == 0 then None
    else if Covers(g, m - 1, p) then
      var jx :| EntryAt(g, m - 1, jx, p);
      Some(Entry(m - 1, jx))
    else LastWrite(g, m - 1, p)
  }

  // With its own step the table has room for the last slice, and no more.
  ghost predicate Fills(g: Slicing, top: seq<nat>) {
    && |g.sizes| == |g.rest| && g.n > 0 && InBox(top, g.sizes)
    && (g.n - 1) * g.own + Dot(top, g.rest) + 1 == g.size
    && forall jx {:trigger InBox(jx, g.sizes)} :: InBox(jx, g.sizes) ==> (g.n - 1) * g.own + Dot(jx, g.rest) < g.size
  }

  ghost predicate SameSlot(g: Slicing, i: nat, jx: seq<nat>, t: nat, ix: seq<nat>)
    requires |g.sizes| == |g.rest|
  {
    InBox(jx, g.sizes) && InBox(ix, g.sizes) && i * g.own + Dot(jx, g.rest) == t * g.own + Dot(ix, g.rest)
  }

  // With its own step no two entries share a slot.
  ghost predicate OwnSlots(g: Slicing) {
    && |g.sizes| == |g.rest|
    && forall i: nat, jx, t: nat, ix {:trigger SameSlot(g, i, jx, t, ix)} ::
         i < g.n && t < g.n && SameSlot(g, i, jx, t, ix) ==> i == t && jx == ix
  }

  // --- The slices of a packed table ---------------------------------------------

  ghost predicate SlicesOf(g: Slicing, sizes: seq<nat>, strides: seq<nat>, k: nat) {
    && |sizes| == |strides| && k < |sizes| && Packed(sizes, strides, g.size) && g.n == sizes[k] > 0
    && g.sizes == Remove(sizes, k) && g.rest == Remove(strides, k) && g.own == strides[k]
  }

  lemma {:induction false} FullAddress(g: Slicing, sizes: seq<nat>, strides: seq<nat>, k: nat, i: nat, jx: seq<nat>)
    requires SlicesOf(g, sizes, strides, k) && i < g.n && InBox(jx, g.sizes)
    ensures InBox(Insert(jx, k, i), sizes)
    ensures Dot(Insert(jx, k, i), strides) == i * g.own + Dot(jx, g.rest) < g.size
  {
    InsertInBox(jx, sizes, k, i);
    DotInsert(jx, strides, k, i);
    PackedRange(Insert(jx, k, i), sizes, strides, g.size);
  }

  // The last slot of the table belongs to its last slice.
  lemma {:induction false} TopEntry(g: Slicing, sizes: seq<nat>, strides: seq<nat>, k: nat) returns (top: seq<nat>)
    requires SlicesOf(g, sizes, strides, k) && g.size > 0
    ensures Fills(g, top)
  {
    hide Dot;
    var ix := PackedSurjective(g.size - 1, sizes, strides, g.size);
    RemoveInBox(ix, sizes, k);
    DotRemove(ix, strides, k);
    top := Remove(ix, k);
    TopIsLast(g, sizes, strides, k, ix[k], top);
    forall jx {:trigger InBox(jx, g.sizes)} | InBox(jx, g.sizes) ensures (g.n - 1) * g.own + Dot(jx, g.rest) < g.size {
      FullAddress(g, sizes, strides, k, g.n - 1, jx);
    }
  }

  lemma {:induction false} TopIsLast(g: Slicing, sizes: seq<nat>, strides: seq<nat>, k: nat, i: nat, top: seq<nat>)
    requires SlicesOf(g, sizes, strides, k) && i < g.n && InBox(top, g.sizes) && i * g.own + Dot(top, g.rest) + 1 == g.size
    ensures (g.n - 1) * g.own + Dot(top, g.rest) + 1 == g.size
  {
    FullAddress(g, sizes, strides, k, g.n - 1, top);
    MulMonotone(i, g.n - 1, g.own);
  }

  lemma {:induction false} PackedOneToOne(g: Slicing, sizes: seq<nat>, strides: seq<nat>, k: nat)
    requires SlicesOf(g, sizes, strides, k)
    ensures OwnSlots(g)
  {
    forall i: nat, jx, t: nat, ix {:trigger SameSlot(g, i, jx, t, ix)} | i < g.n && t < g.n && SameSlot(g, i, jx, t, ix)
      ensures i == t && jx == ix
    {
      FullAddress(g, sizes, strides, k, i, jx);
      FullAddress(g, sizes, strides, k, t, ix);
      PackedInjective(Insert(jx, k, i), Insert(ix, k, t), sizes, strides, g.size);
      InsertUnique(jx, ix, k, i, t);
    }
  }

  lemma {:induction false} InsertUnique(jx: seq<nat>, ix: seq<nat>, k: nat, i: nat, t: nat)
    requires k <= |jx| && k <= |ix| && Insert(jx, k, i) == Insert(ix, k, t)
    ensures i == t && jx == ix
  {
    assert Insert(jx, k, i)[k] == i && Insert(ix, k, t)[k] == t;
    assert Remove(Insert(jx, k, i), k) == jx && Remove(Insert(ix, k, t), k) == ix;
  }

  // --- Inside the buffer -----------------------------------------------------------

  /** A slice stays inside exactly when it starts no later than the table's own last slice. */
  lemma {:induction false} SliceInsideIff(g: Slicing, top: seq<nat>, t: nat)
    requires Fills(g, top)
    ensures (forall p: nat :: Covers(g, t, p) ==> p < g.size) <==> t * g.step <= (g.n - 1) * g.own
  {
    if t * g.step <= (g.n - 1) * g.own {
      forall p: nat | Covers(g, t, p) ensures p < g.size {
        var jx :| EntryAt(g, t, jx, p);
      }
    } else {
      var p := t * g.step + Dot(top, g.rest);
      assert EntryAt(g, t, top, p);
      assert Covers(g, t, p) && p >= g.size;
    }
  }

  lemma {:induction false} StartsEarly(t: nat, n: nat, s: nat, own: nat)
    requires t < n && (s <= own || n == 1)
    ensures t * s <= (n - 1) * own
  {
    if n > 1 {
      MulMonotone(s, own, t);
      MulMonotone(t, n - 1, own);
    }
  }

  lemma {:induction false} StartsLate(n: nat, s: nat, own: nat)
    requires n > 1 && s > own
    ensures (n - 1) * s > (n - 1) * own
  {
    StepUp(own, n - 1);
    MulMonotone(own + 1, s, n - 1);
  }

  ghost predicate AllInside(g: Slicing) {
    forall t: nat, p: nat {:trigger Covers(g, t, p)} :: t < g.n && Covers(g, t, p) ==> p < g.size
  }

  /** All slices stay inside exactly when they are no further apart than the table has them,
      or there is only one. */
  lemma {:induction false} AllInsideIff(g: Slicing, top: seq<nat>)
    requires Fills(g, top)
    ensures AllInside(g) <==> g.step <= g.own || g.n == 1
  {
    if g.step <= g.own || g.n == 1 {
      forall t: nat, p: nat {:trigger Covers(g, t, p)} | t < g.n && Covers(g, t, p) ensures p < g.size {
        StartsEarly(t, g.n, g.step, g.own);
        SliceInsideIff(g, top, t);
      }
    } else {
      StartsLate(g.n, g.step, g.own);
      SliceInsideIff(g, top, g.n - 1);
    }
  }

  // --- What is left at the end ---------------------------------------------------------

  /** With the table's own step, or one slice only, every entry keeps the slot it was written to. */
  lemma {:induction false} EntryStays(g: Slicing, i: nat, jx: seq<nat>, m: nat)
    requires OwnSlots(g) && (g.step == g.own || g.n == 1) && i < m <= g.n && InBox(jx, g.sizes)
    ensures LastWrite(g, m, i * g.own + Dot(jx, g.rest)) == Some(Entry(i, jx))
    decreases m
  {
    var p := i * g.own + Dot(jx, g.rest);
    SameStart(i, g.n, g.step, g.own);
    SameStart(m - 1, g.n, g.step, g.own);
    if Covers(g, m - 1, p) {
      var e := LastWrite(g, m, p);
      assert e.value.slice == m - 1;
      assert SameSlot(g, i, jx, m - 1, e.value.jx);
    } else {
      assert i == m - 1 ==> EntryAt(g, m - 1, jx, p);
      EntryStays(g, i, jx, m - 1);
    }
  }

  lemma {:induction false} SameStart(t: nat, n: nat, s: nat, own: nat)
    requires t < n && (s == own || n == 1)
    ensures t * s == t * own
  {
  }

  /** Slices that are closer together never reach the last slot. */
  lemma {:induction false} LastSlotFree(g: Slicing, top: seq<nat>, m: nat)
    requires Fills(g, top) && g.n > 1 && g.step < g.own && m <= g.n
    ensures LastWrite(g, m, g.size - 1) == None
    decreases m
  {
    if m > 0 {
      MulMonotone(m - 1, g.n - 1, g.step);
      StartsLate(g.n, g.own, g.step);
      LastSlotFree(g, top, m - 1);
    }
  }
}
