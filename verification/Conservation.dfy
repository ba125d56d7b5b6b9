/** Where pages go over any run of calls on address spaces (vm.c). */
module Conservation {
  import opened Paging
  import opened AddressSpace

  /** The calls: growing directory d from page a to b, shrinking it, freeing it, a new directory with
      k kernel tables, and a copy of n pages with one. */
  datatype Call = Grow(d: nat, a: nat, b: nat) | Shrink(d: nat) | Discard(d: nat) | Setup(k: nat) | Copy(k: nat, n: nat)

  /** The call runs out of memory when it needs a page for a page table. */
  predicate RunsShort(m: Mem, c: Call)
    requires Inv(m)
  {
    match c
    case Grow(d, a, b) => d < |m.pages| && Loses(m, d, a, b)
    case Shrink(_) => false
    case Discard(_) => false
    case Setup(k) => 0 < |m.free| <= k
    case Copy(k, n) => ShortOfTable(|m.free|, k, n)
  }

  /** Page f was free and is held by nobody. */
  predicate Lost(m: Mem, m': Mem, f: nat)
  {
    f < |m.role| && f < |m'.role| && m.role[f] == Avail && m'.role[f] == Held
  }

  predicate StaysOut(m: Mem, m': Mem, f: nat)
    requires f < |m.role| == |m'.role|
  {
    && (m.role[f] == Held ==> m'.role[f] == Held)
    && (m'.role[f] == Held && m.role[f] != Held ==> m.role[f] == Avail)
    && (m.role[f] == Reserved <==> m'.role[f] == Reserved)
  }

  /** What a call does to the pages outside free list and directories: those stay, and one is added
      exactly if the call runs short. */
  ghost predicate Step(m: Mem, m': Mem, c: Call)
  {
    && Inv(m) && Inv(m') && |m'.role| == |m.role|
    && (forall f: nat :: f < |m.role| ==> StaysOut(m, m', f))
    && ((exists f: nat :: Lost(m, m', f)) <==> RunsShort(m, c))
  }

  lemma GrowStep(m: Mem, m': Mem, d: nat, a: nat, b: nat, x: int)
    requires Inv(m) && Inv(m') && IsDir(m, d) && IsDir(m', d) && Accounted(m, m', d, x)
      && (x != -1 <==> Loses(m, d, a, b))
    ensures Step(m, m', Grow(d, a, b))
  {
    forall f: nat | f < |m.role| ensures StaysOut(m, m', f) && (Lost(m, m', f) ==> f == x) {
      assert f != x ==> NewFor(m, m', d, f); }
    if x != -1 { assert Lost(m, m', x); }
  }

  lemma ShrinkStep(m: Mem, m': Mem, d: nat, s: set<nat>)
    requires Inv(m) && Inv(m') && Freed(m, m', d, s)
    ensures Step(m, m', Shrink(d))
  {
    forall f: nat | f < |m.role| ensures StaysOut(m, m', f) && !Lost(m, m', f) { assert FreedFrame(m, m', d, s, f); }
  }

  lemma SameStep(m: Mem, d: nat)
    requires Inv(m)
    ensures Step(m, m, Shrink(d))
  {
    forall f: nat | f < |m.role| ensures StaysOut(m, m, f) && !Lost(m, m, f) {}
  }

  lemma DiscardStep(m: Mem, m': Mem, d: nat)
    requires Inv(m) && Inv(m') && IsDir(m, d) && Gone(m, m', d)
    ensures Step(m, m', Discard(d))
  {
    forall f: nat | f < |m.role| ensures StaysOut(m, m', f) && !Lost(m, m', f) { assert GoneFrame(m, m', d, f); }
  }

  lemma SetupStep(m: Mem, m': Mem, d: int, k: nat)
    requires Inv(m) && Inv(m') && (d == -1 <==> |m.free| <= k)
    requires if d == -1 then Drained(m, m') else d >= 0 && IsDir(m', d) && NewOnly(m, m', d, -1)
    ensures Step(m, m', Setup(k))
  {
    if d == -1 {
      forall f: nat | f < |m.role| ensures StaysOut(m, m', f) {}
      if m.free != [] { assert m.free[0] in m.free && Lost(m, m', m.free[0]); }
      forall f: nat | Lost(m, m', f) ensures m.free != [] { assert f in m.free; }
    } else {
      forall f: nat | f < |m.role| ensures StaysOut(m, m', f) && !Lost(m, m', f) { assert NewFor(m, m', d, f); }
    }
  }

  lemma CopyStep(m: Mem, m': Mem, nd: int, k: nat, n: nat)
    requires Inv(m) && Inv(m') && |m'.role| == |m.role|
    requires if nd == -1 then OnlyLost(m, m') && (m'.role == m.role <==> !ShortOfTable(|m.free|, k, n))
             else nd >= 0 && IsDir(m', nd) && NewOnly(m, m', nd, -1) && !ShortOfTable(|m.free|, k, n)
    ensures Step(m, m', Copy(k, n))
  {
    if nd == -1 {
      forall f: nat | f < |m.role| ensures StaysOut(m, m', f) { assert SameOrLost(m, m', f); }
      if forall f: nat :: !Lost(m, m', f) {
        forall f: nat | f < |m.role| ensures m'.role[f] == m.role[f] { assert SameOrLost(m, m', f) && !Lost(m, m', f); }
        assert m'.role == m.role;
      } else {
        var f: nat :| Lost(m, m', f);
        assert m'.role[f] != m.role[f];
      }
    } else {
      forall f: nat | f < |m.role| ensures StaysOut(m, m', f) && !Lost(m, m', f) { assert NewFor(m, m', nd, f); }
    }
  }

  // ---------- runs ----------

  predicate NoneHeld(m: Mem)
  {
    forall f: nat :: f < |m.role| ==> m.role[f] != Held
  }

  /** The pages in somebody's hand: kernel stacks, pipes, and those lost. */
  function HeldPages(m: Mem): set<nat>
  {
    set f: nat | f < |m.role| && m.role[f] == Held
  }

  /** ms are the states before, between and after the calls cs. */
  ghost predicate Run(ms: seq<Mem>, cs: seq<Call>)
  {
    && |ms| == |cs| + 1 && Inv(ms[0])
    && (forall i: nat :: i < |cs| ==> Step(ms[i], ms[i + 1], cs[i]))
  }

  lemma RunShape(ms: seq<Mem>, cs: seq<Call>, i: nat)
    requires Run(ms, cs) && i < |ms|
    ensures Inv(ms[i])
  {
    if i > 0 { var k := i - 1; assert Step(ms[k], ms[k + 1], cs[k]); }
  }

  /** A page held by nobody stays so: none of the calls can free it. */
  lemma {:induction false} LostForGood(ms: seq<Mem>, cs: seq<Call>, i: nat, j: nat, f: nat)
    requires Run(ms, cs) && i <= j < |ms| && f < |ms[i].role| && ms[i].role[f] == Held
    ensures f < |ms[j].role| && ms[j].role[f] == Held
    decreases j - i
  {
    if i < j {
      assert Step(ms[i], ms[i + 1], cs[i]) && StaysOut(ms[i], ms[i + 1], f);
      LostForGood(ms, cs, i + 1, j, f);
    }
  }

  predicate NeverShort(ms: seq<Mem>, cs: seq<Call>, n: nat)
    requires n <= |cs| && n <= |ms| && forall i: nat :: i < n ==> Inv(ms[i])
  {
    forall i: nat :: i < n ==> !RunsShort(ms[i], cs[i])
  }

  lemma {:induction false} SameHeld(ms: seq<Mem>, cs: seq<Call>, n: nat)
    requires Run(ms, cs) && n <= |cs|
    requires forall i: nat :: i < n ==> Inv(ms[i])
    requires NeverShort(ms, cs, n)
    ensures HeldPages(ms[n]) == HeldPages(ms[0])
  {
    if n > 0 {
      var k := n - 1;
      SameHeld(ms, cs, k);
      assert Step(ms[k], ms[k + 1], cs[k]) && !RunsShort(ms[k], cs[k]);
      forall f: nat ensures f in HeldPages(ms[n]) <==> f in HeldPages(ms[k]) {
        if f < |ms[n].role| { assert StaysOut(ms[k], ms[n], f) && !Lost(ms[k], ms[n], f); }
      }
    }
  }

  /** Before a call that loses page f, f was in nobody's hand since the start. */
  lemma {:induction false} NotHeldBefore(ms: seq<Mem>, cs: seq<Call>, i: nat, f: nat)
    requires Run(ms, cs) && i < |ms| && f < |ms[i].role| && ms[i].role[f] != Held
    ensures f !in HeldPages(ms[0])
  {
    if f in HeldPages(ms[0]) { LostForGood(ms, cs, 0, i, f); }
  }

  /** Over any run the pages held stay held, and they are the same at the end as at the start exactly
      if no call ran out of memory at a page table. */
  lemma Conserved(ms: seq<Mem>, cs: seq<Call>)
    requires Run(ms, cs)
    ensures forall i: nat :: i < |ms| ==> Inv(ms[i])
    ensures HeldPages(ms[0]) <= HeldPages(ms[|cs|])
    ensures HeldPages(ms[|cs|]) == HeldPages(ms[0]) <==> NeverShort(ms, cs, |cs|)
  {
    forall i: nat | i < |ms| ensures Inv(ms[i]) { RunShape(ms, cs, i); }
    forall f | f in HeldPages(ms[0]) ensures f in HeldPages(ms[|cs|]) { LostForGood(ms, cs, 0, |cs|, f); }
    if NeverShort(ms, cs, |cs|) {
      SameHeld(ms, cs, |cs|);
    } else {
      var i: nat :| i < |cs| && RunsShort(ms[i], cs[i]);
      assert Step(ms[i], ms[i + 1], cs[i]);
      var f: nat :| Lost(ms[i], ms[i + 1], f);
      NotHeldBefore(ms, cs, i, f);
      LostForGood(ms, cs, i + 1, |cs|, f);
      assert f in HeldPages(ms[|cs|]);
    }
  }

  lemma {:induction false} ReservedStays(ms: seq<Mem>, cs: seq<Call>, i: nat, f: nat)
    requires Run(ms, cs) && i < |ms| && f < |ms[0].role|
    ensures f < |ms[i].role| && (ms[i].role[f] == Reserved <==> ms[0].role[f] == Reserved)
  {
    if i > 0 {
      var k := i - 1;
      ReservedStays(ms, cs, k, f);
      assert Step(ms[k], ms[k + 1], cs[k]) && StaysOut(ms[k], ms[i], f);
    }
  }

  /** And then, in every state of the run, each page that the allocator manages and nobody held at the
      start is on the free list, or a directory, or in one place of one directory. */
  lemma Partitioned(ms: seq<Mem>, cs: seq<Call>, i: nat, f: nat) returns (u: Use)
    requires Run(ms, cs) && i < |ms| && f < |ms[0].role| && ms[0].role[f] != Reserved && ms[0].role[f] != Held
    requires forall k: nat :: k < |ms| ==> Inv(ms[k])
    requires NeverShort(ms, cs, |cs|)
    ensures Inv(ms[i]) && Uses(ms[i], f, u) && forall w: Use :: Uses(ms[i], f, w) ==> w == u
  {
    SameHeld(ms, cs, i);
    assert f !in HeldPages(ms[0]);
    ReservedStays(ms, cs, i, f);
    u := SomeUse(ms[i], f);
    forall w: Use | Uses(ms[i], f, w) ensures w == u { OneUse(ms[i], f, w, u); }
  }
}
