/** What growing, shrinking, copying and freeing an address space do to memory (vm.c). */
module AddressSpace {
  import opened Paging

  const KERNBASE := 0x8000_0000

  function Junk(n: nat): (p: Page)
    ensures |p| == n
  {
    if n == 0 then [] else Junk(n - 1) + [0x0101_0101]
  }

  /** Pages needed for a size: PGROUNDUP, as a page number. */
  function PgUp(size: nat): nat { (size + PGSIZE - 1) / PGSIZE }

  /** User pages and pages in hand, other than x, keep their role and contents. */
  predicate Keeps(m: Mem, m': Mem, x: int)
    requires Shape(m)
  {
    && |m'.pages| == |m.pages| && |m'.role| == |m.role|
    && (forall f: nat :: f < |m.role| && f != x && (m.role[f].UserOf? || m.role[f] == Held) ==> Kept(m, m', f))
  }

  /** The page belongs to directory d: itself, one of its tables, or one of its user pages. */
  predicate Owned(m: Mem, d: nat, f: nat)
    requires f < |m.role|
  {
    f == d || (m.role[f].TableOf? && m.role[f].d == d) || (m.role[f].UserOf? && m.role[f].d == d)
  }

  /** Apart from x, pages change role only from free to belonging to d. */
  predicate NewOnly(m: Mem, m': Mem, d: nat, x: int)
  {
    |m'.role| == |m.role| && forall f: nat :: f < |m.role| && f != x ==> NewFor(m, m', d, f)
  }

  predicate NewFor(m: Mem, m': Mem, d: nat, f: nat)
    requires f < |m.role| == |m'.role|
  {
    m'.role[f] == m.role[f] || (m.role[f] == Avail && Owned(m', d, f))
  }

  /** Pages change role only from free to belonging to d; page x, if it is one, from free to held by nobody. */
  predicate Accounted(m: Mem, m': Mem, d: nat, x: int)
  {
    && NewOnly(m, m', d, x)
    && (x != -1 ==> 0 <= x < |m.role| && m.role[x] == Avail && m'.role[x] == Held)
  }

  predicate Kept(m: Mem, m': Mem, f: nat)
    requires f < |m.role| == |m.pages| && f < |m'.role| && f < |m'.pages|
  {
    m'.role[f] == m.role[f] && m'.pages[f] == m.pages[f]
  }

  // ---------- freeing ----------

  /** b - 1 down to a. */
  function Downto(a: nat, b: nat): seq<nat>
    decreases b
  {
    if b <= a then [] else [b - 1] + Downto(a, b - 1)
  }

  lemma DowntoNone(a: nat)
    ensures Downto(a, a) == []
  {
  }

  lemma DowntoNext(a: nat, b: nat, rest: seq<nat>)
    requires a <= b
    ensures Downto(a, b + 1) + rest == [b] + (Downto(a, b) + rest)
  {
  }

  lemma DowntoEnd(a: nat, n: nat, b: nat)
    requires a <= n && (n == b || (n == a && b <= a))
    ensures Downto(a, n) == Downto(a, b)
  {
  }

  /** The user pages deallocuvm looks at from a to b: page by page, but a whole table's worth
      further on from a page that has no table. */
  function Visits(m: Mem, d: nat, a: nat, b: nat): set<nat>
    requires Shape(m) && d < |m.pages| && b <= NVPN
    decreases b - a
  {
    if a >= b then {}
    else if HasTable(m, d, a / NENT) then {a} + Visits(m, d, a + 1, b)
    else Visits(m, d, a + NENT, b)
  }

  lemma {:induction false} VisitsFrom(m: Mem, d: nat, a: nat, b: nat, v: nat)
    requires Shape(m) && d < |m.pages| && b <= NVPN && v in Visits(m, d, a, b)
    ensures a <= v < b && HasTable(m, d, v / NENT)
    decreases b - a
  {
    if HasTable(m, d, a / NENT) {
      if v != a { VisitsFrom(m, d, a + 1, b, v); }
    } else {
      VisitsFrom(m, d, a + NENT, b, v);
    }
  }

  /** From the start of a table, or inside one that exists, nothing with a table is skipped. */
  lemma {:induction false} VisitsAligned(m: Mem, d: nat, a: nat, b: nat, v: nat)
    requires Shape(m) && d < |m.pages| && b <= NVPN && a <= v < b && HasTable(m, d, v / NENT)
    requires a % NENT == 0 || HasTable(m, d, a / NENT)
    ensures v in Visits(m, d, a, b)
    decreases b - a
  {
    if HasTable(m, d, a / NENT) {
      if v != a { VisitsAligned(m, d, a + 1, b, v); }
    } else {
      VisitsAligned(m, d, a + NENT, b, v);
    }
  }

  /** The first directory entry from i on with a table. */
  function FirstTable(m: Mem, d: nat, i: nat): nat
    requires Shape(m) && d < |m.pages|
    decreases NENT - i
  {
    if i >= NENT || HasTable(m, d, i) then i else FirstTable(m, d, i + 1)
  }

  lemma {:induction false} VisitsIff(m: Mem, d: nat, a: nat, b: nat, v: nat)
    requires Shape(m) && d < |m.pages| && b <= NVPN && a <= v < b && HasTable(m, d, v / NENT)
    ensures v in Visits(m, d, a, b) <==> (v / NENT == FirstTable(m, d, a / NENT) ==> v % NENT >= a % NENT)
    decreases b - a
  {
    if HasTable(m, d, a / NENT) {
      VisitsAligned(m, d, a, b, v);
    } else if v >= a + NENT {
      VisitsIff(m, d, a + NENT, b, v);
    } else if v in Visits(m, d, a, b) {
      VisitsFrom(m, d, a + NENT, b, v);
    }
  }

  /** In the first table from a on, no page is mapped at a lower index than a's. */
  predicate Clean(m: Mem, d: nat, a: nat, b: nat)
    requires Shape(m) && d < |m.pages| && b <= NVPN
  {
    forall v: nat :: a <= v < b && Mapped(m, d, v) && v / NENT == FirstTable(m, d, a / NENT) ==> v % NENT >= a % NENT
  }

  /** The skip over a missing table misses no mapped page exactly when the range is clean. */
  lemma SkipIsExact(m: Mem, d: nat, a: nat, b: nat)
    requires Inv(m) && IsDir(m, d) && b <= NVPN
    ensures (forall v: nat :: a <= v < b && Mapped(m, d, v) ==> v in Visits(m, d, a, b)) <==> Clean(m, d, a, b)
  {
    forall v: nat | a <= v < b && Mapped(m, d, v)
      ensures v in Visits(m, d, a, b) <==> (v / NENT == FirstTable(m, d, a / NENT) ==> v % NENT >= a % NENT)
    {
      MappedRole(m, d, v);
      VisitsIff(m, d, a, b, v);
    }
  }

  /** Shrinking to one page when page 1024 is mapped and page 1 has no table: the skip lands on page 1025. */
  lemma SkipMisses(m: Mem, d: nat)
    requires Inv(m) && IsDir(m, d) && !HasTable(m, d, 0) && Mapped(m, d, NENT)
    ensures NENT !in Visits(m, d, 1, 2 * NENT) && !Clean(m, d, 1, 2 * NENT)
  {
    if NENT in Visits(m, d, 1, 2 * NENT) { VisitsFrom(m, d, NENT + 1, 2 * NENT, NENT); }
    SkipIsExact(m, d, 1, 2 * NENT);
  }

  /** Pages mapped from 0 on without a gap: every shrink is clean. */
  lemma ContiguousIsClean(m: Mem, d: nat, n: nat, a: nat, b: nat)
    requires Inv(m) && IsDir(m, d) && b <= NVPN && n <= NVPN && forall v: nat ::
      v < NVPN ==> (Mapped(m, d, v) <==> v < n)
    ensures Clean(m, d, a, b)
  {
    if a < n { MappedRole(m, d, a); }
  }

  function RoleAfter(r: Role, d: nat, s: set<nat>): Role
  {
    if r.UserOf? && r.d == d && r.v in s then Avail else r
  }

  predicate FreedFrame(m: Mem, m': Mem, d: nat, s: set<nat>, f: nat)
    requires f < |m.role| && f < |m'.role| && f < |m.pages| && f < |m'.pages|
  {
    && m'.role[f] == RoleAfter(m.role[f], d, s)
    && (m'.role[f].UserOf? || m'.role[f] == Held || m'.role[f] == DirOf ==> m'.pages[f] == m.pages[f])
  }

  predicate FreedMap(m: Mem, m': Mem, d: nat, s: set<nat>, e: nat, u: nat)
    requires Shape(m) && Shape(m') && |m'.pages| == |m.pages| && e < |m.pages| && u < NVPN
  {
    if e == d && u in s then !Mapped(m', e, u) else SameMap(m, m', e, u)
  }

  /** The user pages of d in s are unmapped and free, and nothing else has changed. */
  predicate Freed(m: Mem, m': Mem, d: nat, s: set<nat>)
    requires Shape(m) && Shape(m')
  {
    && |m'.pages| == |m.pages|
    && (forall f: nat :: f < |m.pages| ==> FreedFrame(m, m', d, s, f))
    && (forall e: nat, u: nat :: e < |m.pages| && u < NVPN ==> FreedMap(m, m', d, s, e, u))
  }

  /** `kfree` of a mapped page, and its entry cleared. */
  function Dropped(m: Mem, d: nat, v: nat, f: nat): Mem
    requires Shape(m) && d < |m.pages| && v < NVPN && 0 <= TableAt(m, d, v) < |m.pages| && f < |m.role|
  {
    Given(PteSet(m, d, v, 0, f, Held), f, Junk(NENT))
  }

  lemma DropKeeps(m: Mem, d: nat, v: nat)
    requires Inv(m) && IsDir(m, d) && v < NVPN && Mapped(m, d, v)
    ensures HasTable(m, d, v / NENT) && 0 <= TableAt(m, d, v) < |m.pages| && 0 <= Frame(m, d, v) < |m.pages|
      && Frame(m, d, v) != TableAt(m, d, v)
    ensures m.role[Frame(m, d, v)] == UserOf(d, v) && m.role[TableAt(m, d, v)] == TableOf(d, v / NENT)
    ensures Inv(Dropped(m, d, v, Frame(m, d, v))) && IsDir(Dropped(m, d, v, Frame(m, d, v)), d)
    ensures !Mapped(Dropped(m, d, v, Frame(m, d, v)), d, v) && ButOne(m, Dropped(m, d, v, Frame(m, d, v)), d, v)
  {
    hide SameMaps, Frames, FreeOk;
    MappedRole(m, d, v);
    var f := Frame(m, d, v);
    SetKeeps(m, d, v, 0, f, Held);
    var m1 := PteSet(m, d, v, 0, f, Held);
    GiveKeeps(m1, f, Junk(NENT));
    var m2 := Given(m1, f, Junk(NENT));
    MapsAfter(m1, m2, d, v);
    forall e: nat, u: nat | e < |m.pages| && u < NVPN && !(e == d && u == v) ensures SameMap(m, m2, e, u) {
      assert SameMap(m, m1, e, u);
      MapsAfter(m1, m2, e, u);
    }
  }

  lemma MapsAfter(m: Mem, m': Mem, d: nat, v: nat)
    requires Shape(m) && Shape(m') && SameMaps(m, m') && d < |m.pages| && v < NVPN
    ensures |m'.pages| == |m.pages| && SameMap(m, m', d, v)
  {
  }

  lemma FreedStep(m: Mem, m1: Mem, d: nat, s: set<nat>, v: nat)
    requires Shape(m) && Inv(m1) && Freed(m, m1, d, s) && IsDir(m, d) && IsDir(m1, d) && v < NVPN && v !in s
      && Mapped(m1, d, v)
    ensures 0 <= TableAt(m1, d, v) < |m1.pages| && 0 <= Frame(m1, d, v) < |m1.pages|
    ensures var m' := Dropped(m1, d, v, Frame(m1, d, v)); Shape(m') && Freed(m, m', d, s + {v})
  {
    DropKeeps(m1, d, v);
    var f := Frame(m1, d, v);
    var m' := Dropped(m1, d, v, f);
    forall g: nat | g < |m.pages| ensures FreedFrame(m, m', d, s + {v}, g) {
      assert FreedFrame(m, m1, d, s, g);
      if g != f { UserOnce(m1, d, v, g); }
    }
    forall e: nat, u: nat | e < |m.pages| && u < NVPN ensures FreedMap(m, m', d, s + {v}, e, u) {
      assert FreedMap(m, m1, d, s, e, u);
      if !(e == d && u == v) { assert SameMap(m1, m', e, u); }
    }
  }

  /** A user page is in one place only. */
  lemma UserOnce(m: Mem, d: nat, v: nat, g: nat)
    requires Inv(m) && IsDir(m, d) && v < NVPN && g < |m.pages| && g != Frame(m, d, v)
    ensures m.role[g] != UserOf(d, v)
  {
    assert FrameOk(m, g);
  }

  predicate GoneFrame(m: Mem, m': Mem, d: nat, f: nat)
    requires f < |m.role| && f < |m'.role| && f < |m.pages| && f < |m'.pages|
  {
    if Owned(m, d, f) then m'.role[f] == Avail
    else m'.role[f] == m.role[f] && (m.role[f].UserOf? || m.role[f] == Held ==> m'.pages[f] == m.pages[f])
  }

  /** Every page of d is free, once each, and no other page has changed role; user pages of others are as they were. */
  predicate Gone(m: Mem, m': Mem, d: nat)
    requires Shape(m) && Shape(m')
  {
    && |m'.pages| == |m.pages|
    && (forall f: nat :: f < |m.pages| ==> GoneFrame(m, m', d, f))
    && (forall e: nat, u: nat :: e < |m.pages| && u < NVPN && e != d ==> SameMap(m, m', e, u))
  }

  /** The tables of d among the pages of ts, and the pages of ts filled with junk on the free list. */
  predicate TablesFreed(m: Mem, m': Mem, d: nat, i: nat, ts: seq<nat>)
    requires Shape(m) && d < |m.pages|
  {
    && m'.role == m.role && m'.free == ts + m.free && NoDup(ts) && |m'.pages| == |m.pages|
    && (forall f :: f in ts ==> f < |m.role| && m.role[f].TableOf? && m.role[f].d == d && m.role[f].i < i)
    && (forall k: nat :: k < i && HasTable(m, d, k) ==> 0 <= Addr(m.pages[d][k]) && Addr(m.pages[d][k]) in ts)
    && (forall f: nat :: f < |m.pages| ==> m'.pages[f] == if f in ts then Junk(NENT) else m.pages[f])
  }

  /** The role of page f after directory d and its tables have been given role r. */
  function DirRole(m: Mem, d: nat, f: nat, r: Role): Role
    requires f < |m.role|
  {
    if f == d || (m.role[f].TableOf? && m.role[f].d == d) then r else m.role[f]
  }

  predicate NoUsers(m: Mem, d: nat)
  {
    forall f: nat :: f < |m.role| ==> !(m.role[f].UserOf? && m.role[f].d == d)
  }

  /** The state after freevm, from the one after its deallocuvm. */
  ghost predicate DirFreed(m: Mem, m': Mem, d: nat, ts: seq<nat>)
    requires Shape(m) && d < |m.pages|
  {
    && |m'.pages| == |m.pages| && |m'.role| == |m.role| && m'.free == [d] + ts + m.free && NoDup(ts)
    && (forall f :: f in ts <==> 0 <= f < |m.role| && m.role[f].TableOf? && m.role[f].d == d)
    && (forall f: nat :: f < |m.pages| ==> m'.role[f] == DirRole(m, d, f, Avail))
    && (forall f: nat :: f < |m.pages| ==> m'.pages[f] == if f in ts || f == d then Junk(NENT) else m.pages[f])
  }

  lemma DirFreedFrame(m: Mem, m': Mem, d: nat, ts: seq<nat>, g: nat)
    requires Inv(m) && IsDir(m, d) && NoUsers(m, d) && DirFreed(m, m', d, ts) && g < |m.pages|
    ensures Shape(m') && FrameOk(m', g)
  {
    assert FrameOk(m, g);
    if m'.role[g] == DirOf {
      forall k: nat | k < NENT ensures PdeOk(m', g, k) { assert PdeOk(m, g, k); }
    }
    if m'.role[g].TableOf? {
      forall j: nat | j < NENT ensures PteOk(m', g, j) { assert PteOk(m, g, j); }
    }
    if m'.role[g].UserOf? {
      var e, v := m.role[g].d, m.role[g].v;
      assert FrameOk(m, e) && PdeOk(m, e, v / NENT);
    }
  }

  lemma DirFreedKeeps(m: Mem, m': Mem, d: nat, ts: seq<nat>)
    requires Inv(m) && IsDir(m, d) && NoUsers(m, d) && DirFreed(m, m', d, ts)
    ensures Inv(m') && Gone(m, m', d)
  {
    assert Shape(m');
    forall g: nat | g < |m.pages| ensures FrameOk(m', g) { DirFreedFrame(m, m', d, ts, g); }
    forall e: nat, u: nat | e < |m.pages| && u < NVPN && e != d ensures SameMap(m, m', e, u) {
      assert FrameOk(m, e);
      if IsDir(m, e) { assert PdeOk(m, e, u / NENT); }
    }
    DirFreeList(m, m', d, ts);
  }

  lemma DirFreeList(m: Mem, m': Mem, d: nat, ts: seq<nat>)
    requires Inv(m) && IsDir(m, d) && DirFreed(m, m', d, ts)
    ensures FreeOk(m')
  {
    var free := m'.free;
    assert forall f :: f in free <==> f == d || f in ts || f in m.free;
    assert d !in ts && d !in m.free;
    forall f | f in ts ensures f !in m.free {}
    NoDupJoin(ts, m.free);
    NoDupJoin([d], ts + m.free);
    assert free == [d] + (ts + m.free);
  }

  lemma NoDupJoin(a: seq<nat>, b: seq<nat>)
    requires NoDup(a) && NoDup(b) && forall x :: x in a ==> x !in b
    ensures NoDup(a + b)
  {
    var c := a + b;
    forall i, j | 0 <= i < j < |c| ensures c[i] != c[j] {
      if i < |a| <= j { assert a[i] in a && b[j - |a|] in b; }
    }
  }

  /** After deallocuvm of the whole user half, d has no user pages left. */
  lemma AllFreed(m: Mem, m': Mem, d: nat)
    requires Inv(m) && Inv(m') && IsDir(m, d) && IsDir(m', d) && Freed(m, m', d, Visits(m, d, 0, NVPN))
    ensures NoUsers(m', d)
  {
    forall f: nat | f < |m'.role| && m'.role[f].UserOf? && m'.role[f].d == d ensures false {
      var v := m'.role[f].v;
      assert FrameOk(m', f) && FreedFrame(m, m', d, Visits(m, d, 0, NVPN), f);
      assert FrameOk(m, f);
      MappedRole(m, d, v);
      VisitsAligned(m, d, 0, NVPN, v);
    }
  }

  lemma GoneFrameAll(m: Mem, m1: Mem, m2: Mem, d: nat, s: set<nat>, f: nat)
    requires f < |m.role| == |m.pages| == |m1.role| == |m1.pages| == |m2.role| == |m2.pages|
    requires FreedFrame(m, m1, d, s, f) && GoneFrame(m1, m2, d, f) && !(m1.role[f].UserOf? && m1.role[f].d == d)
    ensures GoneFrame(m, m2, d, f)
  {
  }

  lemma GoneAll(m: Mem, m1: Mem, m2: Mem, d: nat)
    requires Shape(m) && Shape(m1) && Shape(m2) && IsDir(m, d) && Freed(m, m1, d, Visits(m, d, 0, NVPN))
      && NoUsers(m1, d) && Gone(m1, m2, d)
    ensures Gone(m, m2, d)
  {
    hide Visits;
    var s := Visits(m, d, 0, NVPN);
    forall f: nat | f < |m.pages| ensures GoneFrame(m, m2, d, f) {
      assert FreedFrame(m, m1, d, s, f) && GoneFrame(m1, m2, d, f);
      GoneFrameAll(m, m1, m2, d, s, f);
    }
    forall e: nat, u: nat | e < |m.pages| && u < NVPN && e != d ensures SameMap(m, m2, e, u) {
      assert FreedMap(m, m1, d, s, e, u) && SameMap(m1, m2, e, u);
    }
  }

  // ---------- growing ----------

  function Missing(m: Mem, d: nat, i: nat, j: nat): nat
    requires Shape(m) && d < |m.pages|
    decreases j - i
  {
    if i >= j then 0 else (if HasTable(m, d, i) then 0 else 1) + Missing(m, d, i + 1, j)
  }

  /** Free pages it takes to map pages a to b: themselves and the tables they lack. */
  function Needed(m: Mem, d: nat, a: nat, b: nat): nat
    requires Shape(m) && d < |m.pages|
  {
    if a >= b then 0 else b - a + Missing(m, d, a / NENT, (b - 1) / NENT + 1)
  }

  lemma {:induction false} MissingLast(m: Mem, d: nat, i: nat, j: nat)
    requires Shape(m) && d < |m.pages| && i <= j
    ensures Missing(m, d, i, j + 1) == Missing(m, d, i, j) + if HasTable(m, d, j) then 0 else 1
    decreases j - i
  {
    if i < j { MissingLast(m, d, i + 1, j); }
  }

  /** Growing from page a, page n needs a table: the directory has none, and no page before n needed it. */
  predicate NeedsTable(m: Mem, d: nat, a: nat, n: nat)
    requires Shape(m) && d < |m.pages|
  {
    !HasTable(m, d, n / NENT) && (n == a || n % NENT == 0)
  }

  lemma NeededNext(m: Mem, d: nat, a: nat, n: nat)
    requires Shape(m) && d < |m.pages| && a <= n
    ensures Needed(m, d, a, n + 1) == Needed(m, d, a, n) + 1 + if NeedsTable(m, d, a, n) then 1 else 0
  {
    MissingLast(m, d, a / NENT, n / NENT);
    if a < n && n % NENT == 0 { assert n / NENT == (n - 1) / NENT + 1; }
  }

  lemma {:induction false} NeededMono(m: Mem, d: nat, a: nat, n: nat, b: nat)
    requires Shape(m) && d < |m.pages| && a <= n <= b
    ensures Needed(m, d, a, n) + b - n <= Needed(m, d, a, b)
    decreases b - n
  {
    if n < b {
      NeededNext(m, d, a, n);
      NeededMono(m, d, a, n + 1, b);
    }
  }

  /** The last free page goes to a page that still needs its table. */
  predicate LosesAt(m: Mem, d: nat, a: nat, n: nat)
    requires Shape(m) && d < |m.pages|
  {
    NeedsTable(m, d, a, n) && |m.free| == Needed(m, d, a, n) + 1
  }

  /** Growing from page a to b takes a page it cannot map. */
  predicate Loses(m: Mem, d: nat, a: nat, b: nat)
    requires Shape(m) && d < |m.pages|
  {
    exists n: nat :: a <= n < b && LosesAt(m, d, a, n)
  }

  /** And that is for the last page, so that the loop ends before it finds memory exhausted. */
  predicate LosesLast(m: Mem, d: nat, a: nat, b: nat)
    requires Shape(m) && d < |m.pages|
  {
    a < b && NeedsTable(m, d, a, b - 1) && |m.free| + 1 == Needed(m, d, a, b)
  }

  lemma LossHere(m: Mem, d: nat, a: nat, n: nat, b: nat)
    requires Shape(m) && d < |m.pages| && a <= n < b && LosesAt(m, d, a, n)
    ensures Loses(m, d, a, b) && |m.free| < Needed(m, d, a, b) && (LosesLast(m, d, a, b) <==> n + 1 == b)
  {
    NeededNext(m, d, a, n);
    NeededMono(m, d, a, n + 1, b);
  }

  /** Every page before n was mapped, and then there was no page for n, or n is the end. */
  lemma NoLoss(m: Mem, d: nat, a: nat, n: nat, b: nat)
    requires Shape(m) && d < |m.pages| && a <= n <= b && Needed(m, d, a, n) <= |m.free|
      && (n < b ==> |m.free| == Needed(m, d, a, n))
    ensures !Loses(m, d, a, b) && !LosesLast(m, d, a, b) && (n < b <==> |m.free| < Needed(m, d, a, b))
  {
    NeededMono(m, d, a, n, b);
    if LosesLast(m, d, a, b) {
      NeededNext(m, d, a, b - 1);
    }
    forall k: nat | a <= k < b ensures !LosesAt(m, d, a, k) {
      NeededNext(m, d, a, k);
      if k < n { NeededMono(m, d, a, k + 1, n); } else { NeededMono(m, d, a, n, k); }
    }
  }

  /** One free page, and a directory without tables grown by one page: success is reported. */
  lemma OnePageLies(m: Mem, d: nat)
    requires Shape(m) && d < |m.pages| && |m.free| == 1 && !HasTable(m, d, 0)
    ensures LosesLast(m, d, 0, 1) && Loses(m, d, 0, 1)
  {
    LossHere(m, d, 0, 0, 1);
  }

  /** Directory d has the tables it had and those of pages a to n. */
  predicate TablesFrom(m: Mem, m': Mem, d: nat, a: nat, n: nat)
    requires Shape(m) && Shape(m') && d < |m.pages| == |m'.pages|
  {
    forall k: nat ::
      k < NENT ==> (HasTable(m', d, k) <==> HasTable(m, d, k) || (a < n && a / NENT <= k <= (n - 1) / NENT))
  }

  lemma TablesFromNone(m: Mem, d: nat, a: nat)
    requires Shape(m) && d < |m.pages|
    ensures TablesFrom(m, m, d, a, a) && Needed(m, d, a, a) == 0
  {
  }

  lemma TablesFromMore(m: Mem, m1: Mem, m': Mem, d: nat, a: nat, n: nat)
    requires Shape(m) && Shape(m1) && Shape(m') && d < |m.pages| == |m1.pages| == |m'.pages| && a <= n < NVPN
    requires TablesFrom(m, m1, d, a, n) && WithTable(m1, m', d, n / NENT)
    ensures TablesFrom(m, m', d, a, n + 1)
  {
    forall k: nat | k < NENT ensures HasTable(m', d, k) <==> HasTable(m, d, k) || a / NENT <= k <= n / NENT {
      assert HasTable(m', d, k) <==> HasTable(m1, d, k) || k == n / NENT;
      if a < n && k < n / NENT { assert k <= (n - 1) / NENT; }
    }
  }

  lemma TableLacks(m: Mem, m': Mem, d: nat, a: nat, n: nat)
    requires Shape(m) && Shape(m') && d < |m.pages| == |m'.pages| && a <= n < NVPN && TablesFrom(m, m', d, a, n)
    ensures HasTable(m', d, n / NENT) <==> !NeedsTable(m, d, a, n)
  {
    assert n / NENT < NENT;
    if a < n && n % NENT != 0 { assert (n - 1) / NENT == n / NENT; }
    if a < n && n % NENT == 0 { assert (n - 1) / NENT < n / NENT; }
  }

  predicate GrownMap(m: Mem, m': Mem, d: nat, a: nat, k: nat, e: nat, u: nat)
    requires Shape(m) && Shape(m') && |m'.pages| == |m.pages| && e < |m.pages| && u < NVPN
  {
    if e == d && a <= u < k then
      && Mapped(m', d, u) && Usable(m', d, u)
      && 0 <= Frame(m', d, u) < |m'.pages| && m'.pages[Frame(m', d, u)] == Blank(NENT)
    else SameMap(m, m', e, u)
  }

  /** Pages a to k of d are mapped to zeroed pages, and everything else as before. */
  predicate Grown(m: Mem, m': Mem, d: nat, a: nat, k: nat)
    requires Shape(m) && Shape(m')
  {
    |m'.pages| == |m.pages| && forall e: nat, u: nat :: e < |m.pages| && u < NVPN ==> GrownMap(m, m', d, a, k, e, u)
  }

  /** User page v of d is mapped to a page, free before, with contents p; everything else as before. */
  predicate Placed(m: Mem, m': Mem, d: nat, v: nat, p: Page)
    requires Shape(m) && Shape(m') && d < |m.pages| && v < NVPN
  {
    && ButOne(m, m', d, v) && IsDir(m', d) && Mapped(m', d, v) && Usable(m', d, v) && 0 <= Frame(m', d, v) < |m.role|
    && m.role[Frame(m', d, v)] == Avail && m'.pages[Frame(m', d, v)] == p
  }

  predicate SameView(m: Mem, m': Mem, e: nat, u: nat)
    requires Shape(m) && Shape(m') && |m'.pages| == |m.pages| && e < |m.pages| && u < NVPN
  {
    IsDir(m, e) ==>
      IsDir(m', e) && (Mapped(m', e, u) <==> Mapped(m, e, u)) && (Mapped(m, e, u) ==> Pte(m', e, u) == Pte(m, e, u))
  }

  /** Every directory maps what it did. */
  predicate Restored(m: Mem, m': Mem)
    requires Shape(m) && Shape(m')
  {
    |m'.pages| == |m.pages| && forall e: nat, u: nat :: e < |m.pages| && u < NVPN ==> SameView(m, m', e, u)
  }

  /** Freeing what was grown restores every mapping and keeps every page of before. */
  lemma ShrinkBack(m: Mem, m1: Mem, m2: Mem, d: nat, a: nat, k: nat, b: nat)
    requires Inv(m) && Inv(m1) && Inv(m2) && IsDir(m, d) && IsDir(m1, d) && a <= k <= b <= NVPN
    requires Grown(m, m1, d, a, k) && Keeps(m, m1, -1) && Freed(m1, m2, d, Visits(m1, d, a, b))
    requires forall v: nat :: a <= v < b ==> !Mapped(m, d, v)
    ensures Restored(m, m2) && Keeps(m, m2, -1)
  {
    var s := Visits(m1, d, a, b);
    forall e: nat, u: nat | e < |m.pages| && u < NVPN ensures SameView(m, m2, e, u) {
      assert GrownMap(m, m1, d, a, k, e, u) && FreedMap(m1, m2, d, s, e, u) && FreedFrame(m1, m2, d, s, e);
      if e == d && u in s { VisitsFrom(m1, d, a, b, u); }
      if e == d && a <= u < k {
        assert GrownMap(m, m1, d, a, k, d, a);
        MappedRole(m1, d, a);
        MappedRole(m1, d, u);
        VisitsAligned(m1, d, a, b, u);
      }
    }
    forall f: nat | f < |m.role| && (m.role[f].UserOf? || m.role[f] == Held) ensures Kept(m, m2, f) {
      assert Kept(m, m1, f) && FreedFrame(m1, m2, d, s, f) && FrameOk(m, f);
      if m.role[f].UserOf? && m.role[f].d == d && m.role[f].v in s { VisitsFrom(m1, d, a, b, m.role[f].v); }
    }
  }

  lemma ShrinkNew(m: Mem, m1: Mem, m2: Mem, d: nat, a: nat, b: nat, x: int)
    requires Inv(m) && Inv(m1) && Inv(m2) && IsDir(m, d) && b <= NVPN && Accounted(m, m1, d, x)
      && Freed(m1, m2, d, Visits(m1, d, a, b))
    requires forall v: nat :: a <= v < b ==> !Mapped(m, d, v)
    ensures Accounted(m, m2, d, x)
  {
    var s := Visits(m1, d, a, b);
    forall f: nat | f < |m.role| && f != x ensures NewFor(m, m2, d, f) {
      assert NewFor(m, m1, d, f) && FreedFrame(m1, m2, d, s, f) && FrameOk(m, f);
      if m.role[f].UserOf? && m.role[f].d == d && m.role[f].v in s { VisitsFrom(m1, d, a, b, m.role[f].v); }
    }
    if x != -1 { assert FreedFrame(m1, m2, d, s, x); }
  }

  /** One more entry of the directory: its table is another page than those freed so far. */
  lemma TableFree(m: Mem, m': Mem, d: nat, i: nat, ts: seq<nat>)
    requires Inv(m) && IsDir(m, d) && i < NENT && TablesFreed(m, m', d, i, ts)
    ensures d < |m'.pages| && m'.pages[d] == m.pages[d]
    ensures !HasTable(m, d, i) ==> TablesFreed(m, m', d, i + 1, ts)
    ensures HasTable(m, d, i) ==>
      |m'.pages| == |m.role| && 0 <= Addr(m.pages[d][i]) < |m.role| && m.role[Addr(m.pages[d][i])] == TableOf(d, i)
      && Addr(m.pages[d][i]) !in ts
  {
    assert FrameOk(m, d) && PdeOk(m, d, i);
  }

  lemma NoTableFreed(m: Mem, d: nat)
    requires Shape(m) && d < |m.pages|
    ensures TablesFreed(m, m, d, 0, [])
  {
    assert [] + m.free == m.free;
  }

  lemma TableFreed(m: Mem, m1: Mem, d: nat, i: nat, ts: seq<nat>, t: nat)
    requires Inv(m) && IsDir(m, d) && i < NENT && TablesFreed(m, m1, d, i, ts) && HasTable(m, d, i)
    requires t == Addr(m.pages[d][i]) && t < |m.role| && m.role[t] == TableOf(d, i) && t !in ts
    ensures TablesFreed(m, m1.(pages := m1.pages[t := Junk(NENT)], free := [t] + m1.free), d, i + 1, [t] + ts)
  {
    assert [t] + (ts + m.free) == ([t] + ts) + m.free;
    NoDupJoin([t], ts);
  }

  function DirRoles(m: Mem, d: nat, n: nat, r: Role): (rs: seq<Role>)
    requires n <= |m.role|
    ensures |rs| == n && forall f :: 0 <= f < n ==> rs[f] == DirRole(m, d, f, r)
  {
    if n == 0 then [] else DirRoles(m, d, n - 1, r) + [DirRole(m, d, n - 1, r)]
  }

  lemma DirIsFreed(m: Mem, m2: Mem, m': Mem, d: nat, ts: seq<nat>)
    requires Inv(m) && IsDir(m, d) && TablesFreed(m, m2, d, NENT, ts)
    requires m'.pages == m2.pages[d := Junk(NENT)] && m'.free == [d] + m2.free
      && m'.role == DirRoles(m, d, |m.role|, Avail)
    ensures DirFreed(m, m', d, ts)
  {
    forall f: nat | f < |m.role| && m.role[f].TableOf? && m.role[f].d == d ensures f in ts {
      assert FrameOk(m, f);
      assert HasTable(m, d, m.role[f].i);
    }
    assert [d] + (ts + m.free) == [d] + ts + m.free;
  }

  lemma PgUpMono(a: nat, b: nat)
    requires a <= b
    ensures PgUp(a) <= PgUp(b)
  {
  }

  lemma GrownNone(m: Mem, d: nat, a: nat)
    requires Shape(m)
    ensures Grown(m, m, d, a, a)
  {
  }

  lemma NotYet(m: Mem, m': Mem, d: nat, a: nat, k: nat, n: nat)
    requires Shape(m) && Shape(m') && Grown(m, m', d, a, k) && k <= n < NVPN && IsDir(m, d) && !Mapped(m, d, n)
    ensures IsDir(m', d) && !Mapped(m', d, n)
  {
    assert GrownMap(m, m', d, a, k, d, n);
  }

  lemma KeepsTrans(a: Mem, b: Mem, c: Mem)
    requires Shape(a) && Shape(b) && Keeps(a, b, -1) && Keeps(b, c, -1)
    ensures Keeps(a, c, -1)
  {
    forall f: nat | f < |a.role| && (a.role[f].UserOf? || a.role[f] == Held)
      ensures Kept(a, c, f) { assert Kept(a, b, f) && Kept(b, c, f); }
  }

  lemma GrownMore(m: Mem, m1: Mem, m': Mem, d: nat, a: nat, n: nat)
    requires Shape(m) && Inv(m1) && Shape(m') && Grown(m, m1, d, a, n) && a <= n < NVPN && IsDir(m, d) && IsDir(m1, d)
      && Placed(m1, m', d, n, Blank(NENT)) && Keeps(m1, m', -1)
    ensures Grown(m, m', d, a, n + 1)
  {
    var k := n + 1;
    forall e: nat, u: nat | e < |m.pages| && u < NVPN ensures GrownMap(m, m', d, a, k, e, u) {
      assert GrownMap(m, m1, d, a, n, e, u) && (!(e == d && u == n) ==> SameMap(m1, m', e, u));
      if e == d && a <= u < n {
        MappedRole(m1, d, u);
        assert Kept(m1, m', Frame(m1, d, u));
      }
    }
  }

  lemma GrownSame(m: Mem, m1: Mem, m': Mem, d: nat, a: nat, k: nat)
    requires Shape(m) && Inv(m1) && Shape(m') && Grown(m, m1, d, a, k) && SameMaps(m1, m') && Keeps(m1, m', -1)
      && IsDir(m, d) && IsDir(m1, d)
    ensures Grown(m, m', d, a, k)
  {
    forall e: nat, u: nat | e < |m.pages| && u < NVPN ensures GrownMap(m, m', d, a, k, e, u) {
      assert GrownMap(m, m1, d, a, k, e, u) && SameMap(m1, m', e, u);
      if e == d && a <= u < k {
        MappedRole(m1, d, u);
        assert Kept(m1, m', Frame(m1, d, u));
      }
    }
  }

  /** A page just taken and filled. */
  lemma Filled(m: Mem, m1: Mem, m2: Mem, d: nat, v: nat, f: nat, p: Page)
    requires Inv(m) && Inv(m1) && m.free != [] && m.free[0] == f < |m.role| && m.role[f] == Avail && m1 == Taken(m)
      && SameMaps(m, m1)
    requires m2 == m1.(pages := m1.pages[f := p]) && IsDir(m, d) && v < NVPN && |p| == NENT
    ensures Inv(m2) && SameMaps(m, m2) && IsDir(m2, d) && Keeps(m, m2, -1) && Pte(m2, d, v) == Pte(m, d, v)
      && m2.role[f] == Held
    ensures HasTable(m2, d, v / NENT) <==> HasTable(m, d, v / NENT)
    ensures forall i :: 0 <= i < NENT ==> m2.pages[d][i] == m.pages[d][i]
    ensures |m2.role| == |m.role| && forall g: nat :: g < |m.role| && g != f ==> m2.role[g] == m.role[g]
  {
    LeafKeeps(m1, f, p, Held);
    assert m2 == SetRole(SetPage(m1, f, p), f, Held);
    assert FreeOk(m2);
    SameMapsTrans(m, m1, m2);
    assert SameMap(m, m2, d, v);
  }

  lemma AfterPut(m: Mem, m2: Mem, m': Mem, d: nat, v: nat, f: nat, p: Page, ok: bool)
    requires Inv(m) && Inv(m2) && Inv(m') && SameMaps(m, m2) && Keeps(m, m2, -1) && Keeps(m2, m', f) && IsDir(m, d)
      && IsDir(m2, d) && v < NVPN
    requires f < |m.role| && m.role[f] == Avail && m2.pages[f] == p && m'.pages[f] == p && NewOnly(m2, m', d, f)
    requires forall i :: 0 <= i < NENT ==> m2.pages[d][i] == m.pages[d][i]
    requires |m2.role| == |m.role| && forall g: nat :: g < |m.role| && g != f ==> m2.role[g] == m.role[g]
    requires !ok ==> m' == m2
    requires ok ==>
      && Pte(m', d, v) == Mk(f, PERM) && ButOne(m2, m', d, v) && WithTable(m2, m', d, v / NENT)
      && m'.role[f] == UserOf(d, v)
    ensures Keeps(m, m', -1) && (!ok ==> SameMaps(m, m'))
    ensures ok ==> Placed(m, m', d, v, p) && WithTable(m, m', d, v / NENT) && NewOnly(m, m', d, -1)
    ensures !ok ==> NewOnly(m, m', d, f)
  {
    forall g: nat | g < |m.role| && (m.role[g].UserOf? || m.role[g] == Held)
      ensures Kept(m, m', g) { assert Kept(m, m2, g) && Kept(m2, m', g); }
    if ok {
      MkIs(f, PERM);
      assert NewFor(m2, m', d, d);
      forall e: nat, u: nat | e < |m.pages| && u < NVPN && !(e == d && u == v)
        ensures SameMap(m, m', e, u) { assert SameMap(m, m2, e, u) && SameMap(m2, m', e, u); }
      forall k: nat | k < NENT ensures HasTable(m', d, k) <==>
        HasTable(m, d, k) || k == v / NENT { assert m2.pages[d][k] == m.pages[d][k]; }
      forall g: nat | g < |m.role| ensures NewFor(m, m', d, g) { if g != f { assert NewFor(m2, m', d, g); } }
    }
  }

  /** Page n begins below size exactly when it is among the pages the size needs. */
  lemma PgUpBelow(size: nat)
    requires size <= KERNBASE
    ensures PgUp(size) <= NVPN && forall n: nat :: n * PGSIZE < size <==> n < PgUp(size)
  {
  }

  lemma FreedNone(m: Mem, d: nat)
    requires Shape(m)
    ensures Freed(m, m, d, {})
  {
  }

  lemma SameTables(m: Mem, m': Mem, d: nat, s: set<nat>, i: nat)
    requires Shape(m) && Shape(m') && Freed(m, m', d, s) && IsDir(m, d)
    ensures d < |m'.pages| && IsDir(m', d) && (HasTable(m', d, i) <==> HasTable(m, d, i))
  {
    assert FreedFrame(m, m', d, s, d);
  }

  /** A page looked at and found unmapped counts as freed. */
  lemma FreedAlready(m: Mem, m': Mem, d: nat, s: set<nat>, v: nat)
    requires Inv(m) && Inv(m') && Freed(m, m', d, s) && IsDir(m, d) && IsDir(m', d) && v < NVPN && v !in s
      && HasTable(m', d, v / NENT)
    ensures 0 <= TableAt(m', d, v) < |m'.pages| && Pte(m', d, v) == m'.pages[TableAt(m', d, v)][v % NENT]
    ensures !Mapped(m', d, v) ==> Freed(m, m', d, s + {v})
  {
    MappedRole(m', d, v);
    if !Mapped(m', d, v) {
      assert FreedMap(m, m', d, s, d, v);
      forall f: nat | f < |m.pages| ensures FreedFrame(m, m', d, s + {v}, f) {
        assert FreedFrame(m, m', d, s, f) && FrameOk(m, f);
      }
      forall e: nat, u: nat | e < |m.pages| && u < NVPN
        ensures FreedMap(m, m', d, s + {v}, e, u) { assert FreedMap(m, m', d, s, e, u); }
    }
  }

  lemma SameSize(m: Mem, m': Mem, x: int)
    requires Shape(m) && Keeps(m, m', x)
    ensures |m'.pages| == |m.pages| && |m'.role| == |m.role|
  {
  }

  lemma NewRefl(m: Mem, d: nat, x: int)
    ensures NewOnly(m, m, d, x)
  {
  }

  lemma KeepsRefl(m: Mem, x: int)
    requires Shape(m)
    ensures Keeps(m, m, x)
  {
  }

  lemma AfterWalk(m: Mem, m': Mem, d: nat, v: nat, f: nat)
    requires Shape(m) && Shape(m') && SameMaps(m, m') && Keeps(m, m', -1) && IsDir(m, d) && v < NVPN && f < |m.role|
      && m.role[f] == Held
    ensures IsDir(m', d) && Pte(m', d, v) == Pte(m, d, v) && |m'.role| == |m.role| && m'.role[f] == Held
      && m'.pages[f] == m.pages[f]
  {
    assert SameMap(m, m', d, v) && Kept(m, m', f);
  }

  lemma AfterMap(m: Mem, m1: Mem, m': Mem, d: nat, v: nat, f: nat)
    requires Shape(m) && Inv(m1) && Shape(m') && SameMaps(m, m1) && ButOne(m1, m', d, v) && Keeps(m, m1, -1)
      && IsDir(m, d) && IsDir(m1, d) && v < NVPN
    requires f < |m1.role| && HasTable(m1, d, v / NENT) && 0 <= TableAt(m1, d, v) < |m1.pages| && m1.role[f] == Held
      && NewOnly(m, m1, d, -1)
    requires m' == PteSet(m1, d, v, Mk(f, PERM), f, UserOf(d, v))
    requires (HasTable(m, d, v / NENT) && m1 == m) || (!HasTable(m, d, v / NENT) && WithTable(m, m1, d, v / NENT))
    ensures ButOne(m, m', d, v) && Keeps(m, m', f) && WithTable(m, m', d, v / NENT) && m'.pages[f] == m1.pages[f]
      && NewOnly(m, m', d, f)
  {
    MappedRole(m1, d, v);
    forall g: nat | g < |m.role| && g != f ensures NewFor(m, m', d, g) { assert NewFor(m, m1, d, g); }
    forall e: nat, u: nat | e < |m.pages| && u < NVPN && !(e == d && u == v) ensures SameMap(m, m', e, u) {
      assert SameMap(m, m1, e, u) && SameMap(m1, m', e, u);
    }
    forall g: nat | g < |m.role| && g != f && (m.role[g].UserOf? || m.role[g] == Held)
      ensures Kept(m, m', g) { assert Kept(m, m1, g); }
  }

  /** Directory d has a table for entry i as well, and otherwise the same tables. */
  predicate WithTable(m: Mem, m': Mem, d: nat, i: nat)
    requires Shape(m) && Shape(m') && d < |m.pages| == |m'.pages|
  {
    forall k: nat :: k < NENT ==> (HasTable(m', d, k) <==> HasTable(m, d, k) || k == i)
  }

  lemma SameMapsRefl(m: Mem)
    requires Shape(m)
    ensures SameMaps(m, m)
  {
  }

  lemma SameMapsTrans(a: Mem, b: Mem, c: Mem)
    requires Shape(a) && Shape(b) && Shape(c) && SameMaps(a, b) && SameMaps(b, c)
    ensures SameMaps(a, c)
  {
    forall d: nat, v: nat | d < |a.pages| && v < NVPN ensures SameMap(a, c, d, v) {
      assert SameMap(a, b, d, v) && SameMap(b, c, d, v);
    }
  }

  // ---------- a new directory ----------

  lemma DirFrame(m: Mem, f: nat, g: nat)
    requires Inv(m) && f < |m.pages| && m.role[f] == Held && g < |m.pages|
    ensures var m' := SetRole(SetPage(m, f, Blank(NENT)), f, DirOf); Shape(m') && FrameOk(m', g)
  {
    var m' := SetRole(SetPage(m, f, Blank(NENT)), f, DirOf);
    assert FrameOk(m, g);
    if m.role[g] == DirOf {
      forall i: nat | i < NENT ensures PdeOk(m', g, i) { assert PdeOk(m, g, i); }
    }
    if m.role[g].TableOf? {
      forall j: nat | j < NENT ensures PteOk(m', g, j) { assert PteOk(m, g, j); }
    }
    if m.role[g].UserOf? {
      assert FrameOk(m, m.role[g].d) && PdeOk(m, m.role[g].d, m.role[g].v / NENT);
    }
  }

  /** No tables from entry i on. */
  predicate NoTables(m: Mem, d: nat, lo: nat, hi: nat)
    requires Shape(m) && d < |m.pages|
  {
    forall k: nat :: k < NENT && (k < lo || hi <= k) ==> !HasTable(m, d, k)
  }

  /** A page in hand, blanked, becomes a directory that maps nothing. */
  lemma DirKeeps(m: Mem, f: nat)
    requires Inv(m) && f < |m.pages| && m.role[f] == Held
    ensures var m' := SetRole(SetPage(m, f, Blank(NENT)), f, DirOf);
      Inv(m') && SameMaps(m, m') && IsDir(m', f) && NoTables(m', f, 0, 0)
  {
    var m' := SetRole(SetPage(m, f, Blank(NENT)), f, DirOf);
    forall g: nat | g < |m.pages| ensures FrameOk(m', g) { DirFrame(m, f, g); }
    forall d: nat, v: nat | d < |m.pages| && v < NVPN ensures SameMap(m, m', d, v) {
      assert FrameOk(m, d);
      if IsDir(m, d) { assert PdeOk(m, d, v / NENT); }
    }
  }

  /** The first free page becomes the table of entry i. */
  lemma TableMade(m: Mem, m1: Mem, d: nat, i: nat, f: nat, p: Page)
    requires Inv(m) && Inv(m1) && IsDir(m, d) && m.free != [] && m.free[0] == f < |m.role| && m.role[f] == Avail
      && m1 == Taken(m) && SameMaps(m, m1)
    requires i < NENT && |p| == NENT && (i < USER ==> p == Blank(NENT)) && !HasTable(m, d, i)
    ensures var m2 := SetPage(m1, f, p); CanTable(m2, d, i, f) && Inv(m2)
    ensures var m' := Tabled(SetPage(m1, f, p), d, i, f);
      && Inv(m') && SameMaps(m, m') && IsDir(m', d) && Keeps(m, m', -1) && NewOnly(m, m', d, -1)
      && WithTable(m, m', d, i) && HasTable(m', d, i) && Addr(m'.pages[d][i]) == f
  {
    LeafKeeps(m1, f, p, Held);
    var m2 := SetPage(m1, f, p);
    assert m2 == SetRole(SetPage(m1, f, p), f, Held);
    assert FreeOk(m2);
    TableKeeps(m2, d, i, f);
    var m' := Tabled(m2, d, i, f);
    MkIs(f, PERM);
    SameMapsTrans(m, m1, m2);
    SameMapsTrans(m, m2, m');
    forall g: nat | g < |m.role| ensures NewFor(m, m', d, g) {}
    forall g: nat | g < |m.role| && (m.role[g].UserOf? || m.role[g] == Held) ensures Kept(m, m', g) {}
  }

  lemma NoTableYet(m: Mem, d: nat, i: nat)
    requires Shape(m) && d < |m.pages| && NoTables(m, d, USER, i) && i < NENT
    ensures !HasTable(m, d, i)
  {
  }

  lemma KernelTables(m: Mem, m': Mem, d: nat, i: nat)
    requires Shape(m) && Shape(m') && d < |m.pages| == |m'.pages| && i < NENT && NoTables(m, d, USER, i)
      && WithTable(m, m', d, i) && USER <= i
    ensures NoTables(m', d, USER, i + 1)
  {
    forall k: nat | k < NENT && (k < USER || i + 1 <= k) ensures !HasTable(m', d, k) { assert !HasTable(m, d, k); }
  }

  /** Every page that was free is held by nobody, and no other page has changed role. */
  predicate Drained(m: Mem, m': Mem)
  {
    && m'.free == [] && |m'.role| == |m.role|
    && (forall f: nat :: f < |m.role| ==> m'.role[f] == if m.role[f] == Avail then Held else m.role[f])
  }

  lemma NoneToDrain(m: Mem)
    requires Inv(m) && m.free == []
    ensures Drained(m, m)
  {
  }

  lemma AbandonFrame(m: Mem, m': Mem, d: nat, g: nat)
    requires Inv(m) && IsDir(m, d) && NoUsers(m, d) && g < |m.pages|
    requires m'.pages == m.pages && m'.role == DirRoles(m, d, |m.role|, Held)
    ensures Shape(m') && FrameOk(m', g)
  {
    assert FrameOk(m, g);
    if m'.role[g] == DirOf {
      forall k: nat | k < NENT ensures PdeOk(m', g, k) { assert PdeOk(m, g, k); }
    }
    if m'.role[g].TableOf? {
      forall j: nat | j < NENT ensures PteOk(m', g, j) { assert PteOk(m, g, j); }
    }
    if m'.role[g].UserOf? {
      var e, v := m.role[g].d, m.role[g].v;
      assert FrameOk(m, e) && PdeOk(m, e, v / NENT);
    }
  }

  /** A directory without user pages is forgotten: it and its tables are held by nobody. */
  lemma AbandonKeeps(m: Mem, m': Mem, d: nat)
    requires Inv(m) && IsDir(m, d) && NoUsers(m, d)
    requires m'.pages == m.pages && m'.free == m.free && m'.role == DirRoles(m, d, |m.role|, Held)
    ensures Inv(m')
  {
    forall g: nat | g < |m.pages| ensures FrameOk(m', g) { AbandonFrame(m, m', d, g); }
  }

  lemma NoUserTables(m: Mem, d: nat, hi: nat)
    requires Inv(m) && IsDir(m, d) && NoTables(m, d, USER, hi)
    ensures NoUsers(m, d)
  {
    forall f: nat | f < |m.role| && m.role[f].UserOf? && m.role[f].d == d ensures false {
      assert FrameOk(m, f);
      MappedRole(m, d, m.role[f].v);
    }
  }

  /** A new directory forgotten when memory is exhausted. */
  lemma AbandonDrains(m: Mem, m1: Mem, m': Mem, d: nat)
    requires Inv(m) && Inv(m1) && Inv(m') && SameMaps(m, m1) && Keeps(m, m1, -1) && NewOnly(m, m1, d, -1)
      && d < |m.role| && m.role[d] == Avail
    requires IsDir(m1, d) && NoUsers(m1, d) && m1.free == []
    requires m'.pages == m1.pages && m'.free == m1.free && m'.role == DirRoles(m1, d, |m1.role|, Held)
    ensures Drained(m, m') && SameMaps(m, m') && Keeps(m, m', -1)
  {
    FreeOwnsNothing(m, d);
    forall f: nat | f < |m.role| ensures m'.role[f] == if m.role[f] == Avail then Held else m.role[f] {
      assert NewFor(m, m1, d, f) && (Owned(m, d, f) ==> f == d);
    }
    forall e: nat, u: nat | e < |m.pages| && u < NVPN ensures SameMap(m, m', e, u) { assert SameMap(m, m1, e, u); }
    forall f: nat | f < |m.role| && (m.role[f].UserOf? || m.role[f] == Held)
      ensures Kept(m, m', f) { assert Kept(m, m1, f); }
  }

  // ---------- copying ----------

  predicate CopiedPage(m: Mem, m': Mem, d: nat, nd: nat, v: nat)
    requires Shape(m) && Shape(m') && |m'.pages| == |m.pages| && d < |m.pages| && nd < |m.pages| && v < NVPN
  {
    && Mapped(m, d, v) && 0 <= Frame(m, d, v) < |m.pages|
    && Mapped(m', nd, v) && Usable(m', nd, v) && 0 <= Frame(m', nd, v) < |m.pages|
    && m'.pages[Frame(m', nd, v)] == m.pages[Frame(m, d, v)] && m.role[Frame(m', nd, v)] == Avail
  }

  /** Directory nd, free before, maps pages 0 to n, with the contents they had in d, to pages free
      before, and nothing else. */
  predicate Copied(m: Mem, m': Mem, d: nat, nd: nat, n: nat)
    requires Shape(m) && Shape(m') && d < |m.pages| && n <= NVPN
  {
    && |m'.pages| == |m.pages| && IsDir(m', nd) && nd < |m.pages| && m.role[nd] == Avail
    && (forall v: nat :: v < n ==> CopiedPage(m, m', d, nd, v))
    && (forall v: nat :: n <= v < NVPN ==> !Mapped(m', nd, v))
  }

  lemma CopiedNone(m: Mem, m': Mem, d: nat, nd: nat)
    requires Shape(m) && Inv(m') && d < |m.pages| == |m'.pages| && IsDir(m', nd) && m.role[nd] == Avail
      && NoTables(m', nd, USER, NENT)
    ensures Copied(m, m', d, nd, 0)
  {
    forall v: nat | v < NVPN ensures !Mapped(m', nd, v) { MappedRole(m', nd, v); }
  }

  lemma CopiedMore(m: Mem, m1: Mem, m': Mem, d: nat, nd: nat, n: nat)
    requires Inv(m) && Inv(m1) && Inv(m') && IsDir(m, d) && IsDir(m1, nd) && IsDir(m1, d) && d != nd && n < NVPN
    requires Copied(m, m1, d, nd, n) && Mapped(m, d, n) && SameMap(m, m1, d, n) && Keeps(m, m1, -1)
      && NewOnly(m, m1, nd, -1)
    requires 0 <= Frame(m1, d, n) < |m1.pages| && Placed(m1, m', nd, n, m1.pages[Frame(m1, d, n)]) && Keeps(m1, m', -1)
    ensures Copied(m, m', d, nd, n + 1)
  {
    MappedRole(m, d, n);
    assert Kept(m, m1, Frame(m, d, n));
    var g := Frame(m', nd, n);
    assert NewFor(m, m1, nd, g);
    forall v: nat | v < n + 1 ensures CopiedPage(m, m', d, nd, v) {
      if v < n {
        assert CopiedPage(m, m1, d, nd, v) && SameMap(m1, m', nd, v);
        MappedRole(m1, nd, v);
        assert Kept(m1, m', Frame(m1, nd, v));
      }
    }
    forall v: nat | n + 1 <= v < NVPN ensures !Mapped(m', nd, v) {
      assert SameMap(m1, m', nd, v) && !Mapped(m1, nd, v); }
  }

  /** Freeing the new directory undoes everything since m, except that page x stays lost. */
  lemma Undone(m: Mem, m1: Mem, m': Mem, nd: nat, x: int)
    requires Shape(m) && Shape(m1) && Shape(m') && Accounted(m, m1, nd, x) && Gone(m1, m', nd) && nd < |m.role|
      && m.role[nd] == Avail && x != nd
    requires forall f: nat :: f < |m.role| && Owned(m, nd, f) ==> f == nd
    ensures x == -1 ==> m'.role == m.role
    ensures x != -1 ==> m'.role == m.role[x := Held]
  {
    forall f: nat | f < |m.role| ensures m'.role[f] == if f == x then Held else m.role[f] {
      assert (f != x ==> NewFor(m, m1, nd, f)) && GoneFrame(m1, m', nd, f);
      assert Owned(m, nd, f) ==> f == nd;
    }
  }

  lemma NewTrans(a: Mem, b: Mem, c: Mem, d: nat, x: int)
    requires NewOnly(a, b, d, -1) && NewOnly(b, c, d, x)
    ensures NewOnly(a, c, d, x)
    ensures 0 <= x < |a.role| && b.role[x] == Avail ==> a.role[x] == Avail
  {
    forall f: nat | f < |a.role| && f != x ensures NewFor(a, c, d, f) {
      assert NewFor(a, b, d, f) && NewFor(b, c, d, f); }
    if 0 <= x < |a.role| { assert NewFor(a, b, d, x); }
  }

  lemma DirNew(m: Mem, m1: Mem, m': Mem, d: nat)
    requires Inv(m) && Inv(m1) && Inv(m') && m.free != [] && m.free[0] == d < |m.role| && m.role[d] == Avail
      && m1 == Taken(m) && SameMaps(m, m1)
    requires m' == SetRole(SetPage(m1, d, Blank(NENT)), d, DirOf) && SameMaps(m1, m') && NoTables(m', d, 0, 0)
    ensures SameMaps(m, m') && Keeps(m, m', -1) && NewOnly(m, m', d, -1) && NoTables(m', d, USER, USER)
  {
    SameMapsTrans(m, m1, m');
    forall g: nat | g < |m.role| ensures NewFor(m, m', d, g) {}
    forall g: nat | g < |m.role| && (m.role[g].UserOf? || m.role[g] == Held) ensures Kept(m, m', g) {}
  }

  lemma FewTables(m: Mem, d: nat, hi: nat)
    requires Shape(m) && d < |m.pages| && hi <= NENT && NoTables(m, d, USER, hi)
    ensures NoTables(m, d, USER, NENT)
  {
  }

  /** Every directory other than nd maps as before. */
  predicate ButDir(m: Mem, m': Mem, nd: nat)
    requires Shape(m) && Shape(m')
  {
    |m'.pages| == |m.pages| && forall e: nat, u: nat :: e < |m.pages| && u < NVPN && e != nd ==> SameMap(m, m', e, u)
  }

  lemma ButDirStart(m: Mem, m': Mem, nd: nat)
    requires Shape(m) && Shape(m') && SameMaps(m, m')
    ensures ButDir(m, m', nd)
  {
  }

  lemma ButDirMore(m: Mem, m1: Mem, m': Mem, nd: nat, v: nat, placed: bool)
    requires Shape(m) && Shape(m1) && Shape(m') && ButDir(m, m1, nd) && v < NVPN
      && (if placed then ButOne(m1, m', nd, v) else SameMaps(m1, m'))
    ensures ButDir(m, m', nd)
  {
    forall e: nat, u: nat | e < |m.pages| && u < NVPN && e != nd
      ensures SameMap(m, m', e, u) { assert SameMap(m, m1, e, u) && SameMap(m1, m', e, u); }
  }

  /** After a failed copy is freed, every directory of before maps as before and every page of before is kept. */
  lemma CopyFreed(m: Mem, m1: Mem, m': Mem, nd: nat)
    requires Inv(m) && Shape(m1) && Shape(m') && ButDir(m, m1, nd) && Keeps(m, m1, -1) && Gone(m1, m', nd)
      && nd < |m.role| && m.role[nd] == Avail
    ensures Restored(m, m') && Keeps(m, m', -1)
  {
    forall e: nat, u: nat | e < |m.pages| && u < NVPN ensures SameView(m, m', e, u) {
      if e != nd { assert SameMap(m, m1, e, u) && SameMap(m1, m', e, u); }
    }
    forall f: nat | f < |m.role| && (m.role[f].UserOf? || m.role[f] == Held) ensures Kept(m, m', f) {
      assert Kept(m, m1, f) && GoneFrame(m1, m', nd, f) && FrameOk(m, f);
    }
  }

  /** A copy that failed, with page x lost or x == -1, has been freed. */
  lemma CopyFailed(m: Mem, m1: Mem, m': Mem, nd: nat, x: int)
    requires Inv(m) && Inv(m1) && Inv(m') && ButDir(m, m1, nd) && Keeps(m, m1, -1) && Gone(m1, m', nd)
    requires nd < |m.role| && m.role[nd] == Avail && m1.role[nd] == DirOf && Accounted(m, m1, nd, x)
    ensures Restored(m, m') && Keeps(m, m', -1) && OnlyLost(m, m') && (m'.role == m.role <==> x == -1)
    ensures |m'.free| == |m.free| - if x == -1 then 0 else 1
  {
    CopyFreed(m, m1, m', nd);
    FreeOwnsNothing(m, nd);
    Undone(m, m1, m', nd, x);
    FreeCountBack(m, m', x);
    BackLoses(m, m', x);
  }

  lemma CopyDone(m: Mem, m': Mem, nd: nat)
    requires Shape(m) && Shape(m') && ButDir(m, m', nd) && nd < |m.role| && m.role[nd] == Avail
    ensures Restored(m, m')
  {
    forall e: nat, u: nat | e < |m.pages| && u < NVPN ensures SameView(m, m', e, u) {
      if e != nd { assert SameMap(m, m', e, u); }
    }
  }

  /** Nothing belongs to a page that is free. */
  lemma FreeOwnsNothing(m: Mem, nd: nat)
    requires Inv(m) && nd < |m.role| && m.role[nd] == Avail
    ensures forall f: nat :: f < |m.role| && Owned(m, nd, f) ==> f == nd
  {
    forall f: nat | f < |m.role| && Owned(m, nd, f) ensures f == nd { assert FrameOk(m, f); }
  }

  /** Tables for the first n user pages. */
  function TablesFor(n: nat): nat { (n + NENT - 1) / NENT }

  /** With this many free pages the copy of n pages, after k kernel tables, runs out exactly when it needs a table. */
  predicate ShortOfTable(free: nat, k: nat, n: nat)
  {
    1 <= free <= k || (free >= k + 2 && (free - k - 2) % (NENT + 1) == 0 && (free - k - 2) / (NENT + 1) * NENT < n)
  }

  /** The pages such a copy loses: all there were, if they were too few for the kernel half. */
  function CopyLoss(free: nat, k: nat, n: nat): nat
  {
    if free <= k then free else if ShortOfTable(free, k, n) then 1 else 0
  }

  predicate SameOrLost(m: Mem, m': Mem, f: nat)
    requires f < |m.role| == |m'.role|
  {
    m'.role[f] == m.role[f] || (m.role[f] == Avail && m'.role[f] == Held)
  }

  /** Pages change role only from free to held by nobody. */
  predicate OnlyLost(m: Mem, m': Mem)
  {
    |m'.role| == |m.role| && forall f: nat :: f < |m.role| ==> SameOrLost(m, m', f)
  }

  function AvailSet(m: Mem): set<nat> { set f: nat | f < |m.role| && m.role[f] == Avail }

  function Elements(s: seq<nat>): set<nat> { set f | f in s }

  lemma {:induction false} DistinctCard(s: seq<nat>)
    requires NoDup(s)
    ensures |Elements(s)| == |s|
  {
    if s != [] {
      var t := s[1..];
      DistinctCard(t);
      assert Elements(s) == Elements(t) + {s[0]};
      assert s[0] !in t;
    }
  }

  lemma FreeCount(m: Mem)
    requires Inv(m)
    ensures |m.free| == |AvailSet(m)|
  {
    DistinctCard(m.free);
    assert AvailSet(m) == Elements(m.free);
  }

  /** The free pages are those of before, but for page x. */
  lemma FreeCountBack(m: Mem, m': Mem, x: int)
    requires Inv(m) && Inv(m') && |m'.role| == |m.role|
    requires if x == -1 then
      m'.role == m.role else 0 <= x < |m.role| && m.role[x] == Avail && m'.role == m.role[x := Held]
    ensures |m'.free| == |m.free| - if x == -1 then 0 else 1
  {
    FreeCount(m);
    FreeCount(m');
    if x == -1 { assert AvailSet(m') == AvailSet(m); } else { assert AvailSet(m') == AvailSet(m) - {x}; }
  }

  lemma DrainedLoses(m: Mem, m': Mem)
    requires Inv(m) && Drained(m, m')
    ensures OnlyLost(m, m') && (m'.role == m.role <==> m.free == []) && m'.free == []
  {
    if m.free != [] { assert m.free[0] in m.free; }
    assert m.free == [] ==> m'.role == m.role;
  }

  lemma BackLoses(m: Mem, m': Mem, x: int)
    requires if x == -1 then
      m'.role == m.role else 0 <= x < |m.role| && m.role[x] == Avail && m'.role == m.role[x := Held]
    ensures OnlyLost(m, m') && (m'.role == m.role <==> x == -1)
  {
    if x != -1 { assert m'.role[x] != m.role[x]; }
  }

  lemma OutOfPages(free: nat, k: nat, n: nat, v: nat)
    requires v < n && free == 1 + k + v + TablesFor(v)
    ensures !ShortOfTable(free, k, n) && free < 1 + k + n + TablesFor(n)
  {
    var q, r := v / NENT, v % NENT;
    assert v == NENT * q + r;
    if r == 0 {
      assert free == 1 + k + (NENT + 1) * q;
      if free >= k + 2 { assert free - k - 2 == (NENT + 1) * (q - 1) + NENT; }
    } else {
      assert TablesFor(v) == q + 1;
      assert free - k - 2 == (NENT + 1) * q + r;
    }
  }

  lemma OutOfTables(free: nat, k: nat, n: nat, v: nat)
    requires v < n && v % NENT == 0 && free == 2 + k + v + TablesFor(v)
    ensures ShortOfTable(free, k, n) && free < 1 + k + n + TablesFor(n)
  {
    var q := v / NENT;
    assert TablesFor(v) == q;
    assert free - k - 2 == (NENT + 1) * q;
  }

  lemma Plenty(free: nat, k: nat, n: nat)
    requires free >= 1 + k + n + TablesFor(n)
    ensures !ShortOfTable(free, k, n)
  {
    if free >= k + 2 && (free - k - 2) % (NENT + 1) == 0 {
      var q := (free - k - 2) / (NENT + 1);
      assert free - k - 2 == (NENT + 1) * q;
      assert q * NENT >= n || TablesFor(n) >= q + 1;
    }
  }

  /** Directory nd has tables for exactly the first n user pages. */
  predicate TablesUpTo(m: Mem, nd: nat, n: nat)
    requires Shape(m) && nd < |m.pages|
  {
    forall i: nat :: i < USER ==> (HasTable(m, nd, i) <==> i < TablesFor(n))
  }

  lemma TablesNone(m: Mem, nd: nat)
    requires Shape(m) && nd < |m.pages| && NoTables(m, nd, USER, NENT)
    ensures TablesUpTo(m, nd, 0) && TablesFor(0) == 0
  {
  }

  lemma TablesMore(m: Mem, m': Mem, nd: nat, v: nat)
    requires Shape(m) && Shape(m') && nd < |m.pages| == |m'.pages| && v < NVPN && TablesUpTo(m, nd, v)
      && WithTable(m, m', nd, v / NENT)
    ensures TablesUpTo(m', nd, v + 1) && TablesFor(v + 1) == TablesFor(v) + if v % NENT == 0 then 1 else 0
  {
    forall i: nat | i < USER ensures HasTable(m', nd, i) <==> i < TablesFor(v + 1) {
      assert HasTable(m, nd, i) <==> i < TablesFor(v);
    }
  }

  lemma TableThere(m: Mem, nd: nat, v: nat)
    requires Shape(m) && nd < |m.pages| && v < NVPN && TablesUpTo(m, nd, v)
    ensures HasTable(m, nd, v / NENT) <==> v % NENT != 0
  {
    assert HasTable(m, nd, v / NENT) <==> v / NENT < TablesFor(v);
  }

  lemma SameIsRestored(m: Mem, m': Mem)
    requires Shape(m) && Shape(m') && SameMaps(m, m')
    ensures Restored(m, m')
  {
    forall e: nat, u: nat | e < |m.pages| && u < NVPN ensures SameView(m, m', e, u) { assert SameMap(m, m', e, u); }
  }

  lemma NoDirectory(free: nat, k: nat, n: nat)
    requires free < 1 + k
    ensures ShortOfTable(free, k, n) <==> free > 0
    ensures free < 1 + k + n + TablesFor(n)
  {
  }

  lemma PlacedOne(m: Mem, m': Mem, d: nat, v: nat, p: Page)
    requires Shape(m) && Shape(m') && d < |m.pages| && v < NVPN && Placed(m, m', d, v, p)
    ensures ButOne(m, m', d, v)
  {
  }

  /** The page to copy, seen from the state in which the copy is under way. */
  lemma SourcePage(m: Mem, m1: Mem, d: nat, nd: nat, v: nat)
    requires Inv(m) && Inv(m1) && IsDir(m, d) && v < NVPN && Mapped(m, d, v) && ButDir(m, m1, nd) && nd < |m.role|
      && m.role[nd] == Avail && Copied(m, m1, d, nd, v)
    ensures d != nd && IsDir(m1, d) && SameMap(m, m1, d, v) && HasTable(m1, d, v / NENT)
      && 0 <= TableAt(m1, d, v) < |m1.pages|
    ensures Pte(m1, d, v) == m1.pages[TableAt(m1, d, v)][v % NENT] && 0 <= Frame(m1, d, v) < |m1.pages|
      && |m1.pages[Frame(m1, d, v)]| == NENT
    ensures !Mapped(m1, nd, v)
  {
    assert SameMap(m, m1, d, v);
    MappedRole(m1, d, v);
    assert !Mapped(m1, nd, v);
  }
}
