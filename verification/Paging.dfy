/** Physical pages, page tables and who owns what (vm.c, kalloc.c).  Memory is a sequence of
    4096-byte pages, each 1024 words; a page directory or table entry is a word that holds a page
    number and flags. */
module Paging {

  const NENT := 1024                 // entries in a page directory or page table
  const USER := 512                  // directory entries below KERNBASE
  const NVPN := 524288               // user pages: USER * NENT
  const PGSIZE := 4096

  type Page = seq<int>

  // ---------- entries ----------

  predicate Present(w: int) { w % 2 == 1 }

  /** The page an entry refers to (PTE_ADDR, as a page number). */
  function Addr(w: int): int { w / PGSIZE }

  function Mk(f: int, perm: int): int { f * PGSIZE + perm + 1 }

  lemma MkIs(f: nat, perm: int)
    requires 0 <= perm < PGSIZE - 1 && perm % 2 == 0
    ensures Present(Mk(f, perm)) && Addr(Mk(f, perm)) == f
  {
    var half := f * (PGSIZE / 2) + perm / 2;
    assert Mk(f, perm) == 2 * half + 1;
    Quotient(f, perm + 1);
  }

  lemma Quotient(f: int, rest: int)
    requires 0 <= rest < PGSIZE
    ensures (f * PGSIZE + rest) / PGSIZE == f
  {
  }

  function Blank(n: nat): (p: Page)
    ensures |p| == n && forall i :: 0 <= i < n ==> p[i] == 0
  {
    if n == 0 then [] else Blank(n - 1) + [0]
  }

  // ---------- roles ----------

  /** What a page is for: not managed, on the free list, allocated but referred to by no table, a
      page directory, the page table of entry i of directory d, or user page v of directory d. */
  datatype Role = Reserved | Avail | Held | DirOf | TableOf(d: nat, i: nat) | UserOf(d: nat, v: nat)

  datatype Mem = Mem(pages: seq<Page>, free: seq<nat>, role: seq<Role>)

  predicate Shape(m: Mem)
  {
    && |m.role| == |m.pages| && (forall f :: 0 <= f < |m.pages| ==> |m.pages[f]| == NENT)
  }

  predicate NoDup(s: seq<nat>)
  {
    forall i, j :: 0 <= i < j < |s| ==> s[i] != s[j]
  }

  predicate FreeOk(m: Mem)
  {
    && NoDup(m.free)
    && (forall f :: f in m.free ==> f < |m.role| && m.role[f] == Avail)
    && (forall f :: 0 <= f < |m.role| && m.role[f] == Avail ==> f in m.free)
  }

  predicate IsDir(m: Mem, d: nat) { d < |m.role| && m.role[d] == DirOf }

  predicate HasTable(m: Mem, d: nat, i: nat)
    requires Shape(m) && d < |m.pages|
  {
    i < NENT && Present(m.pages[d][i])
  }

  /** A present directory entry refers to its own table. */
  predicate PdeOk(m: Mem, d: nat, i: nat)
    requires Shape(m) && d < |m.pages| && i < NENT
  {
    HasTable(m, d, i) ==> 0 <= Addr(m.pages[d][i]) < |m.role| && m.role[Addr(m.pages[d][i])] == TableOf(d, i)
  }

  /** A present entry of a user table refers to its own page. */
  predicate PteOk(m: Mem, t: nat, j: nat)
    requires Shape(m) && t < |m.pages| && m.role[t].TableOf? && j < NENT
  {
    var w := m.pages[t][j];
    m.role[t].i < USER && Present(w) ==>
      0 <= Addr(w) < |m.role| && m.role[Addr(w)] == UserOf(m.role[t].d, m.role[t].i * NENT + j)
  }

  /** A table is where its directory says, and a user page where its table says. */
  predicate PlaceOk(m: Mem, f: nat)
    requires Shape(m) && f < |m.pages|
  {
    match m.role[f]
    case TableOf(d, i) => IsDir(m, d) && i < NENT && HasTable(m, d, i) && Addr(m.pages[d][i]) == f
    case UserOf(d, v) => IsDir(m, d) && v < NVPN && Mapped(m, d, v) && Frame(m, d, v) == f
    case _ => true
  }

  /** The entry for user page v of directory d; absent if it has no table. */
  function Pte(m: Mem, d: nat, v: nat): int
    requires Shape(m) && d < |m.pages| && v < NVPN
  {
    var pde := m.pages[d][v / NENT];
    if Present(pde) && 0 <= Addr(pde) < |m.pages| then m.pages[Addr(pde)][v % NENT] else 0
  }

  predicate Mapped(m: Mem, d: nat, v: nat)
    requires Shape(m) && d < |m.pages| && v < NVPN
  {
    Present(Pte(m, d, v))
  }

  function Frame(m: Mem, d: nat, v: nat): int
    requires Shape(m) && d < |m.pages| && v < NVPN
  {
    Addr(Pte(m, d, v))
  }

  /** The user program may read and write page v: its entry is the page's address with PTE_P, PTE_W and
      PTE_U set. */
  predicate Usable(m: Mem, d: nat, v: nat)
    requires Shape(m) && d < |m.pages| && v < NVPN
  {
    Pte(m, d, v) == 4096 * Frame(m, d, v) + 7
  }

  predicate FrameOk(m: Mem, f: nat)
    requires Shape(m) && f < |m.pages|
  {
    && PlaceOk(m, f)
    && (m.role[f] == DirOf ==> forall i: nat :: i < NENT ==> PdeOk(m, f, i))
    && (m.role[f].TableOf? ==> forall j: nat :: j < NENT ==> PteOk(m, f, j))
  }

  predicate Inv(m: Mem)
  {
    Shape(m) && FreeOk(m) && Frames(m)
  }

  // ---------- consequences ----------

  /** A user page's entry leads to a page of its own. */
  lemma MappedRole(m: Mem, d: nat, v: nat)
    requires Inv(m) && IsDir(m, d) && v < NVPN
    ensures HasTable(m, d, v / NENT) ==>
      && 0 <= Addr(m.pages[d][v / NENT]) < |m.pages|
      && m.role[Addr(m.pages[d][v / NENT])] == TableOf(d, v / NENT)
      && Pte(m, d, v) == m.pages[Addr(m.pages[d][v / NENT])][v % NENT]
    ensures Mapped(m, d, v) ==>
      HasTable(m, d, v / NENT) && 0 <= Frame(m, d, v) < |m.pages| && m.role[Frame(m, d, v)] == UserOf(d, v)
  {
    assert FrameOk(m, d);
    assert PdeOk(m, d, v / NENT);
    if HasTable(m, d, v / NENT) {
      var t := Addr(m.pages[d][v / NENT]);
      assert FrameOk(m, t);
      assert PteOk(m, t, v % NENT);
      assert v / NENT * NENT + v % NENT == v;
    }
  }

  // ---------- elementary changes ----------

  predicate SameMap(m: Mem, m': Mem, d: nat, v: nat)
    requires Shape(m) && Shape(m') && |m'.pages| == |m.pages| && d < |m.pages| && v < NVPN
  {
    IsDir(m, d) ==> IsDir(m', d) && Pte(m', d, v) == Pte(m, d, v)
  }

  /** Same mapping in every directory. */
  predicate SameMaps(m: Mem, m': Mem)
    requires Shape(m) && Shape(m')
  {
    |m'.pages| == |m.pages| && forall d: nat, v: nat :: d < |m.pages| && v < NVPN ==> SameMap(m, m', d, v)
  }

  function SetRole(m: Mem, f: nat, r: Role): Mem
    requires f < |m.role|
  {
    m.(role := m.role[f := r])
  }

  function SetPage(m: Mem, f: nat, p: Page): Mem
    requires f < |m.pages|
  {
    m.(pages := m.pages[f := p])
  }

  /** `kalloc`: the first free page is taken. */
  function Taken(m: Mem): Mem
    requires m.free != [] && m.free[0] < |m.role|
  {
    SetRole(m, m.free[0], Held).(free := m.free[1..])
  }

  predicate Frames(m: Mem)
    requires Shape(m)
  {
    forall f: nat :: f < |m.pages| ==> FrameOk(m, f)
  }

  /** Roles between which a page may move, and pages that may change, without any entry noticing. */
  predicate Leaf(r: Role, r': Role)
  {
    ((r == Held || r == Avail || r == Reserved) && (r' == Held || r' == Avail)) || (r.UserOf? && r' == r)
  }

  lemma LeafKeeps(m: Mem, f: nat, p: Page, r: Role)
    requires Shape(m) && Frames(m) && f < |m.pages| && |p| == NENT && Leaf(m.role[f], r)
    ensures Shape(SetRole(SetPage(m, f, p), f, r)) && Frames(SetRole(SetPage(m, f, p), f, r))
      && SameMaps(m, SetRole(SetPage(m, f, p), f, r))
  {
    var m' := SetRole(SetPage(m, f, p), f, r);
    forall d: nat, v: nat | d < |m.pages| && v < NVPN ensures SameMap(m, m', d, v) {
      assert FrameOk(m, d);
      if IsDir(m, d) { assert PdeOk(m, d, v / NENT); }
    }
    forall g: nat | g < |m.pages| ensures FrameOk(m', g) { LeafFrame(m, f, p, r, g); }
  }

  lemma LeafFrame(m: Mem, f: nat, p: Page, r: Role, g: nat)
    requires Shape(m) && Frames(m) && f < |m.pages| && |p| == NENT && Leaf(m.role[f], r) && g < |m.pages|
    ensures Shape(SetRole(SetPage(m, f, p), f, r)) && FrameOk(SetRole(SetPage(m, f, p), f, r), g)
  {
    var m' := SetRole(SetPage(m, f, p), f, r);
    assert FrameOk(m, g);
    if m.role[g] == DirOf {
      forall i: nat | i < NENT ensures PdeOk(m', g, i) { assert PdeOk(m, g, i); }
    }
    if m.role[g].TableOf? {
      forall j: nat | j < NENT ensures PteOk(m', g, j) { assert PteOk(m, g, j); }
    }
    if m.role[g].UserOf? {
      var d, v := m.role[g].d, m.role[g].v;
      assert FrameOk(m, d) && PdeOk(m, d, v / NENT);
    }
  }

  lemma TakeKeeps(m: Mem)
    requires Inv(m) && m.free != []
    ensures m.free[0] < |m.role| && m.role[m.free[0]] == Avail && Inv(Taken(m)) && SameMaps(m, Taken(m))
  {
    var f := m.free[0];
    assert f in m.free;
    hide SameMaps, FrameOk;
    LeafKeeps(m, f, m.pages[f], Held);
    var m1 := SetRole(m, f, Held);
    assert SetRole(SetPage(m, f, m.pages[f]), f, Held) == m1;
    FreeListOnly(m1, Taken(m));
    SameMapsFree(m, m1, Taken(m));
    forall g | g in m.free[1..] ensures g < |m1.role| && m1.role[g] == Avail {
      var i :| 0 <= i < |m.free| - 1 && m.free[1..][i] == g;
      assert m.free[i + 1] == g && g in m.free;
    }
  }

  lemma FreeListOnly(m: Mem, m': Mem)
    requires Shape(m) && Frames(m) && m'.pages == m.pages && m'.role == m.role
    ensures Shape(m') && Frames(m')
  {
    forall g: nat | g < |m.pages| ensures FrameOk(m', g) {
      assert FrameOk(m, g);
      if m.role[g] == DirOf {
        forall i: nat | i < NENT ensures PdeOk(m', g, i) { assert PdeOk(m, g, i); }
      }
      if m.role[g].TableOf? {
        forall j: nat | j < NENT ensures PteOk(m', g, j) { assert PteOk(m, g, j); }
      }
    }
  }

  lemma SameMapsFree(m: Mem, m1: Mem, m': Mem)
    requires Shape(m) && Shape(m1) && SameMaps(m, m1) && m'.pages == m1.pages && m'.role == m1.role
    ensures Shape(m') && SameMaps(m, m')
  {
    forall d: nat, v: nat | d < |m.pages| && v < NVPN ensures SameMap(m, m', d, v) {
      assert SameMap(m, m1, d, v);
    }
  }

  /** `kfree` of a page in hand, or of one not managed so far. */
  function Given(m: Mem, f: nat, junk: Page): Mem
    requires f < |m.role| == |m.pages|
  {
    SetRole(SetPage(m, f, junk), f, Avail).(free := [f] + m.free)
  }

  lemma GiveKeeps(m: Mem, f: nat, junk: Page)
    requires Inv(m) && f < |m.pages| && (m.role[f] == Held || m.role[f] == Reserved) && |junk| == NENT
    ensures Inv(Given(m, f, junk)) && SameMaps(m, Given(m, f, junk))
  {
    hide SameMaps, FrameOk;
    LeafKeeps(m, f, junk, Avail);
    var m1 := SetRole(SetPage(m, f, junk), f, Avail);
    FreeListOnly(m1, Given(m, f, junk));
    SameMapsFree(m, m1, Given(m, f, junk));
  }

  // ---------- page tables ----------

  const PERM := 6                    // PTE_W | PTE_U

  /** A page in hand, blank if for user pages, becomes the table of entry i of directory d. */
  function Tabled(m: Mem, d: nat, i: nat, f: nat): Mem
    requires Shape(m) && d < |m.pages| && f < |m.role| && i < NENT
  {
    SetRole(SetPage(m, d, m.pages[d][i := Mk(f, PERM)]), f, TableOf(d, i))
  }

  predicate CanTable(m: Mem, d: nat, i: nat, f: nat)
  {
    && Shape(m) && Frames(m) && IsDir(m, d) && i < NENT && !HasTable(m, d, i)
    && f < |m.role| && m.role[f] == Held && (i < USER ==> m.pages[f] == Blank(NENT))
  }

  lemma TableFrame(m: Mem, d: nat, i: nat, f: nat, g: nat)
    requires CanTable(m, d, i, f) && g < |m.pages|
    ensures Shape(Tabled(m, d, i, f)) && FrameOk(Tabled(m, d, i, f), g)
  {
    var m' := Tabled(m, d, i, f);
    MkIs(f, PERM);
    assert FrameOk(m, g) && FrameOk(m, d);
    if m.role[g] == DirOf {
      forall k: nat | k < NENT ensures PdeOk(m', g, k) { assert PdeOk(m, g, k); }
    }
    if m'.role[g].TableOf? {
      forall j: nat | j < NENT ensures PteOk(m', g, j) { if g != f { assert PteOk(m, g, j); } }
    }
    if m.role[g].UserOf? {
      var d1, v := m.role[g].d, m.role[g].v;
      assert FrameOk(m, d1) && PdeOk(m, d1, v / NENT);
    }
  }

  lemma TableKeeps(m: Mem, d: nat, i: nat, f: nat)
    requires CanTable(m, d, i, f) && FreeOk(m)
    ensures Inv(Tabled(m, d, i, f)) && SameMaps(m, Tabled(m, d, i, f)) && HasTable(Tabled(m, d, i, f), d, i)
  {
    var m' := Tabled(m, d, i, f);
    MkIs(f, PERM);
    forall g: nat | g < |m.pages| ensures FrameOk(m', g) { TableFrame(m, d, i, f, g); }
    forall e: nat, v: nat | e < |m.pages| && v < NVPN ensures SameMap(m, m', e, v) {
      assert FrameOk(m, e);
      if IsDir(m, e) { assert PdeOk(m, e, v / NENT); }
    }
  }

  // ---------- user pages ----------

  function TableAt(m: Mem, d: nat, v: nat): int
    requires Shape(m) && d < |m.pages| && v < NVPN
  {
    Addr(m.pages[d][v / NENT])
  }

  /** The entry of user page v set to w, and page f given role r. */
  function PteSet(m: Mem, d: nat, v: nat, w: int, f: nat, r: Role): Mem
    requires Shape(m) && d < |m.pages| && v < NVPN && 0 <= TableAt(m, d, v) < |m.pages| && f < |m.role|
  {
    var t := TableAt(m, d, v);
    SetRole(SetPage(m, t, m.pages[t][v % NENT := w]), f, r)
  }

  /** The page in hand is mapped, or the mapped page is taken in hand. */
  predicate CanSet(m: Mem, d: nat, v: nat, w: int, f: nat, r: Role)
  {
    && Inv(m) && IsDir(m, d) && v < NVPN && HasTable(m, d, v / NENT) && f < |m.role|
    && (if Mapped(m, d, v) then Frame(m, d, v) == f && w == 0 && r == Held
        else m.role[f] == Held && Present(w) && Addr(w) == f && r == UserOf(d, v))
  }

  /** What CanSet says about the table and the page concerned. */
  predicate SetFacts(m: Mem, d: nat, v: nat, w: int, f: nat, r: Role)
  {
    && CanSet(m, d, v, w, f, r) && 0 <= TableAt(m, d, v) < |m.pages| && m.role[TableAt(m, d, v)] == TableOf(d, v / NENT)
    && (Mapped(m, d, v) ==> m.role[f] == UserOf(d, v))
  }

  lemma SetTable(m: Mem, d: nat, v: nat, w: int, f: nat, r: Role, g: nat, j: nat)
    requires SetFacts(m, d, v, w, f, r) && g < |m.pages| && m.role[g].TableOf? && j < NENT
    ensures Shape(PteSet(m, d, v, w, f, r)) && PteSet(m, d, v, w, f, r).role[g] == m.role[g]
      && PteOk(PteSet(m, d, v, w, f, r), g, j)
  {
    var t := TableAt(m, d, v);
    assert FrameOk(m, g) && FrameOk(m, d);
    assert PteOk(m, g, j);
    if g == t && j == v % NENT { assert v / NENT * NENT + j == v; }
  }

  lemma SetFrame(m: Mem, d: nat, v: nat, w: int, f: nat, r: Role, g: nat)
    requires SetFacts(m, d, v, w, f, r) && g < |m.pages|
    ensures Shape(PteSet(m, d, v, w, f, r)) && FrameOk(PteSet(m, d, v, w, f, r), g)
  {
    var m' := PteSet(m, d, v, w, f, r);
    assert FrameOk(m, g) && FrameOk(m, d);
    if m.role[g] == DirOf {
      forall k: nat | k < NENT ensures PdeOk(m', g, k) { assert PdeOk(m, g, k); }
    } else if m.role[g].TableOf? {
      forall j: nat | j < NENT ensures PteOk(m', g, j) { SetTable(m, d, v, w, f, r, g, j); }
    } else if m'.role[g].UserOf? {
      var d1, v1 := m'.role[g].d, m'.role[g].v;
      assert FrameOk(m, d1) && PdeOk(m, d1, v1 / NENT);
      SameVpn(v, v1);
    }
  }

  lemma SameVpn(v: nat, v1: nat)
    ensures v / NENT == v1 / NENT && v % NENT == v1 % NENT ==> v == v1
  {
  }

  /** Everything mapped as before, except user page v of directory d. */
  predicate ButOne(m: Mem, m': Mem, d: nat, v: nat)
    requires Shape(m) && Shape(m')
  {
    |m'.pages| == |m.pages| && forall e: nat, u: nat ::
      e < |m.pages| && u < NVPN && !(e == d && u == v) ==> SameMap(m, m', e, u)
  }

  /** Mapping a page in hand, or taking a mapped page in hand, changes one entry of one table. */
  lemma SetKeeps(m: Mem, d: nat, v: nat, w: int, f: nat, r: Role)
    requires CanSet(m, d, v, w, f, r)
    ensures 0 <= TableAt(m, d, v) < |m.pages| && Inv(PteSet(m, d, v, w, f, r))
      && ButOne(m, PteSet(m, d, v, w, f, r), d, v)
    ensures IsDir(PteSet(m, d, v, w, f, r), d) && Pte(PteSet(m, d, v, w, f, r), d, v) == w
    ensures Mapped(m, d, v) ==> m.role[f] == UserOf(d, v)
  {
    MappedRole(m, d, v);
    var m', t := PteSet(m, d, v, w, f, r), TableAt(m, d, v);
    forall g: nat | g < |m.pages| ensures FrameOk(m', g) { SetFrame(m, d, v, w, f, r, g); }
    forall e: nat, u: nat | e < |m.pages| && u < NVPN && !(e == d && u == v) ensures SameMap(m, m', e, u) {
      assert FrameOk(m, e);
      if IsDir(m, e) { assert PdeOk(m, e, u / NENT); }
      SameVpn(v, u);
    }
  }

  // ---------- the partition of memory ----------

  /** What a page is used for, as the free list and the page directories say. */
  datatype Use = OnFreeList | AsDirectory | AsTable(d: nat, i: nat) | AsPage(d: nat, v: nat)

  predicate Uses(m: Mem, f: nat, u: Use)
    requires Shape(m)
  {
    match u
    case OnFreeList => f in m.free
    case AsDirectory => IsDir(m, f)
    case AsTable(d, i) => IsDir(m, d) && HasTable(m, d, i) && Addr(m.pages[d][i]) == f
    case AsPage(d, v) => IsDir(m, d) && v < NVPN && Mapped(m, d, v) && Frame(m, d, v) == f
  }

  lemma UseIsRole(m: Mem, f: nat, u: Use)
    requires Inv(m) && Uses(m, f, u)
    ensures f < |m.role|
    ensures m.role[f] == match u
      case OnFreeList => Avail
      case AsDirectory => DirOf
      case AsTable(d, i) => TableOf(d, i)
      case AsPage(d, v) => UserOf(d, v)
  {
    match u
    case OnFreeList =>
    case AsDirectory =>
    case AsTable(d, i) => assert FrameOk(m, d) && PdeOk(m, d, i);
    case AsPage(d, v) => MappedRole(m, d, v);
  }

  /** No page has two uses: the free list, the directories, their tables and their user pages are
      disjoint, and each table or user page is in one place of one directory. */
  lemma OneUse(m: Mem, f: nat, a: Use, b: Use)
    requires Inv(m) && Uses(m, f, a) && Uses(m, f, b)
    ensures a == b
  {
    UseIsRole(m, f, a);
    UseIsRole(m, f, b);
  }

  /** Every managed page has a use, unless it is held in hand. */
  lemma SomeUse(m: Mem, f: nat) returns (u: Use)
    requires Inv(m) && f < |m.role| && m.role[f] != Reserved && m.role[f] != Held
    ensures Uses(m, f, u)
  {
    assert FrameOk(m, f);
    match m.role[f]
    case Avail => u := OnFreeList;
    case DirOf => u := AsDirectory;
    case TableOf(d, i) => u := AsTable(d, i);
    case UserOf(d, v) => u := AsPage(d, v);
  }
}
