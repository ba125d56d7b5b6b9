/** Page allocation and user address spaces (kalloc.c, vm.c). */
module Vm {
  import opened Paging
  import opened AddressSpace
  import opened Conservation

  class Machine {
    var pages: seq<Page>
    var free: seq<nat>
    ghost var role: seq<Role>

    ghost function M(): Mem
      reads this
    {
      Mem(pages, free, role)
    }

    /** Memory before the allocator manages any of it. */
    constructor (memory: seq<Page>)
      requires forall f :: 0 <= f < |memory| ==> |memory[f]| == NENT
      ensures Inv(M()) && pages == memory && free == [] && NoneHeld(M())
      ensures forall f :: 0 <= f < |memory| ==> role[f] == Reserved
    {
      pages, free, role := memory, [], seq(|memory|, _ => Reserved);
    }

    /** `freerange`, of which allocator start-up consists: the whole pages from byte vstart to vend. */
    method Freerange(vstart: nat, vend: nat)
      requires Inv(M()) && vend / PGSIZE <= |pages|
      requires forall f: nat :: PgUp(vstart) <= f < vend / PGSIZE ==> role[f] == Reserved
      modifies this
      ensures Inv(M()) && |pages| == |old(pages)| && free == Downto(PgUp(vstart), vend / PGSIZE) + old(free)
      ensures forall f: nat ::
        f < |role| ==> role[f] == if PgUp(vstart) <= f < vend / PGSIZE then Avail else old(role)[f]
    {
      hide Frames, FreeOk, SameMaps, PgUp, Downto;
      var p, n := PgUp(vstart) * PGSIZE, PgUp(vstart);
      ghost var a := n;
      DowntoNone(a);
      assert Downto(a, a) + free == free;
      while p + PGSIZE <= vend
        invariant p == n * PGSIZE && a <= n && (n <= vend / PGSIZE || n == a) && Inv(M()) && |pages| == |old(pages)|
        invariant free == Downto(a, n) + old(free)
        invariant forall f: nat :: f < |role| ==> role[f] == if a <= f < n then Avail else old(role)[f]
        decreases vend - p
      {
        assert n < vend / PGSIZE;
        GiveKeeps(M(), n, Junk(NENT));
        DowntoNext(a, n, old(free));
        ghost var m := M();
        Kfree(n);
        role := role[n := Avail];
        assert M() == Given(m, n, Junk(NENT));
        p := p + PGSIZE;
        n := n + 1;
      }
      DowntoEnd(a, n, vend / PGSIZE);
    }

    method Kalloc() returns (f: int)
      requires Inv(M())
      modifies this
      ensures f == -1 <==> old(free) == []
      ensures f == -1 ==> M() == old(M())
      ensures f != -1 ==> f == old(free)[0] && f < |old(role)| && old(role)[f] == Avail && M() == Taken(old(M()))
      ensures Inv(M()) && SameMaps(old(M()), M())
    {
      if free == [] {
        SameMapsRefl(M());
        return -1;
      }
      TakeKeeps(M());
      f := free[0];
      free := free[1..];
      role := role[f := Held];
    }

    method Kfree(f: nat)
      requires f < |pages|
      modifies this
      ensures M() == old(M()).(pages := old(pages)[f := Junk(NENT)], free := [f] + old(free))
    {
      pages := pages[f := Junk(NENT)];
      free := [f] + free;
    }

    /** `walkpgdir`: the table for user page v, made if alloc says so and a page is left. */
    method Walkpgdir(d: nat, v: nat, alloc: bool) returns (t: int)
      requires Inv(M()) && IsDir(M(), d) && v < NVPN
      modifies this
      ensures Inv(M()) && SameMaps(old(M()), M()) && Keeps(old(M()), M(), -1) && NewOnly(old(M()), M(), d, -1)
      ensures t == -1 <==> !HasTable(old(M()), d, v / NENT) && (!alloc || old(free) == [])
      ensures HasTable(old(M()), d, v / NENT) || t == -1 ==> M() == old(M())
      ensures t != -1 ==> HasTable(M(), d, v / NENT) && t == TableAt(M(), d, v) && 0 <= t < |pages|
      ensures !HasTable(old(M()), d, v / NENT) && t != -1 ==>
        free == old(free)[1..] && pages[d][v / NENT] == 4096 * t + 7 && WithTable(old(M()), M(), d, v / NENT)
    {
      hide Frames, FreeOk, SameMaps, Keeps, NewOnly, WithTable;
      ghost var m0 := M();
      SameMapsRefl(m0);
      KeepsRefl(m0, -1);
      NewRefl(m0, d, -1);
      MappedRole(m0, d, v);
      var pde := pages[d][v / NENT];
      if pde % 2 == 1 {
        return Addr(pde);
      }
      if !alloc { return -1; }
      t := Kalloc();
      if t == -1 { return; }
      ghost var m1 := M();
      TableMade(m0, m1, d, v / NENT, t, Blank(NENT));
      pages := pages[t := Blank(NENT)];
      pages := pages[d := pages[d][v / NENT := Mk(t, PERM)]];
      role := role[t := TableOf(d, v / NENT)];
      assert M() == Tabled(SetPage(m1, t, Blank(NENT)), d, v / NENT, t);
    }

    /** `mappages` of one page: v must not be mapped, or it panics. */
    method Mappage(d: nat, v: nat, f: nat) returns (ok: bool)
      requires Inv(M()) && IsDir(M(), d) && v < NVPN && !Mapped(M(), d, v) && f < |role| && role[f] == Held
      modifies this
      ensures Inv(M()) && Keeps(old(M()), M(), f) && pages[f] == old(pages)[f] && IsDir(M(), d)
        && NewOnly(old(M()), M(), d, f)
      ensures ok <==> HasTable(old(M()), d, v / NENT) || old(free) != []
      ensures !ok ==> M() == old(M())
      ensures ok ==>
        Pte(M(), d, v) == Mk(f, PERM) == 4096 * f + 7 && ButOne(old(M()), M(), d, v) && role[f] == UserOf(d, v)
      ensures ok ==>
        free == old(free)[if HasTable(old(M()), d, v / NENT) then 0 else 1..] && WithTable(old(M()), M(), d, v / NENT)
    {
      hide SameMaps, Frames, FreeOk, ButOne, Keeps, WithTable, NewOnly;
      ghost var m0 := M();
      var t := Walkpgdir(d, v, true);
      if t == -1 {
        KeepsRefl(m0, f);
        NewRefl(m0, d, f);
        return false;
      }
      ghost var m1 := M();
      AfterWalk(m0, m1, d, v, f);
      MkIs(f, PERM);
      SetKeeps(m1, d, v, Mk(f, PERM), f, UserOf(d, v));
      MappedRole(m1, d, v);
      pages := pages[t := pages[t][v % NENT := Mk(f, PERM)]];
      role := role[f := UserOf(d, v)];
      assert M() == PteSet(m1, d, v, Mk(f, PERM), f, UserOf(d, v));
      AfterMap(m0, m1, M(), d, v, f);
      ok := true;
    }

    /** The body of deallocuvm's loop for a page that is present. */
    method Drop(d: nat, v: nat, t: nat)
      requires Inv(M()) && IsDir(M(), d) && v < NVPN && Mapped(M(), d, v) && t == TableAt(M(), d, v)
      modifies this
      ensures Inv(M()) && IsDir(M(), d) && 0 <= TableAt(old(M()), d, v) < |old(pages)|
        && 0 <= Frame(old(M()), d, v) < |old(role)|
      ensures M() == Dropped(old(M()), d, v, Frame(old(M()), d, v))
    {
      hide Frames, FreeOk, SameMaps, ButOne;
      DropKeeps(M(), d, v);
      var pa := Addr(pages[t][v % NENT]);
      Kfree(pa);
      pages := pages[t := pages[t][v % NENT := 0]];
      role := role[pa := Avail];
      assert M() == Dropped(old(M()), d, v, pa);
    }

    /** `deallocuvm`. */
    method Deallocuvm(d: nat, oldsz: nat, newsz: nat) returns (r: nat)
      requires Inv(M()) && IsDir(M(), d) && oldsz <= KERNBASE
      modifies this
      ensures Inv(M()) && IsDir(M(), d)
      ensures r == if newsz >= oldsz then oldsz else newsz
      ensures newsz >= oldsz ==> M() == old(M())
      ensures newsz < oldsz ==> Freed(old(M()), M(), d, Visits(old(M()), d, PgUp(newsz), PgUp(oldsz)))
      ensures Step(old(M()), M(), Shrink(d))
    {
      hide Frames, FreeOk, Freed, FreedMap, FreedFrame, SameMaps, Keeps, PgUp, Dropped, RoleAfter, Step;
      if newsz >= oldsz {
        SameStep(M(), d);
        return oldsz;
      }
      PgUpBelow(oldsz);
      ghost var m0 := M();
      var a := PgUp(newsz) * PGSIZE;
      var n := PgUp(newsz);
      ghost var b, s: set<nat> := PgUp(oldsz), {};
      FreedNone(m0, d);
      while a < oldsz
        invariant a == n * PGSIZE && Inv(M()) && IsDir(M(), d) && Freed(m0, M(), d, s)
        invariant s + Visits(m0, d, n, b) == Visits(m0, d, PgUp(newsz), b)
        invariant forall u :: u in s ==> u < n
        decreases oldsz - a
      {
        assert n < b;
        SameTables(m0, M(), d, s, n / NENT);
        var t := Walkpgdir(d, n, false);
        if t == -1 {
          a := a + (NENT - 1) * PGSIZE;
          n := n + NENT - 1;
        } else {
          FreedAlready(m0, M(), d, s, n);
          if pages[t][n % NENT] % 2 == 1 {
            FreedStep(m0, M(), d, s, n);
            Drop(d, n, t);
          }
          s := s + {n};
        }
        a := a + PGSIZE;
        n := n + 1;
      }
      assert Visits(m0, d, n, b) == {};
      assert s == s + Visits(m0, d, n, b);
      ShrinkStep(m0, M(), d, s);
      r := newsz;
    }

    /** A page with contents p for user page v, unless a page or a table for it is lacking: the bodies
        of the loops of allocuvm and copyuvm. */
    method PutOne(d: nat, v: nat, p: Page) returns (mem: int, ok: bool)
      requires Inv(M()) && IsDir(M(), d) && v < NVPN && !Mapped(M(), d, v) && |p| == NENT
      modifies this
      ensures Inv(M()) && IsDir(M(), d) && Keeps(old(M()), M(), -1) && |pages| == |old(pages)|
      ensures mem == -1 <==> old(free) == []
      ensures ok <==> |old(free)| >= 1 + (if HasTable(old(M()), d, v / NENT) then 0 else 1)
      ensures mem == -1 ==> M() == old(M())
      ensures mem != -1 && !ok ==> free == [] && SameMaps(old(M()), M()) && Accounted(old(M()), M(), d, mem)
      ensures ok ==>
        Placed(old(M()), M(), d, v, p) && WithTable(old(M()), M(), d, v / NENT) && NewOnly(old(M()), M(), d, -1)
      ensures ok ==> |free| == |old(free)| - 1 - (if HasTable(old(M()), d, v / NENT) then 0 else 1)
    {
      hide Frames, FreeOk, SameMaps, Keeps, ButOne, WithTable, Placed, NewOnly;
      ghost var m0 := M();
      mem := Kalloc();
      if mem == -1 {
        KeepsRefl(m0, -1);
        return -1, false;
      }
      ghost var m1 := M();
      pages := pages[mem := p];
      ghost var m2 := M();
      Filled(m0, m1, m2, d, v, mem, p);
      ok := Mappage(d, v, mem);
      AfterPut(m0, m2, M(), d, v, mem, p, ok);
      assert |pages| == |m2.pages| by { SameSize(m2, M(), mem); }
    }

    /** `allocuvm`.  lost is the page, if any, that was taken and could not be mapped because no page
        was left for its table: the source ignores that failure of mappages. */
    method Allocuvm(d: nat, oldsz: nat, newsz: nat) returns (r: nat, ghost lost: int)
      requires Inv(M()) && IsDir(M(), d)
      requires newsz < KERNBASE ==> forall v: nat :: PgUp(oldsz) <= v < PgUp(newsz) ==> v < NVPN && !Mapped(M(), d, v)
      modifies this
      ensures Inv(M()) && IsDir(M(), d) && Keeps(old(M()), M(), -1)
      ensures newsz >= KERNBASE ==> r == 0 && M() == old(M()) && lost == -1
      ensures newsz < oldsz && newsz < KERNBASE ==> r == oldsz && M() == old(M()) && lost == -1
      ensures Accounted(old(M()), M(), d, lost)
      ensures oldsz <= newsz < KERNBASE ==>
        var a, b := PgUp(oldsz), PgUp(newsz);
        && (lost != -1 <==> Loses(old(M()), d, a, b)) && Step(old(M()), M(), Grow(d, a, b))
        && if |old(free)| >= Needed(old(M()), d, a, b) then
             r == newsz && Grown(old(M()), M(), d, a, b) && |free| == |old(free)| - Needed(old(M()), d, a, b)
           else if LosesLast(old(M()), d, a, b) then
             r == newsz && Grown(old(M()), M(), d, a, b - 1) && !Mapped(M(), d, b - 1)
           else
             r == 0 && Restored(old(M()), M())
    {
      hide Frames, FreeOk, SameMaps, Keeps, WithTable, Grown, Needed, PgUp, Mapped, Restored, Placed, NewOnly,
        NeedsTable, Loses, LosesLast, TablesFrom, Step;
      ghost var m0 := M();
      KeepsRefl(m0, -1);
      NewRefl(m0, d, -1);
      lost := -1;
      if newsz >= KERNBASE { return 0, -1; }
      if newsz < oldsz { return oldsz, -1; }
      PgUpBelow(newsz);
      PgUpBelow(oldsz);
      ghost var a0, b := PgUp(oldsz), PgUp(newsz);
      assert a0 <= b by { PgUpMono(oldsz, newsz); }
      var a, n := PgUp(oldsz) * PGSIZE, PgUp(oldsz);
      ghost var k := n;
      GrownNone(m0, d, a0);
      TablesFromNone(m0, d, a0);
      while a < newsz
        invariant a0 <= n <= b && a == n * PGSIZE && Inv(M()) && IsDir(M(), d) && Keeps(m0, M(), -1)
          && |pages| == |m0.pages|
        invariant a0 <= k && Grown(m0, M(), d, a0, k) && Accounted(m0, M(), d, lost)
        invariant if lost == -1 then
          k == n && TablesFrom(m0, M(), d, a0, n) && |free| == |m0.free| - Needed(m0, d, a0, n)
                  else k == n - 1 && free == [] && LosesAt(m0, d, a0, k)
        decreases newsz - a
      {
        assert n < b;
        ghost var m1 := M();
        NotYet(m0, m1, d, a0, k, n);
        var mem, ok := PutOne(d, n, Blank(NENT));
        if mem == -1 {
          if lost == -1 { NoLoss(m0, d, a0, n, b); } else { LossHere(m0, d, a0, k, b); }
          assert newsz > oldsz;
          var _ := Deallocuvm(d, newsz, oldsz);
          ShrinkBack(m0, m1, M(), d, a0, k, b);
          ShrinkNew(m0, m1, M(), d, a0, b, lost);
          GrowStep(m0, M(), d, a0, b, lost);
          return 0, lost;
        }
        TableLacks(m0, m1, d, a0, n);
        NeededNext(m0, d, a0, n);
        if ok {
          GrownMore(m0, m1, M(), d, a0, n);
          TablesFromMore(m0, m1, M(), d, a0, n);
          NewTrans(m0, m1, M(), d, -1);
          k := k + 1;
        } else {
          GrownSame(m0, m1, M(), d, a0, k);
          NewTrans(m0, m1, M(), d, mem);
          lost := mem;
        }
        KeepsTrans(m0, m1, M());
        a := a + PGSIZE;
        n := n + 1;
      }
      if lost == -1 {
        NoLoss(m0, d, a0, n, b);
      } else {
        LossHere(m0, d, a0, k, b);
        NotYet(m0, M(), d, a0, k, k);
      }
      GrowStep(m0, M(), d, a0, b, lost);
      r := newsz;
    }

    /** `freevm`. */
    method Freevm(d: nat)
      requires Inv(M()) && IsDir(M(), d)
      modifies this
      ensures Inv(M()) && Gone(old(M()), M(), d) && Step(old(M()), M(), Discard(d))
    {
      hide Frames, FreeOk, Freed, Gone, Visits, NoUsers, Step;
      ghost var m0 := M();
      assert PgUp(KERNBASE) == NVPN && PgUp(0) == 0;
      var _ := Deallocuvm(d, KERNBASE, 0);
      ghost var m1 := M();
      AllFreed(m0, m1, d);
      ghost var ts := FreeTables(d);
      ghost var m2 := M();
      Kfree(d);
      role := DirRoles(m1, d, |role|, Avail);
      DirIsFreed(m1, m2, M(), d, ts);
      DirFreedKeeps(m1, M(), d, ts);
      GoneAll(m0, m1, M(), d);
      DiscardStep(m0, M(), d);
    }

    /** The loop of freevm over the directory's entries. */
    method FreeTables(d: nat) returns (ghost ts: seq<nat>)
      requires Inv(M()) && IsDir(M(), d)
      modifies this
      ensures TablesFreed(old(M()), M(), d, NENT, ts)
    {
      hide Frames, FreeOk, TablesFreed;
      ghost var m := M();
      ts := [];
      NoTableFreed(m, d);
      for i := 0 to NENT
        invariant TablesFreed(m, M(), d, i, ts)
      {
        TableFree(m, M(), d, i, ts);
        if pages[d][i] % 2 == 1 {
          var t := Addr(pages[d][i]);
          TableFreed(m, M(), d, i, ts, t);
          Kfree(t);
          ts := [t] + ts;
        }
      }
    }

    /** `setupkvm`: a directory and one table page for each of the kernel's directory entries; the
        kernel's own mappings are the contents of those pages.  If it fails, the directory and the
        tables made so far are forgotten. */
    method Setupkvm(kernel: seq<Page>) returns (d: int)
      requires Inv(M()) && |kernel| <= NENT - USER && forall i :: 0 <= i < |kernel| ==> |kernel[i]| == NENT
      modifies this
      ensures Inv(M()) && SameMaps(old(M()), M()) && Keeps(old(M()), M(), -1)
      ensures d == -1 <==> |old(free)| < 1 + |kernel|
      ensures d == -1 ==> Drained(old(M()), M())
      ensures d != -1 ==> |free| == |old(free)| - 1 - |kernel|
      ensures d != -1 ==> 0 <= d < |old(role)| && old(role)[d] == Avail && IsDir(M(), d) && NoTables(M(), d, USER, NENT)
      ensures d != -1 ==> NewOnly(old(M()), M(), d, -1)
      ensures Step(old(M()), M(), Setup(|kernel|))
    {
      hide Frames, FreeOk, SameMaps, Keeps, NewOnly, NoTables, Drained, Step, NoUsers, DirRoles, Blank, FrameOk;
      ghost var m0 := M();
      KeepsRefl(m0, -1);
      d := Kalloc();
      if d == -1 {
        NoneToDrain(m0);
        SetupStep(m0, M(), -1, |kernel|);
        return;
      }
      ghost var m1 := M();
      pages := pages[d := Blank(NENT)];
      role := role[d := DirOf];
      DirKeeps(m1, d);
      DirNew(m0, m1, M(), d);
      for i := 0 to |kernel|
        invariant Inv(M()) && IsDir(M(), d) && SameMaps(m0, M()) && Keeps(m0, M(), -1) && NewOnly(m0, M(), d, -1)
        invariant NoTables(M(), d, USER, USER + i) && |free| == |m0.free| - 1 - i
      {
        ghost var m2 := M();
        var t := Kalloc();
        if t == -1 {
          NoUserTables(m2, d, USER + i);
          role := DirRoles(m2, d, |role|, Held);
          AbandonKeeps(m2, M(), d);
          AbandonDrains(m0, m2, M(), d);
          SetupStep(m0, M(), -1, |kernel|);
          return -1;
        }
        ghost var m3 := M();
        NoTableYet(m2, d, USER + i);
        TableMade(m2, m3, d, USER + i, t, kernel[i]);
        pages := pages[t := kernel[i]];
        pages := pages[d := pages[d][USER + i := Mk(t, PERM)]];
        role := role[t := TableOf(d, USER + i)];
        assert M() == Tabled(SetPage(m3, t, kernel[i]), d, USER + i, t);
        KernelTables(m2, M(), d, USER + i);
        SameMapsTrans(m0, m2, M());
        KeepsTrans(m0, m2, M());
        NewTrans(m0, m2, M(), d, -1);
      }
      FewTables(M(), d, USER + |kernel|);
      SetupStep(m0, M(), d, |kernel|);
    }

    /** `copyuvm`. */
    method Copyuvm(d: nat, sz: nat, kernel: seq<Page>) returns (nd: int)
      requires Inv(M()) && IsDir(M(), d) && sz <= KERNBASE && PgUp(sz) <= NVPN && forall v: nat ::
        v < PgUp(sz) ==> Mapped(M(), d, v)
      requires |kernel| <= NENT - USER && forall i :: 0 <= i < |kernel| ==> |kernel[i]| == NENT
      modifies this
      ensures Inv(M()) && Restored(old(M()), M()) && Keeps(old(M()), M(), -1)
      ensures nd != -1 <==> |old(free)| >= 1 + |kernel| + PgUp(sz) + TablesFor(PgUp(sz))
      ensures nd != -1 ==> nd >= 0 && Copied(old(M()), M(), d, nd, PgUp(sz)) && NewOnly(old(M()), M(), nd, -1)
      ensures nd != -1 ==> |free| == |old(free)| - 1 - |kernel| - PgUp(sz) - TablesFor(PgUp(sz))
      ensures nd == -1 ==> OnlyLost(old(M()), M()) && |free| == |old(free)| - CopyLoss(|old(free)|, |kernel|, PgUp(sz))
      ensures nd == -1 ==> (role == old(role) <==> !ShortOfTable(|old(free)|, |kernel|, PgUp(sz)))
      ensures Step(old(M()), M(), Copy(|kernel|, PgUp(sz)))
    {
      hide Frames, FreeOk, SameMaps, Keeps, NewOnly, NoTables, Placed, Copied, Restored, ButDir, Gone, WithTable,
        TablesUpTo, Owned, ShortOfTable, TablesFor, PgUp, Mapped, Drained, OnlyLost, Step;
      ghost var m0, n := M(), PgUp(sz);
      PgUpBelow(sz);
      nd := Setupkvm(kernel);
      ButDirStart(m0, M(), if nd == -1 then d else nd);
      if nd == -1 {
        SameIsRestored(m0, M());
        NoDirectory(|m0.free|, |kernel|, n);
        DrainedLoses(m0, M());
        CopyStep(m0, M(), -1, |kernel|, n);
        return;
      }
      SameSize(m0, M(), -1);
      CopiedNone(m0, M(), d, nd);
      TablesNone(M(), nd);
      var a, i := 0, 0;
      while a < sz
        invariant i <= n && a == i * PGSIZE && Inv(M()) && |pages| == |m0.pages| && IsDir(M(), nd)
        invariant Copied(m0, M(), d, nd, i) && ButDir(m0, M(), nd) && Keeps(m0, M(), -1) && NewOnly(m0, M(), nd, -1)
        invariant TablesUpTo(M(), nd, i) && |free| == |m0.free| - 1 - |kernel| - i - TablesFor(i)
        decreases sz - a
      {
        assert i < n;
        ghost var m1 := M();
        SourcePage(m0, m1, d, nd, i);
        TableThere(m1, nd, i);
        var t := Addr(pages[d][i / NENT]);
        var pa := Addr(pages[t][i % NENT]);
        var mem, ok := PutOne(nd, i, pages[pa]);
        ghost var m2 := M();
        KeepsTrans(m0, m1, m2);
        if !ok {
          if mem == -1 {
            OutOfPages(|m0.free|, |kernel|, n, i);
            SameMapsRefl(m1);
          } else {
            OutOfTables(|m0.free|, |kernel|, n, i);
            NewTrans(m0, m1, m2, nd, mem);
          }
          ButDirMore(m0, m1, m2, nd, i, false);
          Freevm(nd);
          CopyFailed(m0, m2, M(), nd, mem);
          CopyStep(m0, M(), -1, |kernel|, n);
          return -1;
        }
        PlacedOne(m1, m2, nd, i, m1.pages[pa]);
        ButDirMore(m0, m1, m2, nd, i, true);
        CopiedMore(m0, m1, m2, d, nd, i);
        NewTrans(m0, m1, m2, nd, -1);
        TablesMore(m1, m2, nd, i);
        a := a + PGSIZE;
        i := i + 1;
      }
      Plenty(|m0.free|, |kernel|, n);
      CopyDone(m0, M(), nd);
      CopyStep(m0, M(), nd, |kernel|, n);
    }
  }
}
