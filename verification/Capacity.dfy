/** Exactly which blocks a write takes and which sectors it logs, from the disk before it (fs.c, log.c). */
module Capacity {
  import opened Sectors
  import opened FileIndex
  import opened FileBytes

  const CHUNK := 1536   // ((LOGSIZE-1-1-2) / 2) * 512
  const LOGMAX := 9     // log_write panics on entry with this many sectors logged (LOGSIZE 10, nlog 10)

  // ---------- the sectors logged ----------

  predicate HasParent(s: Slot) { s.IndEntry? || s.DindTable? || s.DindEntry? }

  /** The slot of the index block that slot s is recorded in. */
  function ParentOf(s: Slot): Slot
    requires HasParent(s)
  {
    match s
    case IndEntry(_) => Ind
    case DindTable(_) => Dind
    case DindEntry(j, _) => DindTable(j)
  }

  function WithParents(slots: set<Slot>): set<Slot>
  {
    slots + set s | s in slots && HasParent(s) :: ParentOf(s)
  }

  /** The slots of the blocks acquired between two ownership maps. */
  ghost function NewSlots(own0: map<nat, Owner>, own: map<nat, Owner>): set<Slot>
  {
    set x | x in own && x !in own0 && own[x].File? :: own[x].s
  }

  /** What acquiring them logs: their bitmap blocks, themselves, and the index blocks that record them. */
  ghost function NewSectors(g: Super, own0: map<nat, Owner>, own: map<nat, Owner>, blocks: seq<Sector>,
                            ino: Inode): set<nat>
  {
    NewMaps(g, own0, own) + Addrs(blocks, ino, WithParents(NewSlots(own0, own)))
  }

  function DataSlots(a: nat, e: nat): set<Slot>
  {
    set k: nat | a <= k < e :: SlotOf(k)
  }

  /** What writing file blocks a to e logs: that, and the file blocks. */
  ghost function WriteSectors(g: Super, own0: map<nat, Owner>, own: map<nat, Owner>, blocks: seq<Sector>, ino: Inode,
                              a: nat, e: nat): set<nat>
  {
    NewSectors(g, own0, own, blocks, ino) + Addrs(blocks, ino, DataSlots(a, e))
  }

  lemma ParentThere(blocks: seq<Sector>, ino: Inode, s: Slot)
    requires HasParent(s) && Addr(blocks, ino, s) != 0
    ensures Addr(blocks, ino, ParentOf(s)) != 0
  {
    hide Word;
  }

  /** Addresses that are there are the same later on. */
  ghost predicate Later(blocks: seq<Sector>, ino: Inode, blocks': seq<Sector>, ino': Inode)
  {
    forall s :: Addr(blocks, ino, s) != 0 ==> Addr(blocks', ino', s) == Addr(blocks, ino, s)
  }

  lemma LaterAddrs(blocks: seq<Sector>, ino: Inode, blocks': seq<Sector>, ino': Inode, slots: set<Slot>)
    requires Later(blocks, ino, blocks', ino') && forall s :: s in slots ==> Addr(blocks, ino, s) != 0
    ensures Addrs(blocks', ino', slots) == Addrs(blocks, ino, slots)
  {
    hide Addr;
  }

  lemma AddrsUnion(blocks: seq<Sector>, ino: Inode, a: set<Slot>, b: set<Slot>)
    ensures Addrs(blocks, ino, a + b) == Addrs(blocks, ino, a) + Addrs(blocks, ino, b)
  {
    hide Addr;
  }

  lemma ParentsUnion(a: set<Slot>, b: set<Slot>)
    ensures WithParents(a + b) == WithParents(a) + WithParents(b)
  {
    forall s | s in WithParents(a + b) ensures s in WithParents(a) + WithParents(b) {}
  }

  /** The acquired blocks and the index blocks that record them are there. */
  lemma NewThere(g: Super, d: Image, own0: map<nat, Owner>, i: nat)
    requires Owned(g, d.blocks, d.inodes, d.own) && i in d.inodes && OwnStep(g, own0, d.own, i)
    ensures forall s :: s in WithParents(NewSlots(own0, d.own)) ==> Addr(d.blocks, d.inodes[i], s) != 0
  {
    hide Addr, Used, BBlock;
    forall s | s in NewSlots(own0, d.own) ensures Addr(d.blocks, d.inodes[i], s) != 0 {
      var x :| x in d.own && x !in own0 && d.own[x].File? && d.own[x].s == s;
      assert Addr(d.blocks, d.inodes[i], s) == x;
    }
    forall s | s in NewSlots(own0, d.own) && HasParent(s) ensures Addr(d.blocks, d.inodes[i], ParentOf(s)) != 0 {
      ParentThere(d.blocks, d.inodes[i], s);
    }
  }

  lemma NewSlotsUnion(g: Super, own0: map<nat, Owner>, own1: map<nat, Owner>, own2: map<nat, Owner>, i: nat)
    requires OwnStep(g, own0, own1, i) && OwnStep(g, own1, own2, i)
    ensures NewSlots(own0, own2) == NewSlots(own0, own1) + NewSlots(own1, own2)
  {
    hide DataStart;
    forall s | s in NewSlots(own0, own1) ensures s in NewSlots(own0, own2) {
      var x :| x in own1 && x !in own0 && own1[x].File? && own1[x].s == s;
      assert x in own2 && own2[x] == own1[x];
    }
    forall s | s in NewSlots(own1, own2) ensures s in NewSlots(own0, own2) {
      var x :| x in own2 && x !in own1 && own2[x].File? && own2[x].s == s;
      assert x !in own0;
    }
    forall s | s in NewSlots(own0, own2) ensures s in NewSlots(own0, own1) + NewSlots(own1, own2) {
      var x :| x in own2 && x !in own0 && own2[x].File? && own2[x].s == s;
      if x in own1 { assert own2[x] == own1[x]; }
    }
  }

  /** What is logged adds up. */
  lemma SectorsTrans(g: Super, own0: map<nat, Owner>, d1: Image, d2: Image, i: nat)
    requires Owned(g, d1.blocks, d1.inodes, d1.own) && i in d1.inodes && i in d2.inodes
    requires OwnStep(g, own0, d1.own, i) && OwnStep(g, d1.own, d2.own, i)
    requires Later(d1.blocks, d1.inodes[i], d2.blocks, d2.inodes[i])
    ensures NewSectors(g, own0, d2.own, d2.blocks, d2.inodes[i])
         == NewSectors(g, own0, d1.own, d1.blocks, d1.inodes[i]) + NewSectors(g, d1.own, d2.own, d2.blocks,
           d2.inodes[i])
  {
    NewThere(g, d1, own0, i);
    OwnStepTrans(g, own0, d1.own, d2.own, i);
    NewSlotsUnion(g, own0, d1.own, d2.own, i);
    hide Owned, OwnStep, NewMaps, NewSlots, Addrs, WithParents, Addr;
    var a, b := NewSlots(own0, d1.own), NewSlots(d1.own, d2.own);
    ParentsUnion(a, b);
    AddrsUnion(d2.blocks, d2.inodes[i], WithParents(a), WithParents(b));
    LaterAddrs(d1.blocks, d1.inodes[i], d2.blocks, d2.inodes[i], WithParents(a));
  }

  /** One block acquired, for slot s. */
  lemma OneSector(g: Super, own: map<nat, Owner>, i: nat, s: Slot, x: nat, blocks: seq<Sector>, ino: Inode)
    requires x !in own && Addr(blocks, ino, s) == x != 0
    ensures NewSectors(g, own, own[x := File(i, s)], blocks, ino) == {BBlock(g, x), x}
      + if HasParent(s) then Addrs(blocks, ino, {ParentOf(s)}) else {}
  {
    hide Addr, BBlock;
    var own' := own[x := File(i, s)];
    assert own'[x] == File(i, s);
    assert NewSlots(own, own') == {s};
    assert NewMaps(g, own, own') == {BBlock(g, x)};
    if HasParent(s) {
      assert ParentOf(s) in WithParents({s});
      assert WithParents({s}) == {s} + {ParentOf(s)};
      AddrsUnion(blocks, ino, {s}, {ParentOf(s)});
    } else {
      assert WithParents({s}) == {s};
    }
    assert Addrs(blocks, ino, {s}) == {x};
  }

  lemma NoSector(g: Super, own: map<nat, Owner>, blocks: seq<Sector>, ino: Inode)
    ensures NewSectors(g, own, own, blocks, ino) == {}
  {
  }

  /** File block e has been found or made, written and logged. */
  lemma SectorsMore(g: Super, own0: map<nat, Owner>, d1: Image, d2: Image, blocks: seq<Sector>, i: nat, a: nat, e: nat)
    requires Owned(g, d1.blocks, d1.inodes, d1.own) && Owned(g, d2.blocks, d2.inodes, d2.own)
    requires i in d1.inodes && i in d2.inodes && a <= e
    requires OwnStep(g, own0, d1.own, i) && OwnStep(g, d1.own, d2.own, i)
    requires Later(d1.blocks, d1.inodes[i], d2.blocks, d2.inodes[i])
    requires forall s :: Addr(blocks, d2.inodes[i], s) == Addr(d2.blocks, d2.inodes[i], s)
    requires (forall k: nat :: a <= k < e ==> Mapped(d1.blocks, d1.inodes[i], k)) && Mapped(d2.blocks, d2.inodes[i], e)
    ensures WriteSectors(g, own0, d2.own, blocks, d2.inodes[i], a, e + 1)
         == WriteSectors(g, own0, d1.own, d1.blocks, d1.inodes[i], a, e)
          + NewSectors(g, d1.own, d2.own, d2.blocks, d2.inodes[i]) + {Addr(d2.blocks, d2.inodes[i], SlotOf(e)) as nat}
  {
    SectorsTrans(g, own0, d1, d2, i);
    hide Owned, OwnStep, NewMaps, NewSlots, WithParents, Addr, SlotOf, Addrs, DataSlots;
    var ino := d2.inodes[i];
    SameAddrs(d2.blocks, ino, blocks, WithParents(NewSlots(own0, d2.own)));
    SameAddrs(d2.blocks, ino, blocks, DataSlots(a, e + 1));
    DataMore(d1.blocks, d1.inodes[i], d2.blocks, ino, a, e);
  }

  lemma SameAddrs(blocks: seq<Sector>, ino: Inode, blocks': seq<Sector>, slots: set<Slot>)
    requires forall s :: Addr(blocks', ino, s) == Addr(blocks, ino, s)
    ensures Addrs(blocks', ino, slots) == Addrs(blocks, ino, slots)
  {
    hide Addr;
  }

  lemma DataMore(blocks: seq<Sector>, ino: Inode, blocks': seq<Sector>, ino': Inode, a: nat, e: nat)
    requires a <= e && Later(blocks, ino, blocks', ino')
    requires (forall k: nat :: a <= k < e ==> Mapped(blocks, ino, k)) && Mapped(blocks', ino', e)
    ensures Addrs(blocks', ino', DataSlots(a, e + 1))
         == Addrs(blocks, ino, DataSlots(a, e)) + {Addr(blocks', ino', SlotOf(e)) as nat}
  {
    hide Addr, SlotOf;
    var data := DataSlots(a, e);
    forall s | s in data ensures Addr(blocks, ino, s) != 0 {
      var k: nat :| a <= k < e && s == SlotOf(k);
      assert Mapped(blocks, ino, k);
    }
    DataOne(a, e);
    hide DataSlots;
    AddrsUnion(blocks', ino', data, {SlotOf(e)});
    LaterAddrs(blocks, ino, blocks', ino', data);
    assert Addrs(blocks', ino', {SlotOf(e)}) == {Addr(blocks', ino', SlotOf(e)) as nat};
  }

  lemma DataOne(a: nat, e: nat)
    requires a <= e
    ensures DataSlots(a, e + 1) == DataSlots(a, e) + {SlotOf(e)}
  {
    hide SlotOf;
    forall s | s in DataSlots(a, e + 1) ensures s in DataSlots(a, e) + {SlotOf(e)} {}
    var k := e;
    assert SlotOf(k) in DataSlots(a, e + 1);
  }

  lemma WriteNothing(g: Super, own: map<nat, Owner>, blocks: seq<Sector>, ino: Inode, a: nat)
    ensures WriteSectors(g, own, own, blocks, ino, a, a) == {}
  {
    NoSector(g, own, blocks, ino);
    assert DataSlots(a, a) == {};
  }

  // ---------- a write that finds no free block ----------

  /** Between d0 and d, inode i has kept its blocks and acquired some at these slots. */
  ghost predicate Partly(g: Super, d0: Image, d: Image, i: nat, slots: set<Slot>)
  {
    && Owned(g, d.blocks, d.inodes, d.own) && OwnStep(g, d0.own, d.own, i) && i in d0.inodes && i in d.inodes
    && Later(d0.blocks, d0.inodes[i], d.blocks, d.inodes[i])
    && d.own.Keys - d0.own.Keys <= Addrs(d.blocks, d.inodes[i], slots)
  }

  /** And one of the slots still has none. */
  ghost predicate Stopped(g: Super, d0: Image, d: Image, i: nat, slots: set<Slot>)
  {
    Partly(g, d0, d, i, slots) && exists s :: s in slots && Addr(d.blocks, d.inodes[i], s) == 0
  }

  lemma StoppedHere(g: Super, d: Image, i: nat, s: Slot, slots: set<Slot>)
    requires Owned(g, d.blocks, d.inodes, d.own) && i in d.inodes && s in slots && Addr(d.blocks, d.inodes[i], s) == 0
    ensures Stopped(g, d, d, i, slots)
  {
    hide Owned, Addr, Addrs;
  }

  lemma StoppedAfter(g: Super, d0: Image, d1: Image, d2: Image, i: nat, s1: set<Slot>, s2: set<Slot>, slots: set<Slot>)
    requires Partly(g, d0, d1, i, s1) && Stopped(g, d1, d2, i, s2) && s1 <= slots && s2 <= slots
    ensures Stopped(g, d0, d2, i, slots)
  {
    hide Owned, Addr;
    OwnStepTrans(g, d0.own, d1.own, d2.own, i);
    hide OwnStep;
    forall x | x in d2.own.Keys - d0.own.Keys ensures x in Addrs(d2.blocks, d2.inodes[i], slots) {
      if x in d1.own {
        assert x in Addrs(d1.blocks, d1.inodes[i], s1);
        var s :| s in s1 && Addr(d1.blocks, d1.inodes[i], s) != 0 && x == Addr(d1.blocks, d1.inodes[i], s);
        assert Addr(d2.blocks, d2.inodes[i], s) == x;
      } else {
        assert x in Addrs(d2.blocks, d2.inodes[i], s2);
      }
    }
  }

  lemma GrewPartly(g: Super, d0: Image, logged0: set<nat>, d: Image, logged: set<nat>, i: nat, slots: set<Slot>)
    requires Owned(g, d0.blocks, d0.inodes, d0.own) && Owned(g, d.blocks, d.inodes, d.own)
    requires Grew(g, d0.blocks, d0.inodes, d0.own, logged0, d.blocks, d.inodes, d.own, logged, i, slots)
    ensures Partly(g, d0, d, i, slots)
  {
    hide Addr, Used, BBlock, NewMaps, DataKept, OnlyLogged, InodesKept;
    forall s | Addr(d0.blocks, d0.inodes[i], s) != 0
      ensures Addr(d.blocks, d.inodes[i], s) == Addr(d0.blocks, d0.inodes[i], s)
    {
      assert SlotStep(d0.blocks, d0.inodes[i], d.blocks, d.inodes[i], s, i, i, slots);
    }
    forall x | x in d.own.Keys - d0.own.Keys ensures x in Addrs(d.blocks, d.inodes[i], slots) {
      var s := d.own[x].s;
      assert Addr(d.blocks, d.inodes[i], s) == x;
      assert SlotStep(d0.blocks, d0.inodes[i], d.blocks, d.inodes[i], s, i, i, slots);
    }
  }

  lemma WrotePartly(g: Super, d0: Image, logged0: set<nat>, d: Image, logged: set<nat>, i: nat, off: nat, cur: nat,
                    src: seq<byte>, slots: set<Slot>)
    requires Owned(g, d0.blocks, d0.inodes, d0.own) && Owned(g, d.blocks, d.inodes, d.own)
    requires Wrote(g, d0.blocks, d0.inodes, d0.own, logged0, d.blocks, d.inodes, d.own, logged, i, off, cur, src, slots)
    ensures Partly(g, d0, d, i, slots)
  {
    NewBlocks(g, d0.blocks, d0.inodes, d0.own, logged0, d.blocks, d.inodes, d.own, logged, i, off, cur, src, slots);
    hide Addr, Owned, NewMaps, ByteStep, OnlyLogged, InodesKept, OwnStep, Addrs;
    forall s | Addr(d0.blocks, d0.inodes[i], s) != 0
      ensures Addr(d.blocks, d.inodes[i], s) == Addr(d0.blocks, d0.inodes[i], s)
    {
      assert AddrStep(d0.blocks, d0.inodes[i], d.blocks, d.inodes[i], s, i, i, slots);
    }
  }

  /** If no block is free then, there were fewer free blocks before than slots without a block. */
  lemma StoppedCount(g: Super, d0: Image, d: Image, i: nat, off: nat, n: nat)
    requires Owned(g, d0.blocks, d0.inodes, d0.own) && Free(g, d.blocks) == {}
    requires Stopped(g, d0, d, i, Paths(off / BSIZE, BlockEnd(off, n)))
    ensures |Free(g, d0.blocks)| < |EmptySlots(d0.blocks, d0.inodes[i], off, n)|
  {
    hide Addr, Addrs, Paths, BlockEnd, Free, LowerPart, Owned, OwnStep, Later;
    TakenLowest(g, d0, d, i);
    var path := Paths(off / BSIZE, BlockEnd(off, n));
    var empty := EmptySlots(d0.blocks, d0.inodes[i], off, n);
    var filled := set s | s in empty && Addr(d.blocks, d.inodes[i], s) != 0;
    forall x | x in Free(g, d0.blocks) ensures x in Addrs(d.blocks, d.inodes[i], filled) {
      var s := TakenAt(g, d0, d, i, path, x);
      AddrIn(d.blocks, d.inodes[i], filled, s);
    }
    CardLe(Free(g, d0.blocks), Addrs(d.blocks, d.inodes[i], filled));
    AddrsSmall(d.blocks, d.inodes[i], filled);
    var s := EmptyBefore(g, d0, d, i, path);
    SlotsLe(filled + {s}, empty);
  }

  lemma AddrIn(blocks: seq<Sector>, ino: Inode, slots: set<Slot>, s: Slot)
    requires s in slots && Addr(blocks, ino, s) != 0
    ensures Addr(blocks, ino, s) in Addrs(blocks, ino, slots)
  {
    hide Addr;
  }

  lemma EmptyBefore(g: Super, d0: Image, d: Image, i: nat, slots: set<Slot>) returns (s: Slot)
    requires Stopped(g, d0, d, i, slots)
    ensures s in slots && Addr(d.blocks, d.inodes[i], s) == 0 && Addr(d0.blocks, d0.inodes[i], s) == 0
  {
    hide Addr, Owned, OwnStep, Addrs;
    s :| s in slots && Addr(d.blocks, d.inodes[i], s) == 0;
  }

  /** A block acquired is at a slot that had none. */
  lemma TakenAt(g: Super, d0: Image, d: Image, i: nat, slots: set<Slot>, x: nat) returns (s: Slot)
    requires Owned(g, d0.blocks, d0.inodes, d0.own) && Partly(g, d0, d, i, slots) && x in d.own.Keys - d0.own.Keys
    ensures s in slots && x == Addr(d.blocks, d.inodes[i], s) != 0 && Addr(d0.blocks, d0.inodes[i], s) == 0
  {
    hide Addr, OwnStep, Used, BBlock;
    assert x in Addrs(d.blocks, d.inodes[i], slots);
    s :| s in slots && Addr(d.blocks, d.inodes[i], s) != 0 && x == Addr(d.blocks, d.inodes[i], s);
  }

  lemma SlotsLe(a: set<Slot>, b: set<Slot>)
    requires a <= b
    ensures |a| <= |b|
  {
    assert b == a + (b - a);
  }

  // ---------- the blocks taken ----------

  function Under(s: set<nat>, x: nat): set<nat> { set y | y in s && y < x }

  /** The k least elements. */
  function Lowest(s: set<nat>, k: nat): set<nat>
  {
    set x | x in s && |Under(s, x)| < k
  }

  /** A part of s below the rest. */
  predicate LowerPart(s: set<nat>, t: set<nat>)
  {
    t <= s && forall x, y :: x in t && y in s && y !in t ==> x < y
  }

  lemma LowestIs(s: set<nat>, t: set<nat>)
    requires LowerPart(s, t)
    ensures t == Lowest(s, |t|)
  {
    forall x | x in t ensures x in Lowest(s, |t|) {
      CardLe(Under(s, x), t - {x});
    }
    forall x | x in Lowest(s, |t|) ensures x in t {
      if x !in t { CardLe(t, Under(s, x)); }
    }
  }

  /** The slots on the way to n bytes at off that have no block. */
  function EmptySlots(blocks: seq<Sector>, ino: Inode, off: nat, n: nat): set<Slot>
  {
    set s | s in Paths(off / BSIZE, BlockEnd(off, n)) && Addr(blocks, ino, s) == 0
  }

  /** The slots whose blocks a write of n bytes at off logs, if it fills those in `empty`. */
  function LoggedSlots(empty: set<Slot>, off: nat, n: nat): set<Slot>
  {
    WithParents(empty) + DataSlots(off / BSIZE, BlockEnd(off, n))
  }

  function MapsOf(g: Super, xs: set<nat>): set<nat>
  {
    set x | x in xs :: BBlock(g, x)
  }

  /** What a write of n bytes at off takes: the lowest free blocks, one for each empty slot. */
  ghost predicate Took(g: Super, blocks0: seq<Sector>, ino0: Inode, blocks: seq<Sector>, ino: Inode, off: nat, n: nat)
  {
    && (forall s ::
       Addr(blocks, ino, s) == 0 <==> Addr(blocks0, ino0, s) == 0 && s !in Paths(off / BSIZE, BlockEnd(off, n)))
    && Free(g, blocks) <= Free(g, blocks0) && LowerPart(Free(g, blocks0), Free(g, blocks0) - Free(g, blocks))
    && |Free(g, blocks0) - Free(g, blocks)| == |EmptySlots(blocks0, ino0, off, n)|
  }

  /** The chunk of n bytes after the first k of a write at off trips log_write's capacity check, from
      the state before the write: the file grows, and the bitmap blocks of the free blocks that are
      the chunk's turn and the sectors of the slots it logs are nine or more. */
  ghost predicate Trips(g: Super, blocks: seq<Sector>, ino: Inode, off: nat, k: nat, n: nat)
  {
    var free, empty0, empty := Free(g, blocks), EmptySlots(blocks, ino, off, k), EmptySlots(blocks, ino, off, k + n);
    && off + k + n > ino.size
    && |MapsOf(g, Lowest(free, |empty|) - Lowest(free, |empty0|))| + |LoggedSlots(empty - empty0, off + k, n)| >= LOGMAX
  }

  lemma {:induction false} PathsHas(a: nat, b: nat, k: nat)
    requires a <= k < b
    ensures Path(k) <= Paths(a, b)
    decreases b
  {
    hide Path;
    if k < b - 1 { PathsHas(a, b - 1, k); }
  }

  lemma DataOnPaths(a: nat, b: nat)
    ensures DataSlots(a, b) <= Paths(a, b)
  {
    hide Path, Paths, SlotOf;
    forall s | s in DataSlots(a, b) ensures s in Paths(a, b) {
      var k: nat :| a <= k < b && s == SlotOf(k);
      PathsHas(a, b, k);
      SlotOnPath(k);
    }
  }

  /** A slot that was empty holds a block acquired since, and a block acquired was put at such a slot. */
  lemma SlotIsNew(g: Super, d0: Image, d1: Image, i: nat, s: Slot)
    requires Owned(g, d0.blocks, d0.inodes, d0.own) && Owned(g, d1.blocks, d1.inodes, d1.own)
    requires OwnStep(g, d0.own, d1.own, i) && i in d0.inodes && i in d1.inodes
    requires Later(d0.blocks, d0.inodes[i], d1.blocks, d1.inodes[i]) && Addr(d1.blocks, d1.inodes[i], s) != 0
    ensures var x: nat := Addr(d1.blocks, d1.inodes[i], s);
            x in d1.own && d1.own[x] == File(i, s) && (x !in d0.own <==> Addr(d0.blocks, d0.inodes[i], s) == 0)
  {
    hide Addr, Used, BBlock;
  }

  /** The blocks acquired are the lowest free ones. */
  lemma TakenLowest(g: Super, d0: Image, d1: Image, i: nat)
    requires Owned(g, d0.blocks, d0.inodes, d0.own) && Owned(g, d1.blocks, d1.inodes, d1.own)
      && OwnStep(g, d0.own, d1.own, i)
    ensures Free(g, d1.blocks) <= Free(g, d0.blocks)
    ensures Free(g, d0.blocks) - Free(g, d1.blocks) == d1.own.Keys - d0.own.Keys
    ensures LowerPart(Free(g, d0.blocks), d1.own.Keys - d0.own.Keys)
  {
    FreeIsUnowned(g, d0.blocks, d0.inodes, d0.own);
    FreeIsUnowned(g, d1.blocks, d1.inodes, d1.own);
    hide Owned, Free, DataStart;
  }

  /** The conditions under which a write of n bytes at off has been made, with all its blocks there. */
  ghost predicate Made(g: Super, d0: Image, d1: Image, i: nat, off: nat, n: nat)
  {
    && Owned(g, d0.blocks, d0.inodes, d0.own) && Owned(g, d1.blocks, d1.inodes, d1.own)
    && OwnStep(g, d0.own, d1.own, i) && i in d0.inodes && i in d1.inodes
    && Later(d0.blocks, d0.inodes[i], d1.blocks, d1.inodes[i])
    && d1.own.Keys - d0.own.Keys <= Addrs(d1.blocks, d1.inodes[i], Paths(off / BSIZE, BlockEnd(off, n)))
    && forall s :: s in Paths(off / BSIZE, BlockEnd(off, n)) ==> Addr(d1.blocks, d1.inodes[i], s) != 0
  }

  lemma EmptyIsNew(g: Super, d0: Image, d1: Image, i: nat, off: nat, n: nat, s: Slot)
    requires Made(g, d0, d1, i, off, n) && s in EmptySlots(d0.blocks, d0.inodes[i], off, n)
    ensures var x: nat := Addr(d1.blocks, d1.inodes[i], s);
            x != 0 && x in d1.own && x !in d0.own && d1.own[x] == File(i, s) && s in NewSlots(d0.own, d1.own)
  {
    hide Addr, Owned, OwnStep, Paths;
    SlotIsNew(g, d0, d1, i, s);
  }

  lemma NewIsEmpty(g: Super, d0: Image, d1: Image, i: nat, off: nat, n: nat, x: nat)
    requires Made(g, d0, d1, i, off, n) && x in d1.own && x !in d0.own
    ensures d1.own[x].File? && d1.own[x].s in EmptySlots(d0.blocks, d0.inodes[i], off, n)
    ensures Addr(d1.blocks, d1.inodes[i], d1.own[x].s) == x != 0
  {
    hide Addr, Owned, OwnStep, Paths;
    var path := Paths(off / BSIZE, BlockEnd(off, n));
    assert x in Addrs(d1.blocks, d1.inodes[i], path);
    var s :| s in path && Addr(d1.blocks, d1.inodes[i], s) != 0 && x == Addr(d1.blocks, d1.inodes[i], s);
    SlotIsNew(g, d0, d1, i, s);
  }

  lemma EmptyAfter(g: Super, d0: Image, d1: Image, i: nat, off: nat, n: nat, s: Slot)
    requires Made(g, d0, d1, i, off, n)
    ensures Addr(d1.blocks, d1.inodes[i], s) == 0
            <==> Addr(d0.blocks, d0.inodes[i], s) == 0 && s !in Paths(off / BSIZE, BlockEnd(off, n))
  {
    hide Addr, Owned, OwnStep, Paths;
    if Addr(d1.blocks, d1.inodes[i], s) != 0 && Addr(d0.blocks, d0.inodes[i], s) == 0 {
      SlotIsNew(g, d0, d1, i, s);
      NewIsEmpty(g, d0, d1, i, off, n, Addr(d1.blocks, d1.inodes[i], s));
    }
  }

  /** The slots filled are the empty ones, and the blocks acquired are at them. */
  lemma NewSlotsEmpty(g: Super, d0: Image, d1: Image, i: nat, off: nat, n: nat)
    requires Made(g, d0, d1, i, off, n)
    ensures NewSlots(d0.own, d1.own) == EmptySlots(d0.blocks, d0.inodes[i], off, n)
    ensures d1.own.Keys - d0.own.Keys == Addrs(d1.blocks, d1.inodes[i], EmptySlots(d0.blocks, d0.inodes[i], off, n))
    ensures |d1.own.Keys - d0.own.Keys| == |EmptySlots(d0.blocks, d0.inodes[i], off, n)|
  {
    assert Owned(g, d1.blocks, d1.inodes, d1.own);
    hide Addr, Made, EmptySlots, Owned;
    var empty := EmptySlots(d0.blocks, d0.inodes[i], off, n);
    forall s | s in empty ensures s in NewSlots(d0.own, d1.own) && Addr(d1.blocks, d1.inodes[i], s) != 0 {
      EmptyIsNew(g, d0, d1, i, off, n, s);
    }
    AddrsExact(g, d1.blocks, d1.inodes, d1.own, i, empty);
    forall s | s in NewSlots(d0.own, d1.own) ensures s in empty {
      var x :| x in d1.own && x !in d0.own && d1.own[x].File? && d1.own[x].s == s;
      NewIsEmpty(g, d0, d1, i, off, n, x);
    }
    forall x | x in d1.own.Keys - d0.own.Keys ensures x in Addrs(d1.blocks, d1.inodes[i], empty) {
      NewIsEmpty(g, d0, d1, i, off, n, x);
    }
    forall x | x in Addrs(d1.blocks, d1.inodes[i], empty) ensures x in d1.own.Keys - d0.own.Keys {
      var s :| s in empty && Addr(d1.blocks, d1.inodes[i], s) != 0 && x == Addr(d1.blocks, d1.inodes[i], s);
      EmptyIsNew(g, d0, d1, i, off, n, s);
    }
  }

  lemma MadeTook(g: Super, d0: Image, d1: Image, i: nat, off: nat, n: nat)
    requires Made(g, d0, d1, i, off, n)
    ensures Took(g, d0.blocks, d0.inodes[i], d1.blocks, d1.inodes[i], off, n)
    ensures Free(g, d0.blocks) - Free(g, d1.blocks) == d1.own.Keys - d0.own.Keys
  {
    NewSlotsEmpty(g, d0, d1, i, off, n);
    assert Owned(g, d0.blocks, d0.inodes, d0.own) && Owned(g, d1.blocks, d1.inodes, d1.own) by { hide Owned, OwnStep; }
    hide Addr, Made, Owned, OwnStep, Paths, Free, LowerPart, EmptySlots;
    TakenLowest(g, d0, d1, i);
    forall s ensures Addr(d1.blocks, d1.inodes[i], s) == 0
                     <==> Addr(d0.blocks, d0.inodes[i], s) == 0 && s !in Paths(off / BSIZE, BlockEnd(off, n)) {
      EmptyAfter(g, d0, d1, i, off, n, s);
    }
  }

  /** The sectors logged are the bitmap blocks of the lowest free blocks and the blocks of the slots. */
  lemma MadeSectors(g: Super, d0: Image, d1: Image, i: nat, off: nat, n: nat)
    requires Made(g, d0, d1, i, off, n)
    ensures var empty := EmptySlots(d0.blocks, d0.inodes[i], off, n);
            WriteSectors(g, d0.own, d1.own, d1.blocks, d1.inodes[i], off / BSIZE, BlockEnd(off, n))
            == MapsOf(g, Lowest(Free(g, d0.blocks), |empty|)) + Addrs(d1.blocks, d1.inodes[i],
              LoggedSlots(empty, off, n))
  {
    NewSlotsEmpty(g, d0, d1, i, off, n);
    MadeTook(g, d0, d1, i, off, n);
    assert Owned(g, d1.blocks, d1.inodes, d1.own) by { hide Owned, OwnStep; }
    hide Addr, Made, Owned, Free, LowerPart, WithParents, DataSlots, EmptySlots, Lowest, NewMaps, MapsOf;
    LowestIs(Free(g, d0.blocks), d1.own.Keys - d0.own.Keys);
    MapsAre(g, d0, d1);
    var empty := EmptySlots(d0.blocks, d0.inodes[i], off, n);
    AddrsUnion(d1.blocks, d1.inodes[i], WithParents(empty), DataSlots(off / BSIZE, BlockEnd(off, n)));
  }

  lemma SlotsThere(g: Super, d0: Image, d1: Image, i: nat, off: nat, n: nat)
    requires Made(g, d0, d1, i, off, n)
    ensures forall s :: s in LoggedSlots(EmptySlots(d0.blocks, d0.inodes[i], off, n), off, n)
              ==> Addr(d1.blocks, d1.inodes[i], s) != 0
  {
    NewSlotsEmpty(g, d0, d1, i, off, n);
    hide Addr, Owned, OwnStep, Paths, NewSlots, EmptySlots, WithParents, DataSlots;
    NewThere(g, d1, d0.own, i);
    DataOnPaths(off / BSIZE, BlockEnd(off, n));
  }

  lemma MadeCount(g: Super, d0: Image, d1: Image, i: nat, off: nat, n: nat)
    requires Made(g, d0, d1, i, off, n)
    ensures var empty := EmptySlots(d0.blocks, d0.inodes[i], off, n);
            |WriteSectors(g, d0.own, d1.own, d1.blocks, d1.inodes[i], off / BSIZE, BlockEnd(off, n))|
            == |MapsOf(g, Lowest(Free(g, d0.blocks), |empty|))| + |LoggedSlots(empty, off, n)|
  {
    MadeSectors(g, d0, d1, i, off, n);
    SlotsThere(g, d0, d1, i, off, n);
    assert Owned(g, d1.blocks, d1.inodes, d1.own) && Owned(g, d0.blocks, d0.inodes, d0.own) by { hide Owned, OwnStep; }
    hide Addr, Made, Owned, WithParents, DataSlots, EmptySlots, MapsOf, LoggedSlots, Lowest, DataStart, WriteSectors;
    var ino, empty := d1.inodes[i], EmptySlots(d0.blocks, d0.inodes[i], off, n);
    var slots := LoggedSlots(empty, off, n);
    AddrsExact(g, d1.blocks, d1.inodes, d1.own, i, slots);
    var maps, sectors := MapsOf(g, Lowest(Free(g, d0.blocks), |empty|)), Addrs(d1.blocks, ino, slots);
    forall b | b in sectors ensures b >= DataStart(g) {
      var s :| s in slots && Addr(d1.blocks, ino, s) != 0 && b == Addr(d1.blocks, ino, s);
      FreshBlock(g, d1.blocks, d1.inodes, d1.own, i, s);
    }
    MapsBelow(g, d0, |empty|);
    assert maps !! sectors;
  }

  lemma MapsBelow(g: Super, d: Image, k: nat)
    requires Owned(g, d.blocks, d.inodes, d.own)
    ensures forall b :: b in MapsOf(g, Lowest(Free(g, d.blocks), k)) ==> b < DataStart(g)
  {
    hide Addr, Used, BBlock, DataStart, Owned;
    forall b | b in MapsOf(g, Lowest(Free(g, d.blocks), k)) ensures b < DataStart(g) {
      var x :| x in Lowest(Free(g, d.blocks), k) && b == BBlock(g, x);
      BitmapBelowData(g, x);
    }
  }

  lemma MapsAre(g: Super, d0: Image, d1: Image)
    ensures NewMaps(g, d0.own, d1.own) == MapsOf(g, d1.own.Keys - d0.own.Keys)
  {
    hide BBlock;
    forall b | b in NewMaps(g, d0.own, d1.own) ensures b in MapsOf(g, d1.own.Keys - d0.own.Keys) {
      var x :| x in d1.own && x !in d0.own && b == BBlock(g, x);
      assert x in d1.own.Keys - d0.own.Keys;
    }
  }

  /** So the check is tripped by the inode's log_write exactly if the first chunk trips it. */
  lemma MadeTrips(g: Super, d0: Image, d1: Image, i: nat, off: nat, n: nat)
    requires Made(g, d0, d1, i, off, n) && off + n > d0.inodes[i].size
    ensures |WriteSectors(g, d0.own, d1.own, d1.blocks, d1.inodes[i], off / BSIZE, BlockEnd(off, n))| >= LOGMAX
            <==> Trips(g, d0.blocks, d0.inodes[i], off, 0, n)
  {
    assert i in d0.inodes && i in d1.inodes by { hide Owned, OwnStep; }
    hide *;
    MadeCount(g, d0, d1, i, off, n);
    FirstTrips(g, d0.blocks, d0.inodes[i], off, n);
  }

  lemma FirstTrips(g: Super, blocks: seq<Sector>, ino: Inode, off: nat, n: nat)
    ensures var empty := EmptySlots(blocks, ino, off, n);
            Trips(g, blocks, ino, off, 0, n) <==>
              off + n > ino.size
              && |MapsOf(g, Lowest(Free(g, blocks), |empty|))| + |LoggedSlots(empty, off, n)| >= LOGMAX
  {
    var free, empty := Free(g, blocks), EmptySlots(blocks, ino, off, n);
    NoSlots(blocks, ino, off);
    assert Lowest(free, |empty|) - Lowest(free, 0) == Lowest(free, |empty|) by { assert Lowest(free, 0) == {}; }
    assert empty - {} == empty;
  }

  lemma NoSlots(blocks: seq<Sector>, ino: Inode, off: nat)
    ensures EmptySlots(blocks, ino, off, 0) == {}
  {
    assert Paths(off / BSIZE, BlockEnd(off, 0)) == {};
  }

  // ---------- one chunk after another ----------

  lemma {:induction false} PathsIs(a: nat, b: nat, s: Slot)
    ensures s in Paths(a, b) <==> exists k: nat :: a <= k < b && s in Path(k)
    decreases b
  {
    hide Path;
    if a < b {
      PathsIs(a, b - 1, s);
      if s in Path(b - 1) { var k := b - 1; assert a <= k < b && s in Path(k); }
    }
  }

  lemma EndJoin(off: nat, k: nat, n: nat)
    ensures n > 0 ==> BlockEnd(off + k, n) == BlockEnd(off, k + n) > (off + k) / BSIZE
    ensures n == 0 ==> BlockEnd(off + k, n) == (off + k) / BSIZE
    ensures off / BSIZE <= BlockEnd(off, k) <= BlockEnd(off, k + n)
    ensures k == 0 ==> BlockEnd(off, k) == off / BSIZE
    ensures k > 0 ==> off / BSIZE <= (off + k) / BSIZE <= BlockEnd(off, k)
  {
  }

  lemma PathsJoin(off: nat, k: nat, n: nat)
    ensures Paths(off / BSIZE, BlockEnd(off, k + n))
         == Paths(off / BSIZE, BlockEnd(off, k)) + Paths((off + k) / BSIZE, BlockEnd(off + k, n))
  {
    EndJoin(off, k, n);
    hide Path, Paths, BlockEnd;
    RangeJoin(off / BSIZE, BlockEnd(off, k), if n == 0 then
      BlockEnd(off, k) else (off + k) / BSIZE, BlockEnd(off, k + n));
    if n == 0 { NoPaths((off + k) / BSIZE); NoPaths(BlockEnd(off, k)); }
  }

  lemma NoPaths(a: nat)
    ensures Paths(a, a) == {}
  {
  }

  lemma RangeJoin(a: nat, b: nat, c: nat, e: nat)
    requires a <= c <= b <= e
    ensures Paths(a, e) == Paths(a, b) + Paths(c, e)
  {
    hide Path, Paths;
    forall s ensures s in Paths(a, e) <==> s in Paths(a, b) || s in Paths(c, e) {
      PathsIs(a, e, s);
      PathsIs(a, b, s);
      PathsIs(c, e, s);
    }
  }

  /** The slots empty before the next chunk are those of the whole that are not done. */
  lemma EmptyJoin(g: Super, blocks0: seq<Sector>, ino0: Inode, blocks1: seq<Sector>, ino1: Inode, off: nat, k: nat,
                  n: nat)
    requires Took(g, blocks0, ino0, blocks1, ino1, off, k)
    ensures var done, rest := EmptySlots(blocks0, ino0, off, k), EmptySlots(blocks1, ino1, off + k, n);
            EmptySlots(blocks0, ino0, off, k + n) == done + rest && done !! rest
  {
    PathsJoin(off, k, n);
    hide Addr, Paths, BlockEnd, Free, LowerPart;
  }

  lemma LowerJoin(f0: set<nat>, f1: set<nat>, f2: set<nat>)
    requires f2 <= f1 <= f0 && LowerPart(f0, f0 - f1) && LowerPart(f1, f1 - f2)
    ensures LowerPart(f0, f0 - f2) && |f0 - f2| == |f0 - f1| + |f1 - f2| && (f0 - f2) - (f0 - f1) == f1 - f2
  {
    assert f0 - f2 == (f0 - f1) + (f1 - f2);
  }

  lemma TookFree(g: Super, blocks0: seq<Sector>, ino0: Inode, blocks: seq<Sector>, ino: Inode, off: nat, n: nat)
    requires Took(g, blocks0, ino0, blocks, ino, off, n)
    ensures Free(g, blocks) <= Free(g, blocks0) && LowerPart(Free(g, blocks0), Free(g, blocks0) - Free(g, blocks))
    ensures |Free(g, blocks0) - Free(g, blocks)| == |EmptySlots(blocks0, ino0, off, n)|
  {
    hide Addr, Free, LowerPart, EmptySlots;
  }

  /** Too few free blocks for the rest of a write are too few for all of it. */
  lemma TookShort(g: Super, blocks0: seq<Sector>, ino0: Inode, blocks1: seq<Sector>, ino1: Inode, off: nat, k: nat,
                  n: nat)
    requires Took(g, blocks0, ino0, blocks1, ino1, off, k)
    requires |Free(g, blocks1)| < |EmptySlots(blocks1, ino1, off + k, n)|
    ensures |Free(g, blocks0)| < |EmptySlots(blocks0, ino0, off, k + n)|
  {
    hide Free, EmptySlots, LowerPart, Took;
    EmptyJoin(g, blocks0, ino0, blocks1, ino1, off, k, n);
    TookFree(g, blocks0, ino0, blocks1, ino1, off, k);
    var f0, f1 := Free(g, blocks0), Free(g, blocks1);
    var done, rest := EmptySlots(blocks0, ino0, off, k), EmptySlots(blocks1, ino1, off + k, n);
    assert f0 == f1 + (f0 - f1);
    assert |done + rest| == |done| + |rest|;
  }

  lemma EmptyLess(blocks: seq<Sector>, ino: Inode, off: nat, k: nat, k': nat)
    requires k <= k'
    ensures |EmptySlots(blocks, ino, off, k)| <= |EmptySlots(blocks, ino, off, k')|
  {
    hide Addr, Paths, BlockEnd;
    PathsJoin(off, k, k' - k);
    SlotsLe(EmptySlots(blocks, ino, off, k), EmptySlots(blocks, ino, off, k'));
  }

  lemma TookTrans(g: Super, blocks0: seq<Sector>, ino0: Inode, blocks1: seq<Sector>, ino1: Inode,
                  blocks2: seq<Sector>, ino2: Inode, off: nat, k: nat, n: nat)
    requires Took(g, blocks0, ino0, blocks1, ino1, off, k) && Took(g, blocks1, ino1, blocks2, ino2, off + k, n)
    ensures Took(g, blocks0, ino0, blocks2, ino2, off, k + n)
  {
    hide Addr, Paths, BlockEnd, Free, EmptySlots, LowerPart;
    EmptyJoin(g, blocks0, ino0, blocks1, ino1, off, k, n);
    PathsJoin(off, k, n);
    LowerJoin(Free(g, blocks0), Free(g, blocks1), Free(g, blocks2));
  }

  /** A chunk trips the check in the state it starts from exactly if it does from the first state. */
  lemma TripsShift(g: Super, blocks0: seq<Sector>, ino0: Inode, blocks1: seq<Sector>, ino1: Inode,
                   blocks2: seq<Sector>, ino2: Inode, off: nat, k: nat, n: nat)
    requires Took(g, blocks0, ino0, blocks1, ino1, off, k) && Took(g, blocks1, ino1, blocks2, ino2, off + k, n)
    requires n > 0 && ino1.size == if off + k > ino0.size then off + k else ino0.size
    ensures Trips(g, blocks1, ino1, off + k, 0, n) <==> Trips(g, blocks0, ino0, off, k, n)
  {
    hide Addr, Paths, BlockEnd, Free, EmptySlots, LowerPart, Lowest, MapsOf, LoggedSlots;
    EmptyJoin(g, blocks0, ino0, blocks1, ino1, off, k, n);
    FirstTrips(g, blocks1, ino1, off + k, n);
    var f0, f1, f2 := Free(g, blocks0), Free(g, blocks1), Free(g, blocks2);
    var done, rest := EmptySlots(blocks0, ino0, off, k), EmptySlots(blocks1, ino1, off + k, n);
    LowerJoin(f0, f1, f2);
    LowestIs(f0, f0 - f1);
    LowestIs(f1, f1 - f2);
    LowestIs(f0, f0 - f2);
    assert (done + rest) - done == rest;
  }

  // ---------- a chunk from the single- into the double-indirect range ----------

  lemma {:induction false} LeastOf(s: set<nat>) returns (x: nat)
    requires s != {}
    ensures x in s && forall y :: y in s ==> x <= y
    decreases |s|
  {
    var a :| a in s;
    var rest := s - {a};
    assert s == rest + {a};
    x := a;
    if rest != {} {
      var y := LeastOf(rest);
      if y < a { x := y; }
    }
  }

  lemma LowerNext(s: set<nat>, t: set<nat>, x: nat)
    requires LowerPart(s, t) && x in s && x !in t && forall y :: y in s && y !in t ==> x <= y
    ensures LowerPart(s, t + {x})
  {
  }

  lemma {:induction false} LowestCard(s: set<nat>, k: nat)
    requires k <= |s|
    ensures |Lowest(s, k)| == k && LowerPart(s, Lowest(s, k))
  {
    hide Lowest, LowerPart;
    if k == 0 {
      LowestNone(s);
    } else {
      LowestCard(s, k - 1);
      var t := Lowest(s, k - 1);
      LowerIn(s, t);
      assert s == t + (s - t);
      var x := LeastOf(s - t);
      LowerNext(s, t, x);
      LowestIs(s, t + {x});
    }
  }

  lemma LowestNone(s: set<nat>)
    ensures Lowest(s, 0) == {} && LowerPart(s, {})
  {
  }

  lemma LowerIn(s: set<nat>, t: set<nat>)
    requires LowerPart(s, t)
    ensures t <= s
  {
  }

  /** m is the first bitmap block with a free bit. */
  ghost predicate FirstRoom(g: Super, blocks: seq<Sector>, m: nat)
  {
    FreeIn(g, blocks, m) != {} && forall x :: x in Free(g, blocks) ==> BBlock(g, x) >= m
  }

  /** The k lowest free blocks are in two bitmap blocks or more exactly if the first has fewer than k. */
  lemma TwoMaps(g: Super, blocks: seq<Sector>, m: nat, k: nat)
    requires FirstRoom(g, blocks, m) && 0 < k <= |Free(g, blocks)|
    ensures |MapsOf(g, Lowest(Free(g, blocks), k))| >= 2 <==> |FreeIn(g, blocks, m)| < k
  {
    var low, here := Lowest(Free(g, blocks), k), FreeIn(g, blocks, m);
    hide BBlock, Free, Lowest, FreeIn, MapsOf, FirstRoom, LowerPart;
    LowestCard(Free(g, blocks), k);
    if |here| < k {
      if low <= here { CardLe(low, here); }
      var x :| x in low && x !in here;
      var y := HereFirst(g, blocks, m, low, x);
      SomeMaps(g, low, x, y);
    } else {
      if x :| x in low && x !in here {
        assert here + {x} <= low by { forall y | y in here ensures y in low { AllHere(g, blocks, m, low, x, y); } }
        CardLe(here + {x}, low);
        assert false;
      }
      OneMapOnly(g, blocks, m, low);
    }
  }

  /** A block of another map is only taken after those of the first. */
  lemma AllHere(g: Super, blocks: seq<Sector>, m: nat, low: set<nat>, x: nat, y: nat)
    requires FirstRoom(g, blocks, m) && LowerPart(Free(g, blocks), low)
    requires x in low && x !in FreeIn(g, blocks, m) && y in FreeIn(g, blocks, m)
    ensures y in low && y != x && BBlock(g, y) == m != BBlock(g, x)
  {
    hide BBlock, Free;
    MapOrder(g, y, x);
  }

  lemma HereFirst(g: Super, blocks: seq<Sector>, m: nat, low: set<nat>, x: nat) returns (y: nat)
    requires FirstRoom(g, blocks, m) && LowerPart(Free(g, blocks), low) && x in low && x !in FreeIn(g, blocks, m)
    ensures y in low && BBlock(g, y) == m != BBlock(g, x)
  {
    hide BBlock, Free, LowerPart;
    y :| y in FreeIn(g, blocks, m);
    AllHere(g, blocks, m, low, x, y);
  }

  lemma SomeMaps(g: Super, xs: set<nat>, x: nat, y: nat)
    requires x in xs && y in xs && BBlock(g, x) != BBlock(g, y)
    ensures |MapsOf(g, xs)| >= 2
  {
    hide BBlock;
    CardLe({BBlock(g, x), BBlock(g, y)}, MapsOf(g, xs));
  }

  lemma OneMapOnly(g: Super, blocks: seq<Sector>, m: nat, low: set<nat>)
    requires low <= FreeIn(g, blocks, m)
    ensures |MapsOf(g, low)| < 2
  {
    hide BBlock, Free;
    CardLe(MapsOf(g, low), {m});
  }

  function Five(): set<Slot> { {IndEntry(127), Dind, DindTable(0), DindEntry(0, 0), DindEntry(0, 1)} }

  lemma CrossingThere(blocks: seq<Sector>, ino: Inode, off: nat)
    requires 138 * BSIZE < off && MappedTo(blocks, ino, off) && Addr(blocks, ino, Dind) == 0
    ensures Addr(blocks, ino, Ind) != 0 && Addr(blocks, ino, IndEntry(126)) != 0
    ensures Addr(blocks, ino, DindTable(0)) == 0 && Addr(blocks, ino, DindEntry(0, 0)) == 0
    ensures Addr(blocks, ino, DindEntry(0, 1)) == 0
  {
    var k: nat := 138;
    assert Mapped(blocks, ino, k) && SlotOf(k) == IndEntry(126);
    ParentThere(blocks, ino, IndEntry(126));
  }

  /** The slots a chunk at such an offset logs, if it fills five. */
  lemma CrossingLogged(off: nat)
    requires 138 * BSIZE < off < 139 * BSIZE
    ensures LoggedSlots(Five(), off, CHUNK) == Paths(off / BSIZE, BlockEnd(off, CHUNK)) == Paths(138, 142)
  {
    assert off / BSIZE == 138 && BlockEnd(off, CHUNK) == 142;
    hide Path, Paths, BlockEnd, DataSlots, SlotOf, WithParents;
    SevenSlots();
    CrossingData();
    FiveParents();
  }

  lemma FiveParents()
    ensures WithParents(Five()) == Five() + {Ind}
  {
    assert ParentOf(IndEntry(127)) == Ind && ParentOf(DindTable(0)) == Dind;
    assert Ind in WithParents(Five());
  }

  lemma CrossingData()
    ensures DataSlots(138, 142) == {IndEntry(126), IndEntry(127), DindEntry(0, 0), DindEntry(0, 1)}
  {
    assert SlotOf(138) == IndEntry(126) && SlotOf(139) == IndEntry(127);
    assert SlotOf(140) == DindEntry(0, 0) && SlotOf(141) == DindEntry(0, 1);
    hide SlotOf;
    DataOne(138, 138);
    DataOne(138, 139);
    DataOne(138, 140);
    DataOne(138, 141);
    assert DataSlots(138, 138) == {};
  }

  /** Five slots are empty, and the blocks of seven are logged. */
  lemma CrossingSlots(blocks: seq<Sector>, ino: Inode, off: nat)
    requires 138 * BSIZE < off < 139 * BSIZE && MappedTo(blocks, ino, off)
    requires Addr(blocks, ino, IndEntry(127)) == 0 && Addr(blocks, ino, Dind) == 0
    ensures EmptySlots(blocks, ino, off, CHUNK) == Five() && |EmptySlots(blocks, ino, off, CHUNK)| == 5
    ensures |LoggedSlots(EmptySlots(blocks, ino, off, CHUNK), off, CHUNK)| == 7
  {
    hide Addr, Paths, BlockEnd, MappedTo, LoggedSlots;
    CrossingThere(blocks, ino, off);
    CrossingLogged(off);
    SevenSlots();
    assert EmptySlots(blocks, ino, off, CHUNK) == Five();
    assert |Five()| == 5;
  }

  lemma CrossingIf(g: Super, blocks: seq<Sector>, ino: Inode, off: nat, m: nat)
    requires 138 * BSIZE < off < 139 * BSIZE && MappedTo(blocks, ino, off) && off == ino.size
    requires Addr(blocks, ino, IndEntry(127)) == 0 && Addr(blocks, ino, Dind) == 0
    requires FirstRoom(g, blocks, m) && |Free(g, blocks)| >= 5
    ensures Trips(g, blocks, ino, off, 0, CHUNK) <==> |FreeIn(g, blocks, m)| < 5
  {
    hide Addr, Paths, BlockEnd, MappedTo, LoggedSlots, EmptySlots, Trips, FirstRoom, Free, FreeIn, Lowest, MapsOf;
    CrossingSlots(blocks, ino, off);
    FirstTrips(g, blocks, ino, off, CHUNK);
    TwoMaps(g, blocks, m, 5);
  }
}
