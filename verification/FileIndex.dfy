/** The three-level file index of fs.c on the logical disk: which block each part of
    each file occupies, and the free map that must agree with it. */
module FileIndex {
  import opened Sectors

  const NDIRECT := 12
  const NINDIRECT := 128
  const DINDIRECT := 16384
  const MAXFILE := NDIRECT + NINDIRECT + DINDIRECT
  const IPB := 4
  const LIMIT := 0x1_0000_0000

  type ushort = x: int | 0 <= x < 0x1_0000
  type AddrArray = a: seq<uint> | |a| == NDIRECT + 2 witness seq(NDIRECT + 2, _ => 0)

  datatype Inode = Inode(kind: ushort, major: ushort, minor: ushort, nlink: ushort, size: uint,
                         addrs: AddrArray, tags: uint, tagsCounter: uint)

  /** The superblock's fields that matter here. */
  datatype Super = Super(size: nat, ninodes: nat)

  function BBlock(g: Super, b: nat): nat { b / BPB + g.ninodes / IPB + 3 }
  function IBlock(i: nat): nat { i / IPB + 2 }
  function DataStart(g: Super): nat { g.ninodes / IPB + 3 + g.size / BPB + 1 }

  /** The places a block number can be recorded for a file. */
  datatype Slot =
    | Direct(k: nat)                    // addrs[k]
    | Ind                               // addrs[NDIRECT]
    | IndEntry(k: nat)                  // entry k of the indirect block
    | Dind                              // addrs[NDIRECT+1]
    | DindTable(j: nat)                 // entry j of the double-indirect block
    | DindEntry(j: nat, k: nat)         // entry k of second-level table j
    | Tags                              // the tag block
  {
    predicate Table() { Ind? || Dind? || DindTable? }
  }

  /** Entry k of index block t; no block, no entry. */
  function Ent(blocks: seq<Sector>, t: nat, k: nat): uint
  {
    if 0 < t < |blocks| && k < NINDIRECT then Word(blocks[t], k) else 0
  }

  /** The block recorded at a slot, 0 when there is none. */
  function Addr(blocks: seq<Sector>, ino: Inode, s: Slot): uint
  {
    match s
    case Direct(k) => if k < NDIRECT then ino.addrs[k] else 0
    case Ind => ino.addrs[NDIRECT]
    case IndEntry(k) => Ent(blocks, ino.addrs[NDIRECT], k)
    case Dind => ino.addrs[NDIRECT + 1]
    case DindTable(j) => Ent(blocks, ino.addrs[NDIRECT + 1], j)
    case DindEntry(j, k) => Ent(blocks, Ent(blocks, ino.addrs[NDIRECT + 1], j), k)
    case Tags => ino.tags
  }

  /** The slot that holds a file's block number bn. */
  function SlotOf(bn: nat): Slot
  {
    if bn < NDIRECT then Direct(bn)
    else if bn < NDIRECT + NINDIRECT then IndEntry(bn - NDIRECT)
    else DindEntry((bn - NDIRECT - NINDIRECT) / NINDIRECT, (bn - NDIRECT - NINDIRECT) % NINDIRECT)
  }

  /** That slot and the index slots on the way to it. */
  function Path(bn: nat): set<Slot>
  {
    if bn < NDIRECT then {Direct(bn)}
    else if bn < NDIRECT + NINDIRECT then {Ind, SlotOf(bn)}
    else {Dind, DindTable((bn - NDIRECT - NINDIRECT) / NINDIRECT), SlotOf(bn)}
  }

  lemma SlotOfInjective(a: nat, b: nat)
    requires SlotOf(a) == SlotOf(b)
    ensures a == b
  {
  }

  datatype Owner = File(i: nat, s: Slot) | Orphan

  /** Block b is marked in use in the free map. */
  predicate Used(g: Super, blocks: seq<Sector>, b: nat)
  {
    BBlock(g, b) < |blocks| && Bit(blocks[BBlock(g, b)], b % BPB)
  }

  predicate Layout(g: Super, blocks: seq<Sector>)
  {
    |blocks| == g.size && DataStart(g) <= g.size <= LIMIT
  }

  lemma BitmapBelowData(g: Super, b: nat)
    requires b < g.size
    ensures g.ninodes / IPB + 3 <= BBlock(g, b) < DataStart(g)
  {
  }

  lemma InodesBelowBitmap(g: Super, i: nat)
    requires i < g.ninodes
    ensures IBlock(i) < g.ninodes / IPB + 3
  {
  }

  /** Ownership: the free map marks exactly the metadata, the blocks recorded at some slot of
      some inode, and blocks allocated but recorded nowhere (Orphan); no block is recorded twice. */
  ghost predicate Owned(g: Super, blocks: seq<Sector>, inodes: map<nat, Inode>, own: map<nat, Owner>)
  {
    && Layout(g, blocks)
    && (forall i, s :: i in inodes && Addr(blocks, inodes[i], s) != 0
          ==> Addr(blocks, inodes[i], s) in own && own[Addr(blocks, inodes[i], s)] == File(i, s))
    && (forall b :: b in own ==> DataStart(g) <= b < g.size)
    && (forall b :: b in own && own[b].File?
          ==> own[b].i in inodes && Addr(blocks, inodes[own[b].i], own[b].s) == b)
    && (forall b: nat :: b < g.size ==> Used(g, blocks, b) == (b < DataStart(g) || b in own))
  }

  /** The blocks of a disk, the inodes in use and who owns which block. */
  datatype Image = Image(blocks: seq<Sector>, inodes: map<nat, Inode>, own: map<nat, Owner>)

  // ---------- frames ----------

  /** Addresses depend only on the inode and on owned index blocks. */
  lemma AddrFrame(g: Super, blocks: seq<Sector>, blocks': seq<Sector>, inodes: map<nat, Inode>, own: map<nat, Owner>,
                  i: nat, s: Slot)
    requires Owned(g, blocks, inodes, own) && |blocks'| == |blocks| && i in inodes
    requires forall b :: b in own && own[b].File? && own[b].i == i && own[b].s.Table() ==> blocks'[b] == blocks[b]
    ensures Addr(blocks', inodes[i], s) == Addr(blocks, inodes[i], s)
  {
    hide Word;
    var ino := inodes[i];
    assert Addr(blocks, ino, Ind) != 0 ==> own[ino.addrs[NDIRECT]] == File(i, Ind);
    assert Addr(blocks, ino, Dind) != 0 ==> own[ino.addrs[NDIRECT + 1]] == File(i, Dind);
    if s.DindEntry? {
      var t := Addr(blocks, ino, DindTable(s.j));
      assert t != 0 ==> own[t] == File(i, DindTable(s.j));
    }
  }

  /** The blocks after `balloc` took block x: its bit set, its contents zeroed. */
  function Taken(g: Super, blocks: seq<Sector>, x: nat): seq<Sector>
    requires BBlock(g, x) < |blocks| && x < |blocks|
  {
    WithUsed(g, blocks, x, true)[x := Zero()]
  }

  /** The blocks with the free-map bit of x set or cleared. */
  function WithUsed(g: Super, blocks: seq<Sector>, x: nat, on: bool): seq<Sector>
    requires BBlock(g, x) < |blocks|
  {
    blocks[BBlock(g, x) := WithBit(blocks[BBlock(g, x)], x % BPB, on)]
  }

  lemma UsedAfter(g: Super, blocks: seq<Sector>, x: nat, on: bool, b: nat)
    requires BBlock(g, x) < |blocks|
    ensures Used(g, WithUsed(g, blocks, x, on), b) == if b == x then on else Used(g, blocks, b)
  {
    if b != x && BBlock(g, b) == BBlock(g, x) {
      assert b % BPB != x % BPB;
    }
  }

  /** The free map lies outside block y. */
  lemma UsedFrame(g: Super, blocks: seq<Sector>, y: nat, d: Sector, b: nat)
    requires y < |blocks| && BBlock(g, b) != y
    ensures Used(g, blocks[y := d], b) == Used(g, blocks, b)
  {
  }

  lemma TakenOwned(g: Super, blocks: seq<Sector>, inodes: map<nat, Inode>, own: map<nat, Owner>, x: nat)
    requires Owned(g, blocks, inodes, own) && x < g.size && !Used(g, blocks, x)
    ensures DataStart(g) <= x && x !in own && BBlock(g, x) < DataStart(g)
    ensures Owned(g, Taken(g, blocks, x), inodes, own[x := Orphan])
    ensures forall i, s :: i in inodes ==> Addr(Taken(g, blocks, x), inodes[i], s) == Addr(blocks, inodes[i], s)
    ensures InodesKept(g, blocks, Taken(g, blocks, x))
  {
    hide Bit, Addr, WithBit;
    BitmapBelowData(g, x);
    var blocks' := Taken(g, blocks, x);
    forall i, s | i in inodes ensures Addr(blocks', inodes[i], s) == Addr(blocks, inodes[i], s) {
      AddrFrame(g, blocks, blocks', inodes, own, i, s);
    }
    forall b: nat | b < g.size ensures Used(g, blocks', b) == (b < DataStart(g) || b in own[x := Orphan]) {
      BitmapBelowData(g, b);
      UsedAfter(g, blocks, x, true, b);
      UsedFrame(g, WithUsed(g, blocks, x, true), x, Zero(), b);
    }
  }

  /** Recording orphan b at an empty slot of inode i: one address changes, from 0 to b. */
  ghost predicate Records(blocks: seq<Sector>, inodes: map<nat, Inode>, blocks': seq<Sector>, inodes': map<nat, Inode>,
                          i: nat, slot: Slot, b: uint)
  {
    && i in inodes && inodes'.Keys == inodes.Keys
    && Addr(blocks, inodes[i], slot) == 0
    && (forall j, s :: j in inodes ==>
          Addr(blocks', inodes'[j], s) == if j == i && s == slot then b else Addr(blocks, inodes[j], s))
  }

  lemma RecordsOwned(g: Super, blocks: seq<Sector>, inodes: map<nat, Inode>, own: map<nat, Owner>,
                     blocks': seq<Sector>, inodes': map<nat, Inode>, i: nat, slot: Slot, b: uint)
    requires Owned(g, blocks, inodes, own) && Records(blocks, inodes, blocks', inodes', i, slot, b)
    requires |blocks'| == |blocks| && b in own && own[b] == Orphan
    requires forall x: nat :: x < g.size ==> Used(g, blocks', x) == Used(g, blocks, x)
    ensures Owned(g, blocks', inodes', own[b := File(i, slot)])
  {
    hide Addr, Used, BBlock;
    var own' := own[b := File(i, slot)];
    forall j, s | j in inodes' && Addr(blocks', inodes'[j], s) != 0
      ensures Addr(blocks', inodes'[j], s) in own' && own'[Addr(blocks', inodes'[j], s)] == File(j, s)
    {
      assert j in inodes;
    }
    forall x | x in own' && own'[x].File?
      ensures own'[x].i in inodes' && Addr(blocks', inodes'[own'[x].i], own'[x].s) == x
    {
      if x != b { assert own[x] == own'[x]; }
    }
  }

  function WithAddr(ino: Inode, k: nat, b: uint): Inode
    requires k < NDIRECT + 2
  {
    ino.(addrs := ino.addrs[k := b])
  }

  function TopSlot(k: nat): Slot
  {
    if k < NDIRECT then Direct(k) else if k == NDIRECT then Ind else Dind
  }

  /** Storing a fresh zeroed block in `addrs[k]`. */
  lemma TopRecords(g: Super, blocks: seq<Sector>, inodes: map<nat, Inode>, own: map<nat, Owner>, i: nat, k: nat,
                   b: uint)
    requires Owned(g, blocks, inodes, own) && i in inodes && k < NDIRECT + 2 && inodes[i].addrs[k] == 0
    requires b in own && own[b] == Orphan && blocks[b] == Zero()
    ensures Records(blocks, inodes, blocks, inodes[i := WithAddr(inodes[i], k, b)], i, TopSlot(k), b)
    ensures Owned(g, blocks, inodes[i := WithAddr(inodes[i], k, b)], own[b := File(i, TopSlot(k))])
  {
    hide Word, Used, BBlock;
    var ino, ino' := inodes[i], WithAddr(inodes[i], k, b);
    var inodes' := inodes[i := ino'];
    assert forall m: nat :: m < NINDIRECT ==> Word(blocks[b], m) == 0 by { ZeroWords(); }
    forall s ensures Addr(blocks, ino', s) == if s == TopSlot(k) then b else Addr(blocks, ino, s) {
    }
    RecordsOwned(g, blocks, inodes, own, blocks, inodes', i, TopSlot(k), b);
  }

  function ChildSlot(t: Slot, k: nat): Slot
    requires t.Table()
  {
    match t
    case Ind => IndEntry(k)
    case Dind => DindTable(k)
    case DindTable(j) => DindEntry(j, k)
  }

  /** Storing a fresh zeroed block in entry k of an index block. */
  lemma EntryRecords(g: Super, blocks: seq<Sector>, inodes: map<nat, Inode>, own: map<nat, Owner>, i: nat, t: Slot,
                     k: nat, b: uint)
    requires Owned(g, blocks, inodes, own) && i in inodes && t.Table() && k < NINDIRECT
    requires Addr(blocks, inodes[i], t) != 0 && Ent(blocks, Addr(blocks, inodes[i], t), k) == 0
    requires b in own && own[b] == Orphan && blocks[b] == Zero()
    ensures Addr(blocks, inodes[i], t) < |blocks|
    ensures var a := Addr(blocks, inodes[i], t);
            var blocks' := blocks[a := WithWords(blocks[a], k, [b])];
            && Records(blocks, inodes, blocks', inodes, i, ChildSlot(t, k), b)
            && Owned(g, blocks', inodes, own[b := File(i, ChildSlot(t, k))])
  {
    hide Word, Used, BBlock, WithWords;
    var a := Addr(blocks, inodes[i], t);
    assert own[a] == File(i, t);
    var blocks' := blocks[a := WithWords(blocks[a], k, [b])];
    assert forall m: nat :: m < NINDIRECT ==> Ent(blocks', b, m) == 0 by { ZeroWords(); }
    forall m: nat | m < NINDIRECT ensures Ent(blocks', a, m) == if m == k then b else Ent(blocks, a, m) {
      WordOfWithWords(blocks[a], k, [b], m);
    }
    forall j, s | j in inodes
      ensures Addr(blocks', inodes[j], s) == if j == i && s == ChildSlot(t, k) then b else Addr(blocks, inodes[j], s)
    {
      if j != i {
        AddrFrame(g, blocks, blocks', inodes, own, j, s);
      } else {
        EntryAddr(g, blocks, blocks', inodes, own, i, t, k, b, s);
      }
    }
    forall x: nat | x < g.size ensures Used(g, blocks', x) == Used(g, blocks, x) {
      BitmapBelowData(g, x);
      UsedFrame(g, blocks, a, blocks'[a], x);
    }
    RecordsOwned(g, blocks, inodes, own, blocks', inodes, i, ChildSlot(t, k), b);
  }

  lemma EntryAddr(g: Super, blocks: seq<Sector>, blocks': seq<Sector>, inodes: map<nat, Inode>, own: map<nat, Owner>,
                  i: nat, t: Slot, k: nat, b: uint, s: Slot)
    requires Owned(g, blocks, inodes, own) && i in inodes && t.Table() && k < NINDIRECT
    requires var a := Addr(blocks, inodes[i], t);
             && a != 0 && a in own && Ent(blocks, a, k) == 0
             && |blocks'| == |blocks| && blocks' == blocks[a := blocks'[a]]
             && (forall m: nat :: m < NINDIRECT ==> Ent(blocks', a, m) == if m == k then b else Ent(blocks, a, m))
             && (forall m: nat :: m < NINDIRECT ==> Ent(blocks', b, m) == 0)
    requires b in own && own[b] == Orphan
    ensures Addr(blocks', inodes[i], s) == if s == ChildSlot(t, k) then b else Addr(blocks, inodes[i], s)
  {
    hide Word, Used, BBlock;
    var ino, a := inodes[i], Addr(blocks, inodes[i], t);
    assert own[a] == File(i, t);
    assert forall x: nat, m: nat :: x != a ==> Ent(blocks', x, m) == Ent(blocks, x, m);
    assert Addr(blocks, ino, Ind) != 0 ==> own[ino.addrs[NDIRECT]] == File(i, Ind);
    assert Addr(blocks, ino, Dind) != 0 ==> own[ino.addrs[NDIRECT + 1]] == File(i, Dind);
    if s.DindEntry? {
      var tb := Addr(blocks, ino, DindTable(s.j));
      assert tb != 0 ==> own[tb] == File(i, DindTable(s.j));
    }
  }

  // ---------- growing a file ----------

  /** One slot of inode j across a step: an address stays; a new one may appear only for the
      growing inode i at one of `slots`, and then a new data block reads as zeros. */
  predicate SlotStep(blocks: seq<Sector>, ino: Inode, blocks': seq<Sector>, ino': Inode, s: Slot, j: nat, i: nat,
                     slots: set<Slot>)
  {
    var a, a' := Addr(blocks, ino, s), Addr(blocks', ino', s);
    && (a != 0 ==> a' == a)
    && (a == 0 && a' != 0 ==> j == i && s in slots && (!s.Table() ==> Contains(blocks', a', Zero())))
  }

  predicate Contains(blocks: seq<Sector>, b: nat, d: Sector)
  {
    b < |blocks| && blocks[b] == d
  }

  /** Block b, if it is a data block of some file, keeps its contents. */
  predicate DataKept(blocks: seq<Sector>, own: map<nat, Owner>, blocks': seq<Sector>, b: nat)
  {
    b in own && own[b].File? && !own[b].s.Table() && b < |blocks| ==> Contains(blocks', b, blocks[b])
  }

  /** Inode i gained blocks at some of `slots`, all zeroed; no address was lost or changed, and
      no data block's contents changed. */
  ghost predicate Extends(blocks: seq<Sector>, inodes: map<nat, Inode>, own: map<nat, Owner>,
                          blocks': seq<Sector>, inodes': map<nat, Inode>, own': map<nat, Owner>, i: nat,
                            slots: set<Slot>)
  {
    && |blocks'| == |blocks| && inodes'.Keys == inodes.Keys && i in inodes
    && (forall j :: j in inodes ==> inodes'[j] == if j == i then inodes[i].(addrs := inodes'[i].addrs) else inodes[j])
    && (forall j, s :: j in inodes ==> SlotStep(blocks, inodes[j], blocks', inodes'[j], s, j, i, slots))
    && (forall b :: b in own ==> b in own')
    && (forall b: nat :: DataKept(blocks, own, blocks', b))
  }

  lemma ExtendsTrans(g: Super, blocks: seq<Sector>, inodes: map<nat, Inode>, own: map<nat, Owner>,
                     blocks1: seq<Sector>, inodes1: map<nat, Inode>, own1: map<nat, Owner>,
                     blocks2: seq<Sector>, inodes2: map<nat, Inode>, own2: map<nat, Owner>, i: nat, s1: set<Slot>,
                       s2: set<Slot>)
    requires Owned(g, blocks, inodes, own) && Owned(g, blocks1, inodes1, own1)
    requires Extends(blocks, inodes, own, blocks1, inodes1, own1, i, s1)
    requires Extends(blocks1, inodes1, own1, blocks2, inodes2, own2, i, s2)
    ensures Extends(blocks, inodes, own, blocks2, inodes2, own2, i, s1 + s2)
  {
    hide Addr, Used, BBlock;
    forall j, s | j in inodes ensures SlotStep(blocks, inodes[j], blocks2, inodes2[j], s, j, i, s1 + s2) {
      assert j in inodes1;
      assert SlotStep(blocks, inodes[j], blocks1, inodes1[j], s, j, i, s1);
      assert SlotStep(blocks1, inodes1[j], blocks2, inodes2[j], s, j, i, s2);
      var a := Addr(blocks1, inodes1[j], s);
      if a != 0 {
        assert own1[a] == File(j, s);
        assert DataKept(blocks1, own1, blocks2, a);
      }
    }
    forall b: nat ensures DataKept(blocks, own, blocks2, b) {
      assert DataKept(blocks, own, blocks1, b);
      if b in own && own[b].File? && !own[b].s.Table() && b < |blocks| {
        var o := own[b];
        assert SlotStep(blocks, inodes[o.i], blocks1, inodes1[o.i], o.s, o.i, i, s1);
        assert Addr(blocks, inodes[o.i], o.s) == b;
        assert own1[b] == o;
        assert DataKept(blocks1, own1, blocks2, b);
      }
    }
  }

  /** `balloc` then record at `addrs[k]`. */
  lemma GrowTop(g: Super, blocks: seq<Sector>, inodes: map<nat, Inode>, own: map<nat, Owner>, i: nat, k: nat, x: uint)
    requires Owned(g, blocks, inodes, own) && i in inodes && k < NDIRECT + 2 && inodes[i].addrs[k] == 0
    requires x < g.size && !Used(g, blocks, x)
    ensures BBlock(g, x) < |blocks| && x < |blocks|
    ensures var blocks', inodes', own' := Taken(g, blocks, x), inodes[i := WithAddr(inodes[i], k, x)],
      own[x := File(i, TopSlot(k))];
            && Owned(g, blocks', inodes', own')
            && Extends(blocks, inodes, own, blocks', inodes', own', i, {TopSlot(k)})
            && Addr(blocks', inodes'[i], TopSlot(k)) == x != 0
            && InodesKept(g, blocks, blocks')
  {
    hide Addr, Used, BBlock, Bit, WithBit;
    TakenOwned(g, blocks, inodes, own, x);
    var blocks', inodes', own1 := Taken(g, blocks, x), inodes[i := WithAddr(inodes[i], k, x)], own[x := Orphan];
    TopRecords(g, blocks', inodes, own1, i, k, x);
    assert own1[x := File(i, TopSlot(k))] == own[x := File(i, TopSlot(k))];
  }

  /** `balloc` then record in entry k of index block t. */
  lemma GrowEntry(g: Super, blocks: seq<Sector>, inodes: map<nat, Inode>, own: map<nat, Owner>, i: nat, t: Slot,
                  k: nat, a: uint, x: uint)
    requires Owned(g, blocks, inodes, own) && i in inodes && t.Table() && k < NINDIRECT
    requires a == Addr(blocks, inodes[i], t) != 0 && Addr(blocks, inodes[i], ChildSlot(t, k)) == 0
    requires x < g.size && !Used(g, blocks, x)
    ensures BBlock(g, x) < |blocks| && x < |blocks| && a < |blocks| && a != x
    ensures |Taken(g, blocks, x)| == |blocks| && Taken(g, blocks, x)[a] == blocks[a]
    ensures var blocks', own' := Taken(g, blocks, x)[a := WithWords(blocks[a], k, [x])],
      own[x := File(i, ChildSlot(t, k))];
            && Owned(g, blocks', inodes, own')
            && Extends(blocks, inodes, own, blocks', inodes, own', i, {ChildSlot(t, k)})
            && Addr(blocks', inodes[i], ChildSlot(t, k)) == x != 0
            && InodesKept(g, blocks, blocks')
  {
    hide Addr, Used, BBlock, Bit, WithBit, Word, WithWords, Taken;
    TableOwned(g, blocks, inodes, own, i, t);
    TakenOwned(g, blocks, inodes, own, x);
    TakenKeeps(g, blocks, x, a);
    var blocks1, own1 := Taken(g, blocks, x), own[x := Orphan];
    ChildEnt(blocks1, inodes[i], t, k);
    hide Owned;
    EntryRecords(g, blocks1, inodes, own1, i, t, k, x);
    var blocks', own' := blocks1[a := WithWords(blocks1[a], k, [x])], own1[x := File(i, ChildSlot(t, k))];
    assert own' == own[x := File(i, ChildSlot(t, k))];
    RecordsExtends(g, blocks, inodes, own, blocks1, blocks', own', i, ChildSlot(t, k), a, x);
  }

  lemma TableOwned(g: Super, blocks: seq<Sector>, inodes: map<nat, Inode>, own: map<nat, Owner>, i: nat, t: Slot)
    requires Owned(g, blocks, inodes, own) && i in inodes && Addr(blocks, inodes[i], t) != 0
    ensures var a := Addr(blocks, inodes[i], t);
            a in own && own[a] == File(i, t) && DataStart(g) <= a < |blocks| == g.size
  {
    hide Addr, Used, BBlock;
  }

  lemma TakenKeeps(g: Super, blocks: seq<Sector>, x: nat, a: nat)
    requires x < |blocks| && a < |blocks| && a != x && BBlock(g, x) < DataStart(g) <= a
    ensures |Taken(g, blocks, x)| == |blocks| && Taken(g, blocks, x)[a] == blocks[a]
    ensures Taken(g, blocks, x)[x] == Zero()
  {
    hide WithBit, BBlock, DataStart;
  }

  lemma ChildEnt(blocks: seq<Sector>, ino: Inode, t: Slot, k: nat)
    requires t.Table() && k < NINDIRECT
    ensures Addr(blocks, ino, ChildSlot(t, k)) == Ent(blocks, Addr(blocks, ino, t), k)
  {
  }

  lemma RecordsExtends(g: Super, blocks: seq<Sector>, inodes: map<nat, Inode>, own: map<nat, Owner>,
                       blocks1: seq<Sector>,
                       blocks': seq<Sector>, own': map<nat, Owner>, i: nat, slot: Slot, a: nat, x: uint)
    requires Owned(g, blocks, inodes, own) && i in inodes && x != 0 && x < |blocks| && BBlock(g, x) < DataStart(g)
      && x !in own
    requires blocks1 == Taken(g, blocks, x) && a in own && own[a].File? && own[a].s.Table() && a < |blocks| && a != x
    requires |blocks'| == |blocks1| && blocks' == blocks1[a := blocks'[a]] && own' == own[x := File(i, slot)]
    requires forall i, s :: i in inodes ==> Addr(blocks1, inodes[i], s) == Addr(blocks, inodes[i], s)
    requires Records(blocks1, inodes, blocks', inodes, i, slot, x) && InodesKept(g, blocks, blocks1)
      && DataStart(g) <= a
    ensures Extends(blocks, inodes, own, blocks', inodes, own', i, {slot}) && InodesKept(g, blocks, blocks')
  {
    hide Addr, Used, BBlock, Bit, WithBit;
    forall j, s | j in inodes ensures SlotStep(blocks, inodes[j], blocks', inodes[j], s, j, i, {slot}) {
      assert Addr(blocks1, inodes[j], s) == Addr(blocks, inodes[j], s);
      assert Addr(blocks', inodes[j], s) == if j == i && s == slot then x else Addr(blocks1, inodes[j], s);
    }
    forall b: nat ensures DataKept(blocks, own, blocks', b) {
    }
    forall b: nat | b < g.ninodes / IPB + 3 && b < |blocks| ensures Contains(blocks', b, blocks[b]) {
      assert Contains(blocks1, b, blocks[b]);
    }
  }

  // ---------- what growing a file logs ----------

  /** The bitmap blocks of the blocks allocated between two ownership maps. */
  ghost function NewMaps(g: Super, own: map<nat, Owner>, own': map<nat, Owner>): set<nat>
  {
    set x | x in own' && x !in own :: BBlock(g, x)
  }

  /** Inode i acquired some blocks, each the lowest free one when it was taken. */
  ghost predicate OwnStep(g: Super, own: map<nat, Owner>, own': map<nat, Owner>, i: nat)
  {
    && (forall b :: b in own ==> b in own' && own'[b] == own[b])
    && (forall b :: b in own' && b !in own ==> own'[b].File? && own'[b].i == i)
    && (forall x, y :: x in own' && x !in own && DataStart(g) <= y < g.size && y !in own' ==> x < y)
  }

  lemma OwnStepTrans(g: Super, own: map<nat, Owner>, own1: map<nat, Owner>, own2: map<nat, Owner>, i: nat)
    requires OwnStep(g, own, own1, i) && OwnStep(g, own1, own2, i)
    ensures OwnStep(g, own, own2, i)
    ensures NewMaps(g, own, own2) == NewMaps(g, own, own1) + NewMaps(g, own1, own2)
  {
    hide BBlock, DataStart;
    forall x, y | x in own2 && x !in own && DataStart(g) <= y < g.size && y !in own2 ensures x < y {
      if x in own1 { assert y !in own1; }
    }
    forall m | m in NewMaps(g, own, own1) ensures m in NewMaps(g, own, own2) {
      var x :| x in own1 && x !in own && m == BBlock(g, x);
      assert x in own2;
    }
    forall m | m in NewMaps(g, own1, own2) ensures m in NewMaps(g, own, own2) {
      var x :| x in own2 && x !in own1 && m == BBlock(g, x);
      assert x !in own;
    }
  }

  /** Taking the lowest free block x for slot s of inode i. */
  lemma OwnStepOne(g: Super, blocks: seq<Sector>, inodes: map<nat, Inode>, own: map<nat, Owner>, i: nat, s: Slot,
                   x: nat)
    requires Owned(g, blocks, inodes, own) && x < g.size && !Used(g, blocks, x)
    requires forall y: nat :: y < x && y < g.size ==> Used(g, blocks, y)
    ensures OwnStep(g, own, own[x := File(i, s)], i) && BBlock(g, x) in NewMaps(g, own, own[x := File(i, s)])
  {
    hide Addr, Used, BBlock;
    var own' := own[x := File(i, s)];
    forall y | DataStart(g) <= y < g.size && y !in own' ensures x < y {
      assert !Used(g, blocks, y);
    }
    assert x !in own && x in own';
  }

  /** The blocks recorded at these slots. */
  function Addrs(blocks: seq<Sector>, ino: Inode, slots: set<Slot>): set<nat>
  {
    set s | s in slots && Addr(blocks, ino, s) != 0 :: Addr(blocks, ino, s) as nat
  }

  /** Inode i grew at some of `slots`; the sectors logged meanwhile are the bitmap blocks of the
      blocks it acquired, and blocks recorded at those slots. */
  ghost predicate Grew(g: Super, blocks: seq<Sector>, inodes: map<nat, Inode>, own: map<nat, Owner>, logged: set<nat>,
                       blocks': seq<Sector>, inodes': map<nat, Inode>, own': map<nat, Owner>, logged': set<nat>,
                       i: nat, slots: set<Slot>)
  {
    && Extends(blocks, inodes, own, blocks', inodes', own', i, slots)
    && InodesKept(g, blocks, blocks') && OwnStep(g, own, own', i)
    && logged <= logged' <= logged + NewMaps(g, own, own') + Addrs(blocks', inodes'[i], slots)
    && OnlyLogged(blocks, blocks', logged')
  }

  /** Blocks that are not logged are as before. */
  ghost predicate OnlyLogged(blocks: seq<Sector>, blocks': seq<Sector>, logged: set<nat>)
  {
    |blocks'| == |blocks| && forall b: nat :: b < |blocks| && b !in logged ==> Contains(blocks', b, blocks[b])
  }

  lemma OnlyLoggedTrans(blocks: seq<Sector>, blocks1: seq<Sector>, blocks2: seq<Sector>, l1: set<nat>, l2: set<nat>)
    requires OnlyLogged(blocks, blocks1, l1) && OnlyLogged(blocks1, blocks2, l2) && l1 <= l2
    ensures OnlyLogged(blocks, blocks2, l2)
  {
    forall b: nat | b < |blocks| && b !in l2 ensures Contains(blocks2, b, blocks[b]) {
      assert Contains(blocks1, b, blocks[b]) && Contains(blocks2, b, blocks1[b]);
    }
  }

  lemma OneLogged(blocks: seq<Sector>, blocks': seq<Sector>, l: set<nat>, b: nat, d: Sector)
    requires OnlyLogged(blocks, blocks', l) && b < |blocks'|
    ensures OnlyLogged(blocks, blocks'[b := d], l + {b})
  {
    forall x: nat | x < |blocks| && x !in l + {b} ensures Contains(blocks'[b := d], x, blocks[x]) {
      assert Contains(blocks', x, blocks[x]);
    }
  }

  lemma TakenLogged(g: Super, blocks: seq<Sector>, x: nat, l: set<nat>)
    requires BBlock(g, x) < |blocks| && x < |blocks| && BBlock(g, x) in l && x in l
    ensures OnlyLogged(blocks, Taken(g, blocks, x), l)
  {
    hide BBlock, WithBit;
  }

  /** The on-disk inodes and everything below them are as before. */
  ghost predicate InodesKept(g: Super, blocks: seq<Sector>, blocks': seq<Sector>)
  {
    forall b: nat :: b < g.ninodes / IPB + 3 && b < |blocks| ==> Contains(blocks', b, blocks[b])
  }

  lemma AddrsGrow(blocks: seq<Sector>, inodes: map<nat, Inode>, own: map<nat, Owner>,
                  blocks': seq<Sector>, inodes': map<nat, Inode>, own': map<nat, Owner>, i: nat, slots: set<Slot>,
                    more: set<Slot>)
    requires Extends(blocks, inodes, own, blocks', inodes', own', i, more)
    ensures Addrs(blocks, inodes[i], slots) <= Addrs(blocks', inodes'[i], slots)
  {
    hide Addr;
    forall a | a in Addrs(blocks, inodes[i], slots) ensures a in Addrs(blocks', inodes'[i], slots) {
      var s :| s in slots && Addr(blocks, inodes[i], s) != 0 && a == Addr(blocks, inodes[i], s);
      assert SlotStep(blocks, inodes[i], blocks', inodes'[i], s, i, i, more);
    }
  }

  lemma GrewTrans(g: Super, blocks: seq<Sector>, inodes: map<nat, Inode>, own: map<nat, Owner>, logged: set<nat>,
                  blocks1: seq<Sector>, inodes1: map<nat, Inode>, own1: map<nat, Owner>, logged1: set<nat>,
                  blocks2: seq<Sector>, inodes2: map<nat, Inode>, own2: map<nat, Owner>, logged2: set<nat>,
                  i: nat, s1: set<Slot>, s2: set<Slot>)
    requires Owned(g, blocks, inodes, own) && Owned(g, blocks1, inodes1, own1)
    requires Grew(g, blocks, inodes, own, logged, blocks1, inodes1, own1, logged1, i, s1)
    requires Grew(g, blocks1, inodes1, own1, logged1, blocks2, inodes2, own2, logged2, i, s2)
    ensures Grew(g, blocks, inodes, own, logged, blocks2, inodes2, own2, logged2, i, s1 + s2)
  {
    hide Owned, Addr, Used, BBlock, SlotStep, DataKept, NewMaps, OwnStep, OnlyLogged;
    OnlyLoggedTrans(blocks, blocks1, blocks2, logged1, logged2);
    ExtendsTrans(g, blocks, inodes, own, blocks1, inodes1, own1, blocks2, inodes2, own2, i, s1, s2);
    OwnStepTrans(g, own, own1, own2, i);
    AddrsGrow(blocks1, inodes1, own1, blocks2, inodes2, own2, i, s1, s2);
    assert Addrs(blocks2, inodes2[i], s1 + s2) == Addrs(blocks2, inodes2[i], s1) + Addrs(blocks2, inodes2[i], s2);
  }

  lemma GrewRefl(g: Super, blocks: seq<Sector>, inodes: map<nat, Inode>, own: map<nat, Owner>, logged: set<nat>,
                 i: nat, slots: set<Slot>)
    requires i in inodes
    ensures Grew(g, blocks, inodes, own, logged, blocks, inodes, own, logged, i, slots)
  {
    hide Addr, Used, BBlock;
  }
}
