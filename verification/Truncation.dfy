/** Freeing a file's blocks: what the free map means while `itrunc` is under way and after it. */
module Truncation {
  import opened Sectors
  import opened FileIndex
  import opened FileBytes

  /** The order in which `itrunc` reaches the slots: direct, indirect entries, the indirect block,
      then for each second-level table its entries and the table, then the double-indirect block. */
  function Rank(s: Slot): nat
  {
    match s
    case Direct(k) => k
    case IndEntry(k) => 12 + k
    case Ind => 140
    case DindEntry(j, k) => 141 + 129 * j + k
    case DindTable(j) => 141 + 129 * j + 128
    case Dind => LAST - 1
    case Tags => LAST
  }

  const LAST := 16654

  /** Slots that can hold an address. */
  predicate InRange(s: Slot)
  {
    match s
    case Direct(k) => k < NDIRECT
    case IndEntry(k) => k < NINDIRECT
    case DindTable(j) => j < NINDIRECT
    case DindEntry(j, k) => j < NINDIRECT && k < NINDIRECT
    case Ind => true
    case Dind => true
    case Tags => true
  }

  lemma RankInjective(s: Slot, t: Slot)
    requires InRange(s) && InRange(t) && Rank(s) == Rank(t)
    ensures s == t
  {
  }

  lemma AddrInRange(blocks: seq<Sector>, ino: Inode, s: Slot)
    requires Addr(blocks, ino, s) != 0
    ensures InRange(s)
  {
  }

  /** The blocks of inode i that `itrunc` reaches before rank r. */
  ghost function Below(own: map<nat, Owner>, i: nat, r: nat): set<nat>
  {
    set b | b in own && own[b].File? && own[b].i == i && Rank(own[b].s) < r
  }

  /** Only free-map blocks differ, and exactly the bits of `freed` were cleared. */
  ghost predicate Freeing(g: Super, blocks0: seq<Sector>, blocks: seq<Sector>, freed: set<nat>)
  {
    && |blocks| == |blocks0|
    && (forall b :: DataStart(g) <= b < |blocks| ==> blocks[b] == blocks0[b])
    && InodesKept(g, blocks0, blocks)
    && (forall b: nat :: b < g.size ==> Used(g, blocks, b) == (Used(g, blocks0, b) && b !in freed))
  }

  /** The next slot: if a block is recorded there it is still marked used, and clearing its bit
      adds exactly that block to the freed ones. */
  lemma FreeSlot(g: Super, blocks0: seq<Sector>, inodes0: map<nat, Inode>, own0: map<nat, Owner>, blocks: seq<Sector>,
                 i: nat, s: Slot)
    requires Owned(g, blocks0, inodes0, own0) && i in inodes0 && InRange(s)
    requires Freeing(g, blocks0, blocks, Below(own0, i, Rank(s)))
    ensures var a := Addr(blocks0, inodes0[i], s);
            if a == 0 then Freeing(g, blocks0, blocks, Below(own0, i, Rank(s) + 1))
            else && DataStart(g) <= a < g.size && Used(g, blocks, a) && BBlock(g, a) < |blocks|
                 && BBlock(g, a) < DataStart(g)
                 && Freeing(g, blocks0, WithUsed(g, blocks, a, false), Below(own0, i, Rank(s) + 1))
  {
    hide Addr, Used, BBlock, WithBit, Rank, InRange;
    var a, r := Addr(blocks0, inodes0[i], s), Rank(s);
    forall b | b in Below(own0, i, r + 1) && b !in Below(own0, i, r) ensures a != 0 && b == a {
      assert Addr(blocks0, inodes0[i], own0[b].s) == b != 0;
      AddrInRange(blocks0, inodes0[i], own0[b].s);
      RankInjective(own0[b].s, s);
    }
    if a == 0 {
      assert Below(own0, i, r + 1) == Below(own0, i, r);
    } else {
      assert own0[a] == File(i, s);
      BitmapBelowData(g, a);
      assert Below(own0, i, r + 1) == Below(own0, i, r) + {a as nat};
      var blocks' := WithUsed(g, blocks, a, false);
      forall b: nat | b < g.size ensures Used(g, blocks', b) == (Used(g, blocks0, b) && b !in Below(own0, i, r + 1)) {
        UsedAfter(g, blocks, a, false, b);
      }
    }
  }

  /** Ranks at which no block is recorded may be skipped. */
  lemma SkipRanks(g: Super, blocks0: seq<Sector>, inodes0: map<nat, Inode>, own0: map<nat, Owner>,
                  blocks: seq<Sector>, i: nat, r: nat, r': nat)
    requires Owned(g, blocks0, inodes0, own0) && i in inodes0 && r <= r'
    requires Freeing(g, blocks0, blocks, Below(own0, i, r))
    requires forall s :: r <= Rank(s) < r' ==> Addr(blocks0, inodes0[i], s) == 0
    ensures Freeing(g, blocks0, blocks, Below(own0, i, r'))
  {
    hide Addr, Used, BBlock, Rank;
    forall b | b in Below(own0, i, r') ensures b in Below(own0, i, r) {
      assert Addr(blocks0, inodes0[i], own0[b].s) == b != 0;
    }
    assert Below(own0, i, r') == Below(own0, i, r);
  }

  /** An absent index block has no entries, so nothing of rank below its own is recorded under it. */
  lemma NoIndirect(blocks: seq<Sector>, ino: Inode, s: Slot)
    requires ino.addrs[NDIRECT] == 0 && 12 <= Rank(s) < 141
    ensures Addr(blocks, ino, s) == 0
  {
    if InRange(s) {
      assert s.IndEntry? || s.Ind?;
    } else if Addr(blocks, ino, s) != 0 {
      AddrInRange(blocks, ino, s);
    }
  }

  lemma NoTable(blocks: seq<Sector>, ino: Inode, j: nat, s: Slot)
    requires j < NINDIRECT && Addr(blocks, ino, DindTable(j)) == 0 && 141 + 129 * j <= Rank(s) < 141 + 129 * (j + 1)
    ensures Addr(blocks, ino, s) == 0
  {
    hide Word;
    if InRange(s) {
      assert s.DindEntry? || s.DindTable?;
      assert s.j == j;
    } else if Addr(blocks, ino, s) != 0 {
      AddrInRange(blocks, ino, s);
    }
  }

  lemma NoDouble(blocks: seq<Sector>, ino: Inode, s: Slot)
    requires ino.addrs[NDIRECT + 1] == 0 && 141 <= Rank(s) < LAST
    ensures Addr(blocks, ino, s) == 0
  {
    hide Word;
    if InRange(s) {
      assert s.DindEntry? || s.DindTable? || s.Dind?;
    } else if Addr(blocks, ino, s) != 0 {
      AddrInRange(blocks, ino, s);
    }
  }

  /** The ownership map after truncating inode i: its blocks are free, its tag block is not. */
  ghost function Truncated(own: map<nat, Owner>, i: nat): map<nat, Owner>
  {
    map b | b in own && !(own[b].File? && own[b].i == i && own[b].s != Tags) :: own[b]
  }

  function Emptied(ino: Inode): Inode
  {
    ino.(addrs := seq(NDIRECT + 2, _ => 0), size := 0)
  }

  /** With every slot but the tag block freed and the inode emptied, ownership holds again. */
  lemma TruncatedOwned(g: Super, blocks0: seq<Sector>, inodes0: map<nat, Inode>, own0: map<nat, Owner>,
                       blocks: seq<Sector>, i: nat)
    requires Owned(g, blocks0, inodes0, own0) && i in inodes0
    requires Freeing(g, blocks0, blocks, Below(own0, i, LAST))
    ensures Owned(g, blocks, inodes0[i := Emptied(inodes0[i])], Truncated(own0, i))
    ensures forall j, s :: j in inodes0 && j != i ==> Addr(blocks, inodes0[j], s) == Addr(blocks0, inodes0[j], s)
  {
    hide Addr, Used, BBlock, Rank;
    forall b | b in own0 && own0[b].File? && own0[b].i == i ensures b in Below(own0, i, LAST) <==> own0[b].s != Tags {
      assert Addr(blocks0, inodes0[i], own0[b].s) == b != 0;
      AddrInRange(blocks0, inodes0[i], own0[b].s);
      RankLast(own0[b].s);
    }
    var inodes', own' := inodes0[i := Emptied(inodes0[i])], Truncated(own0, i);
    forall j, s | j in inodes0 && j != i ensures Addr(blocks, inodes0[j], s) == Addr(blocks0, inodes0[j], s) {
      AddrFrame(g, blocks0, blocks, inodes0, own0, j, s);
    }
    forall s ensures Addr(blocks, inodes'[i], s) == if s == Tags then Addr(blocks0, inodes0[i], Tags) else 0 {
      EmptiedAddr(blocks0, blocks, inodes0[i], s);
    }
  }

  lemma RankLast(s: Slot)
    requires InRange(s)
    ensures Rank(s) < LAST <==> s != Tags
  {
  }

  lemma EmptiedAddr(blocks0: seq<Sector>, blocks: seq<Sector>, ino: Inode, s: Slot)
    ensures Addr(blocks, Emptied(ino), s) == if s == Tags then Addr(blocks0, ino, Tags) else 0
  {
  }

  /** After freeing inode i's blocks and updating its emptied inode on disk: every other file is as
      it was, nothing has holes, every inode on disk is current, and the free map is unaffected. */
  lemma TruncFiles(g: Super, blocks0: seq<Sector>, inodes0: map<nat, Inode>, own0: map<nat, Owner>,
                   blocks: seq<Sector>, i: nat)
    requires Owned(g, blocks0, inodes0, own0) && Whole(blocks0, inodes0) && AllSynced(g, blocks0, inodes0)
      && i in inodes0
    requires Freeing(g, blocks0, blocks, Below(own0, i, LAST))
    ensures var ino' := Emptied(inodes0[i]);
            && IBlock(i) < |blocks| && IBlock(i) < DataStart(g)
            && var blocks', inodes' := Updated(blocks, i, ino'), inodes0[i := ino'];
            && Owned(g, blocks', inodes', Truncated(own0, i))
            && Whole(blocks', inodes') && AllSynced(g, blocks', inodes')
               && OthersSame(blocks0, inodes0, blocks', inodes', i)
            && (forall b: nat ::
               b < g.size ==> Used(g, blocks', b) == (Used(g, blocks0, b) && b !in Below(own0, i, LAST)))
  {
    hide Addr, Used, BBlock, Encode, WithWords, Word, Below, Truncated;
    var ino' := Emptied(inodes0[i]);
    var inodes', own' := inodes0[i := ino'], Truncated(own0, i);
    TruncatedOwned(g, blocks0, inodes0, own0, blocks, i);
    UpdateOwned(g, blocks, inodes', own', i, ino');
    var blocks' := Updated(blocks, i, ino');
    forall j | j in inodes0 && j != i ensures j < g.ninodes && Synced(blocks, j, inodes0[j]) {
      KeptSynced(g, blocks0, blocks, j, inodes0[j]);
    }
    UpdateAllSynced(g, blocks, inodes0, i, ino');
    forall j | j in inodes0 && j != i ensures SameFile(blocks0, inodes0, blocks', inodes', j)
      && MappedTo(blocks', inodes'[j], inodes'[j].size) {
      assert inodes'[j] == inodes0[j];
      forall s ensures Addr(blocks', inodes0[j], s) == Addr(blocks, inodes0[j], s) {
        assert Addr(blocks', inodes'[j], s) == Addr(blocks, inodes'[j], s);
      }
      OtherBytes(g, blocks0, inodes0, own0, blocks, blocks', j);
    }
    forall b: nat | b < g.size ensures Used(g, blocks', b) == Used(g, blocks, b) {
      BitmapBelowData(g, b);
      InodesBelowBitmap(g, i);
      UsedFrame(g, blocks, IBlock(i), blocks'[IBlock(i)], b);
    }
  }

  lemma OtherBytes(g: Super, blocks0: seq<Sector>, inodes0: map<nat, Inode>, own0: map<nat, Owner>,
                   blocks: seq<Sector>, blocks': seq<Sector>, j: nat)
    requires Owned(g, blocks0, inodes0, own0) && Whole(blocks0, inodes0) && j in inodes0
    requires |blocks| == |blocks'| == |blocks0|
    requires forall b :: DataStart(g) <= b < |blocks| ==> blocks[b] == blocks0[b] && blocks'[b] == blocks[b]
    requires forall s :: Addr(blocks, inodes0[j], s) == Addr(blocks0, inodes0[j], s)
    requires forall s :: Addr(blocks', inodes0[j], s) == Addr(blocks, inodes0[j], s)
    ensures Content(blocks', inodes0[j]) == Content(blocks0, inodes0[j])
    ensures MappedTo(blocks', inodes0[j], inodes0[j].size)
  {
    hide Addr, SlotOf;
    forall p: nat | p < inodes0[j].size ensures ByteAt(blocks', inodes0[j], p) == ByteAt(blocks0, inodes0[j], p) {
      BlockOf(p, inodes0[j].size);
      assert Mapped(blocks0, inodes0[j], p / BSIZE);
      assert own0[Addr(blocks0, inodes0[j], SlotOf(p / BSIZE))] == File(j, SlotOf(p / BSIZE));
    }
    forall k: nat | k * BSIZE < inodes0[j].size ensures Mapped(blocks', inodes0[j], k) {
      assert Mapped(blocks0, inodes0[j], k);
    }
  }
}
