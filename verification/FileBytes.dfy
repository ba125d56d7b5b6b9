/** Files as flat byte sequences, read through the three-level index. */
module FileBytes {
  import opened Sectors
  import opened FileIndex

  /** Byte p of a file, wherever its block is. */
  function ByteAt(blocks: seq<Sector>, ino: Inode, p: nat): byte
  {
    var b := Addr(blocks, ino, SlotOf(p / BSIZE));
    if b < |blocks| then blocks[b][p % BSIZE] else 0
  }

  /** The file's contents. */
  function Content(blocks: seq<Sector>, ino: Inode): (r: seq<byte>)
    ensures |r| == ino.size
  {
    seq(ino.size, p requires 0 <= p < ino.size => ByteAt(blocks, ino, p))
  }

  predicate Mapped(blocks: seq<Sector>, ino: Inode, k: nat)
  {
    Addr(blocks, ino, SlotOf(k)) != 0
  }

  /** Every block holding one of the first n bytes is present. */
  ghost predicate MappedTo(blocks: seq<Sector>, ino: Inode, n: nat)
  {
    forall k: nat :: k * BSIZE < n ==> Mapped(blocks, ino, k)
  }

  /** No file has holes, and none is longer than the index can reach. */
  ghost predicate Whole(blocks: seq<Sector>, inodes: map<nat, Inode>)
  {
    forall i :: i in inodes ==> inodes[i].size <= MAXFILE * BSIZE && MappedTo(blocks, inodes[i], inodes[i].size)
  }

  /** f with the bytes from off on replaced by src, extended if src reaches further. */
  function Splice(f: seq<byte>, off: nat, src: seq<byte>): seq<byte>
    requires off <= |f|
  {
    f[..off] + src + if off + |src| < |f| then f[off + |src|..] else []
  }

  /** The index slots and data slots of blocks a, a+1, .., b-1 of a file. */
  function Paths(a: nat, b: nat): set<Slot>
    decreases b - a
  {
    if a >= b then {} else Paths(a, b - 1) + Path(b - 1)
  }

  /** Byte p of inode j after bytes [off, cur) of inode i were overwritten from src. */
  predicate ByteStep(blocks0: seq<Sector>, ino0: Inode, blocks: seq<Sector>, ino: Inode, p: nat, j: nat, i: nat,
                     off: nat, cur: nat, src: seq<byte>)
  {
    if j == i && off <= p < cur then p - off < |src| && ByteAt(blocks, ino, p) == src[p - off]
    else Mapped(blocks0, ino0, p / BSIZE) ==> ByteAt(blocks, ino, p) == ByteAt(blocks0, ino0, p)
  }

  /** Slot s of inode j across a write to inode i: kept, or new at one of `slots` of i. */
  predicate AddrStep(blocks0: seq<Sector>, ino0: Inode, blocks: seq<Sector>, ino: Inode, s: Slot, j: nat, i: nat,
                     slots: set<Slot>)
  {
    var a, a' := Addr(blocks0, ino0, s), Addr(blocks, ino, s);
    && (a != 0 ==> a' == a)
    && (a == 0 && a' != 0 ==> j == i && s in slots)
  }

  /** Bytes [off, cur) of inode i have been overwritten from src; nothing else changed but for
      blocks added to inode i.  Logged meanwhile: the bitmap blocks of added blocks, and blocks of
      the index paths of the file blocks written. */
  ghost predicate Wrote(g: Super, blocks0: seq<Sector>, inodes0: map<nat, Inode>, own0: map<nat, Owner>,
                        logged0: set<nat>,
                        blocks: seq<Sector>, inodes: map<nat, Inode>, own: map<nat, Owner>, logged: set<nat>,
                        i: nat, off: nat, cur: nat, src: seq<byte>, slots: set<Slot>)
  {
    && |blocks| == |blocks0| && inodes.Keys == inodes0.Keys && i in inodes0
    && (forall j :: j in inodes0 ==> inodes[j] == if j == i then inodes0[i].(addrs := inodes[i].addrs) else inodes0[j])
    && (forall j, s :: j in inodes0 ==> AddrStep(blocks0, inodes0[j], blocks, inodes[j], s, j, i, slots))
    && (forall j, p: nat :: j in inodes0 ==> ByteStep(blocks0, inodes0[j], blocks, inodes[j], p, j, i, off, cur, src))
    && (forall b :: b in own0 ==> b in own)
    && InodesKept(g, blocks0, blocks) && OwnStep(g, own0, own, i)
    && logged0 <= logged <= logged0 + NewMaps(g, own0, own) + Addrs(blocks, inodes[i], slots)
    && OnlyLogged(blocks0, blocks, logged)
  }

  lemma WroteNothing(g: Super, blocks: seq<Sector>, inodes: map<nat, Inode>, own: map<nat, Owner>, logged: set<nat>,
                     i: nat, off: nat, src: seq<byte>)
    requires i in inodes
    ensures Wrote(g, blocks, inodes, own, logged, blocks, inodes, own, logged, i, off, off, src, {})
  {
    hide Addr, NewMaps;
  }

  /** Writing a data block changes no address and no ownership. */
  lemma DataOwned(g: Super, blocks: seq<Sector>, inodes: map<nat, Inode>, own: map<nat, Owner>, b: nat, d: Sector)
    requires Owned(g, blocks, inodes, own) && b in own && own[b].File? && !own[b].s.Table()
    ensures Owned(g, blocks[b := d], inodes, own)
    ensures forall j, s :: j in inodes ==> Addr(blocks[b := d], inodes[j], s) == Addr(blocks, inodes[j], s)
  {
    hide Addr, Used, BBlock;
    var blocks' := blocks[b := d];
    forall j, s | j in inodes ensures Addr(blocks', inodes[j], s) == Addr(blocks, inodes[j], s) {
      AddrFrame(g, blocks, blocks', inodes, own, j, s);
    }
    forall x: nat | x < g.size ensures Used(g, blocks', x) == Used(g, blocks, x) {
      BitmapBelowData(g, x);
      UsedFrame(g, blocks, b, d, x);
    }
  }

  /** Growing a file changes no byte that was present. */
  lemma GrewBytes(g: Super, blocks: seq<Sector>, inodes: map<nat, Inode>, own: map<nat, Owner>,
                  blocks': seq<Sector>, inodes': map<nat, Inode>, own': map<nat, Owner>, i: nat, slots: set<Slot>,
                    j: nat, p: nat)
    requires Owned(g, blocks, inodes, own) && Extends(blocks, inodes, own, blocks', inodes', own', i, slots)
    requires j in inodes && Mapped(blocks, inodes[j], p / BSIZE)
    ensures Mapped(blocks', inodes'[j], p / BSIZE) && ByteAt(blocks', inodes'[j], p) == ByteAt(blocks, inodes[j], p)
  {
    hide Addr, Used, BBlock;
    var s := SlotOf(p / BSIZE);
    assert SlotStep(blocks, inodes[j], blocks', inodes'[j], s, j, i, slots);
    assert own[Addr(blocks, inodes[j], s)] == File(j, s);
    assert DataKept(blocks, own, blocks', Addr(blocks, inodes[j], s));
  }

  /** The sector with the bytes from k on replaced by src. */
  function Patch(d: Sector, k: nat, src: seq<byte>): (r: Sector)
    requires k + |src| <= BSIZE
    ensures forall q :: 0 <= q < BSIZE ==> r[q] == if k <= q < k + |src| then src[q - k] else d[q]
  {
    d[..k] + src + d[k + |src|..]
  }

  /** One iteration of the loop of `writei`: block bn of inode i was found or allocated, then m
      bytes of it overwritten. */
  lemma WroteMore(g: Super, blocks0: seq<Sector>, inodes0: map<nat, Inode>, own0: map<nat, Owner>, logged0: set<nat>,
                  blocks1: seq<Sector>, inodes1: map<nat, Inode>, own1: map<nat, Owner>, logged1: set<nat>,
                  blocks2: seq<Sector>, inodes2: map<nat, Inode>, own2: map<nat, Owner>, logged2: set<nat>,
                  a: nat, blocks3: seq<Sector>, i: nat, off: nat, cur: nat, m: nat, src: seq<byte>, slots: set<Slot>)
    requires i in inodes0 && i in inodes1 && i in inodes2 && a < |blocks2|
    requires off <= cur && cur % BSIZE + m <= BSIZE && cur - off + m <= |src|
    requires blocks3 == blocks2[a := Patch(blocks2[a], cur % BSIZE, src[cur - off..cur - off + m])]
    requires MappedTo(blocks1, inodes1[i], cur) && a == Addr(blocks2, inodes2[i], SlotOf(cur / BSIZE)) != 0
    requires Owned(g, blocks0, inodes0, own0) && Owned(g, blocks1, inodes1, own1) && Owned(g, blocks2, inodes2, own2)
    requires Wrote(g, blocks0, inodes0, own0, logged0, blocks1, inodes1, own1, logged1, i, off, cur, src, slots)
    requires Grew(g, blocks1, inodes1, own1, logged1, blocks2, inodes2, own2, logged2, i, Path(cur / BSIZE))
    ensures Owned(g, blocks3, inodes2, own2)
    ensures Wrote(g, blocks0, inodes0, own0, logged0, blocks3, inodes2, own2, logged2 + {a}, i, off, cur + m, src,
      slots + Path(cur / BSIZE))
    ensures MappedTo(blocks3, inodes2[i], cur + m)
  {
    hide Used, BBlock, NewMaps, OwnStep, Path, Addr, OnlyLogged;
    var bn := cur / BSIZE;
    OnlyLoggedTrans(blocks0, blocks1, blocks2, logged1, logged2);
    OneLogged(blocks0, blocks2, logged2, a, blocks3[a]);
    assert own2[a] == File(i, SlotOf(bn));
    DataOwned(g, blocks2, inodes2, own2, a, blocks3[a]);
    MoreBytes(g, blocks0, inodes0, own0, logged0, blocks1, inodes1, own1, logged1, blocks2, inodes2, own2, a, blocks3,
      i, off, cur, m, src, slots);
    MoreAddrs(g, blocks0, inodes0, own0, logged0, blocks1, inodes1, own1, logged1, blocks2, inodes2, own2, blocks3, i,
      off, cur, src, slots, bn);
    hide Owned, Extends, AddrStep, ByteStep, SlotStep;
    AddrsGrow(blocks1, inodes1, own1, blocks2, inodes2, own2, i, slots, Path(bn));
    OwnStepTrans(g, own0, own1, own2, i);
    AddrsSame(blocks2, blocks3, inodes2, i, slots, Path(bn));
    SlotOnPath(bn);
    assert a in Addrs(blocks2, inodes2[i], Path(bn));
    MappedMore(blocks1, inodes1, own1, blocks2, inodes2, own2, blocks3, i, cur, m);
  }

  lemma MoreAddrs(g: Super, blocks0: seq<Sector>, inodes0: map<nat, Inode>, own0: map<nat, Owner>, logged0: set<nat>,
                  blocks1: seq<Sector>, inodes1: map<nat, Inode>, own1: map<nat, Owner>, logged1: set<nat>,
                  blocks2: seq<Sector>, inodes2: map<nat, Inode>, own2: map<nat, Owner>, blocks3: seq<Sector>,
                  i: nat, off: nat, cur: nat, src: seq<byte>, slots: set<Slot>, bn: nat)
    requires Wrote(g, blocks0, inodes0, own0, logged0, blocks1, inodes1, own1, logged1, i, off, cur, src, slots)
    requires Extends(blocks1, inodes1, own1, blocks2, inodes2, own2, i, Path(bn)) && InodesKept(g, blocks1, blocks2)
    requires |blocks3| == |blocks2| && forall j, s ::
      j in inodes2 ==> Addr(blocks3, inodes2[j], s) == Addr(blocks2, inodes2[j], s)
    requires InodesKept(g, blocks2, blocks3)
    ensures |blocks3| == |blocks0| && inodes2.Keys == inodes0.Keys
    ensures forall j ::
      j in inodes0 ==> inodes2[j] == if j == i then inodes0[i].(addrs := inodes2[i].addrs) else inodes0[j]
    ensures forall j, s ::
      j in inodes0 ==> AddrStep(blocks0, inodes0[j], blocks3, inodes2[j], s, j, i, slots + Path(bn))
    ensures forall b :: b in own0 ==> b in own2
    ensures InodesKept(g, blocks0, blocks3)
  {
    hide Addr, NewMaps, OwnStep, Path, ByteStep;
    forall j, s | j in inodes0 ensures AddrStep(blocks0, inodes0[j], blocks3, inodes2[j], s, j, i, slots + Path(bn)) {
      assert j in inodes1 && AddrStep(blocks0, inodes0[j], blocks1, inodes1[j], s, j, i, slots);
      assert SlotStep(blocks1, inodes1[j], blocks2, inodes2[j], s, j, i, Path(bn));
    }
    assert forall j :: j in inodes0 ==> j in inodes1;
    forall b: nat | b < g.ninodes / IPB + 3 && b < |blocks0| ensures Contains(blocks3, b, blocks0[b]) {
      assert Contains(blocks1, b, blocks0[b]) && Contains(blocks2, b, blocks1[b]) && Contains(blocks3, b, blocks2[b]);
    }
  }

  lemma MoreBytes(g: Super, blocks0: seq<Sector>, inodes0: map<nat, Inode>, own0: map<nat, Owner>, logged0: set<nat>,
                  blocks1: seq<Sector>, inodes1: map<nat, Inode>, own1: map<nat, Owner>, logged1: set<nat>,
                  blocks2: seq<Sector>, inodes2: map<nat, Inode>, own2: map<nat, Owner>,
                  a: nat, blocks3: seq<Sector>, i: nat, off: nat, cur: nat, m: nat, src: seq<byte>, slots: set<Slot>)
    requires Owned(g, blocks1, inodes1, own1) && Owned(g, blocks2, inodes2, own2)
    requires Wrote(g, blocks0, inodes0, own0, logged0, blocks1, inodes1, own1, logged1, i, off, cur, src, slots)
    requires Extends(blocks1, inodes1, own1, blocks2, inodes2, own2, i, Path(cur / BSIZE))
    requires MappedTo(blocks1, inodes1[i], cur) && a == Addr(blocks2, inodes2[i], SlotOf(cur / BSIZE)) != 0
      && a < |blocks2|
    requires off <= cur && cur % BSIZE + m <= BSIZE && cur - off + m <= |src|
    requires blocks3 == blocks2[a := Patch(blocks2[a], cur % BSIZE, src[cur - off..cur - off + m])]
    requires forall j, s :: j in inodes2 ==> Addr(blocks3, inodes2[j], s) == Addr(blocks2, inodes2[j], s)
    ensures var cur' := cur + m;
            forall j, p: nat ::
              j in inodes0 ==> ByteStep(blocks0, inodes0[j], blocks3, inodes2[j], p, j, i, off, cur', src)
  {
    hide Owned, Addr, NewMaps, OwnStep, Path, MappedTo, Patch;
    var cur' := cur + m;
    forall j, p: nat | j in inodes0
      ensures ByteStep(blocks0, inodes0[j], blocks3, inodes2[j], p, j, i, off, cur', src) {
      assert ByteStep(blocks0, inodes0[j], blocks1, inodes1[j], p, j, i, off, cur, src);
      WroteByte(g, blocks1, inodes1, own1, blocks2, inodes2, own2, blocks3, i, off, cur, m, src, j, p);
      assert AddrStep(blocks0, inodes0[j], blocks1, inodes1[j], SlotOf(p / BSIZE), j, i, slots);
    }
  }

  lemma MappedMore(blocks1: seq<Sector>, inodes1: map<nat, Inode>, own1: map<nat, Owner>, blocks2: seq<Sector>,
                   inodes2: map<nat, Inode>,
                   own2: map<nat, Owner>, blocks3: seq<Sector>, i: nat, cur: nat, m: nat)
    requires Extends(blocks1, inodes1, own1, blocks2, inodes2, own2, i, Path(cur / BSIZE))
    requires forall j, s :: j in inodes2 ==> Addr(blocks3, inodes2[j], s) == Addr(blocks2, inodes2[j], s)
    requires MappedTo(blocks1, inodes1[i], cur) && Mapped(blocks2, inodes2[i], cur / BSIZE) && cur % BSIZE + m <= BSIZE
    ensures MappedTo(blocks3, inodes2[i], cur + m)
  {
    hide Addr, SlotOf, Path;
    forall k: nat | k * BSIZE < cur + m ensures Mapped(blocks3, inodes2[i], k) {
      if k != cur / BSIZE {
        assert k * BSIZE < cur && Mapped(blocks1, inodes1[i], k);
        assert SlotStep(blocks1, inodes1[i], blocks2, inodes2[i], SlotOf(k), i, i, Path(cur / BSIZE));
      }
    }
  }

  lemma SlotOnPath(bn: nat)
    ensures SlotOf(bn) in Path(bn)
  {
  }

  lemma AddrsSame(blocks: seq<Sector>, blocks': seq<Sector>, inodes: map<nat, Inode>, i: nat, s1: set<Slot>,
                  s2: set<Slot>)
    requires i in inodes && forall s :: Addr(blocks', inodes[i], s) == Addr(blocks, inodes[i], s)
    ensures Addrs(blocks', inodes[i], s1 + s2) == Addrs(blocks, inodes[i], s1) + Addrs(blocks, inodes[i], s2)
  {
    hide Addr;
  }

  lemma WroteByte(g: Super, blocks1: seq<Sector>, inodes1: map<nat, Inode>, own1: map<nat, Owner>,
                  blocks2: seq<Sector>, inodes2: map<nat, Inode>, own2: map<nat, Owner>, blocks3: seq<Sector>,
                  i: nat, off: nat, cur: nat, m: nat, src: seq<byte>, j: nat, p: nat)
    requires Owned(g, blocks1, inodes1, own1) && Owned(g, blocks2, inodes2, own2)
    requires Extends(blocks1, inodes1, own1, blocks2, inodes2, own2, i, Path(cur / BSIZE))
    requires MappedTo(blocks1, inodes1[i], cur) && Mapped(blocks2, inodes2[i], cur / BSIZE) && j in inodes1
    requires off <= cur && cur % BSIZE + m <= BSIZE && cur - off + m <= |src|
    requires var a := Addr(blocks2, inodes2[i], SlotOf(cur / BSIZE));
             a < |blocks2| && blocks3 == blocks2[a := Patch(blocks2[a], cur % BSIZE, src[cur - off..cur - off + m])]
    requires forall s :: Addr(blocks3, inodes2[j], s) == Addr(blocks2, inodes2[j], s)
    ensures ByteStep(blocks1, inodes1[j], blocks3, inodes2[j], p, j, i, cur, cur + m, src[cur - off..])
    ensures j == i && off <= p < cur ==> Mapped(blocks1, inodes1[j], p / BSIZE)
  {
    hide Addr, Used, BBlock, Path;
    var bn, b2 := cur / BSIZE, Addr(blocks2, inodes2[j], SlotOf(p / BSIZE));
    var a := Addr(blocks2, inodes2[i], SlotOf(bn));
    assert own2[a] == File(i, SlotOf(bn));
    if j == i && off <= p < cur {
      assert (p / BSIZE) * BSIZE < cur;
    }
    if j == i && cur <= p < cur + m {
      assert p / BSIZE == bn && p % BSIZE == cur % BSIZE + (p - cur);
    } else if Mapped(blocks1, inodes1[j], p / BSIZE) {
      GrewBytes(g, blocks1, inodes1, own1, blocks2, inodes2, own2, i, Path(bn), j, p);
      assert own2[b2] == File(j, SlotOf(p / BSIZE));
      if b2 == a {
        SlotOfInjective(p / BSIZE, bn);
        assert p == bn * BSIZE + p % BSIZE && cur == bn * BSIZE + cur % BSIZE;
      }
    }
  }

  // ---------- the inode on disk ----------

  const DINODE := 19          // words of a dinode before its padding
  const DSTRIDE := 32         // words of a dinode with its padding

  /** The words of the on-disk inode that `iupdate` writes. */
  function Encode(ino: Inode): (ws: seq<uint>)
    ensures |ws| == DINODE
  {
    var k: int, mj: int, mn: int, nl: int := ino.kind, ino.major, ino.minor, ino.nlink;
    [k + 0x1_0000 * mj, mn + 0x1_0000 * nl, ino.size] + ino.addrs + [ino.tags, ino.tagsCounter]
  }

  /** Inode i on disk is what it is in memory. */
  ghost predicate Synced(blocks: seq<Sector>, i: nat, ino: Inode)
  {
    && IBlock(i) < |blocks|
    && forall k: nat :: k < DINODE ==> Word(blocks[IBlock(i)], DSTRIDE * (i % IPB) + k) == Encode(ino)[k]
  }

  ghost predicate AllSynced(g: Super, blocks: seq<Sector>, inodes: map<nat, Inode>)
  {
    forall j :: j in inodes ==> j < g.ninodes && Synced(blocks, j, inodes[j])
  }

  ghost predicate OthersSynced(g: Super, blocks: seq<Sector>, inodes: map<nat, Inode>, i: nat)
  {
    forall j :: j in inodes && j != i ==> j < g.ninodes && Synced(blocks, j, inodes[j])
  }

  /** The blocks after `iupdate` of inode i. */
  function Updated(blocks: seq<Sector>, i: nat, ino: Inode): seq<Sector>
    requires IBlock(i) < |blocks|
  {
    blocks[IBlock(i) := WithWords(blocks[IBlock(i)], DSTRIDE * (i % IPB), Encode(ino))]
  }

  lemma UpdateSyncs(blocks: seq<Sector>, i: nat, ino: Inode)
    requires IBlock(i) < |blocks|
    ensures Synced(Updated(blocks, i, ino), i, ino)
  {
    hide Word, WithWords, Encode;
    var at := DSTRIDE * (i % IPB);
    forall k: nat | k < DINODE ensures Word(Updated(blocks, i, ino)[IBlock(i)], at + k) == Encode(ino)[k] {
      WordOfWithWords(blocks[IBlock(i)], at, Encode(ino), at + k);
    }
  }

  lemma UpdateSyncsOther(blocks: seq<Sector>, i: nat, ino: Inode, j: nat, other: Inode)
    requires IBlock(i) < |blocks| && i != j && Synced(blocks, j, other)
    ensures Synced(Updated(blocks, i, ino), j, other)
  {
    hide Word, WithWords, Encode;
    if IBlock(i) == IBlock(j) {
      var at, at' := DSTRIDE * (i % IPB), DSTRIDE * (j % IPB);
      assert i % IPB != j % IPB;
      forall k: nat | k < DINODE ensures Word(Updated(blocks, i, ino)[IBlock(j)], at' + k) == Encode(other)[k] {
        WordOfWithWords(blocks[IBlock(i)], at, Encode(ino), at' + k);
      }
    }
  }

  lemma UpdateAllSynced(g: Super, blocks: seq<Sector>, inodes: map<nat, Inode>, i: nat, ino: Inode)
    requires i < g.ninodes && IBlock(i) < |blocks|
    requires forall j :: j in inodes && j != i ==> j < g.ninodes && Synced(blocks, j, inodes[j])
    ensures AllSynced(g, Updated(blocks, i, ino), inodes[i := ino])
  {
    hide Word, WithWords, Encode;
    UpdateSyncs(blocks, i, ino);
    forall j | j in inodes && j != i ensures Synced(Updated(blocks, i, ino), j, inodes[j]) {
      UpdateSyncsOther(blocks, i, ino, j, inodes[j]);
    }
  }

  /** Writing an inode block changes no address, no ownership and no file byte. */
  lemma UpdateOwned(g: Super, blocks: seq<Sector>, inodes: map<nat, Inode>, own: map<nat, Owner>, i: nat, ino: Inode)
    requires Owned(g, blocks, inodes, own) && i < g.ninodes
    ensures IBlock(i) < |blocks| && IBlock(i) < DataStart(g)
    ensures Owned(g, Updated(blocks, i, ino), inodes, own)
    ensures forall j, s :: j in inodes ==> Addr(Updated(blocks, i, ino), inodes[j], s) == Addr(blocks, inodes[j], s)
    ensures forall b :: DataStart(g) <= b < |blocks| ==> Updated(blocks, i, ino)[b] == blocks[b]
  {
    hide Addr, Used, BBlock, Encode, WithWords;
    InodesBelowBitmap(g, i);
    var blocks' := Updated(blocks, i, ino);
    forall j, s | j in inodes ensures Addr(blocks', inodes[j], s) == Addr(blocks, inodes[j], s) {
      AddrFrame(g, blocks, blocks', inodes, own, j, s);
    }
    forall x: nat | x < g.size ensures Used(g, blocks', x) == Used(g, blocks, x) {
      BitmapBelowData(g, x);
      UsedFrame(g, blocks, IBlock(i), blocks'[IBlock(i)], x);
    }
  }

  /** The on-disk inodes survive anything that keeps the inode area. */
  lemma KeptSynced(g: Super, blocks: seq<Sector>, blocks': seq<Sector>, j: nat, ino: Inode)
    requires InodesKept(g, blocks, blocks') && j < g.ninodes && Synced(blocks, j, ino)
    ensures Synced(blocks', j, ino)
  {
    hide Word, Encode;
    InodesBelowBitmap(g, j);
    assert Contains(blocks', IBlock(j), blocks[IBlock(j)]);
  }

  // ---------- the whole write ----------

  /** One past the last file block that n bytes at off touch. */
  function BlockEnd(off: nat, n: nat): nat
  {
    if n == 0 then off / BSIZE else (off + n - 1) / BSIZE + 1
  }

  lemma NextBlock(off: nat, tot: nat, m: nat, n: nat)
    requires tot < n && BlockEnd(off, tot) == (off + tot) / BSIZE
    requires m == if n - tot < BSIZE - (off + tot) % BSIZE then n - tot else BSIZE - (off + tot) % BSIZE
    ensures m > 0 && BlockEnd(off, tot + m) == BlockEnd(off, tot) + 1
    ensures tot + m < n ==> BlockEnd(off, tot + m) == (off + tot + m) / BSIZE
    ensures BlockEnd(off, tot) >= off / BSIZE
    ensures Paths(off / BSIZE, BlockEnd(off, tot) + 1) == Paths(off / BSIZE,
      BlockEnd(off, tot)) + Path((off + tot) / BSIZE)
  {
    hide Path;
  }

  lemma MappedLess(blocks: seq<Sector>, ino: Inode, m: nat, n: nat)
    requires m <= n && MappedTo(blocks, ino, n)
    ensures MappedTo(blocks, ino, m)
  {
    hide Addr;
    forall k: nat | k * BSIZE < m ensures Mapped(blocks, ino, k) {
    }
  }

  ghost predicate SameFile(blocks0: seq<Sector>, inodes0: map<nat, Inode>, blocks: seq<Sector>, inodes: map<nat,
                           Inode>, j: nat)
  {
    j in inodes0 && j in inodes && inodes[j] == inodes0[j] && Content(blocks, inodes[j]) == Content(blocks0, inodes0[j])
  }

  /** Every file but i is unchanged, in its inode and in its contents. */
  ghost predicate OthersSame(blocks0: seq<Sector>, inodes0: map<nat, Inode>, blocks: seq<Sector>, inodes: map<nat,
                             Inode>, i: nat)
  {
    inodes.Keys == inodes0.Keys && forall j :: j in inodes && j != i ==> SameFile(blocks0, inodes0, blocks, inodes, j)
  }

  lemma OthersTrans(blocks0: seq<Sector>, inodes0: map<nat, Inode>, blocks1: seq<Sector>, inodes1: map<nat, Inode>,
                    blocks: seq<Sector>, inodes: map<nat, Inode>, i: nat)
    requires OthersSame(blocks0, inodes0, blocks1, inodes1, i) && OthersSame(blocks1, inodes1, blocks, inodes, i)
    ensures OthersSame(blocks0, inodes0, blocks, inodes, i)
  {
    hide Content;
    forall j | j in inodes && j != i ensures SameFile(blocks0, inodes0, blocks, inodes, j) {
      assert SameFile(blocks1, inodes1, blocks, inodes, j);
      assert SameFile(blocks0, inodes0, blocks1, inodes1, j);
    }
  }

  lemma BlockOf(p: nat, n: nat)
    requires p < n
    ensures (p / BSIZE) * BSIZE < n
  {
  }

  /** Files other than the one written are unchanged, in memory and on disk. */
  lemma WroteOther(g: Super, blocks0: seq<Sector>, inodes0: map<nat, Inode>, own0: map<nat, Owner>, logged0: set<nat>,
                   blocks: seq<Sector>, inodes: map<nat, Inode>, own: map<nat, Owner>, logged: set<nat>,
                   i: nat, off: nat, cur: nat, src: seq<byte>, slots: set<Slot>, j: nat)
    requires Whole(blocks0, inodes0) && AllSynced(g, blocks0, inodes0)
    requires Wrote(g, blocks0, inodes0, own0, logged0, blocks, inodes, own, logged, i, off, cur, src, slots)
    requires j in inodes0 && j != i
    ensures SameFile(blocks0, inodes0, blocks, inodes, j) && Synced(blocks, j, inodes[j])
    ensures MappedTo(blocks, inodes[j], inodes[j].size)
  {
    hide Addr, NewMaps, Word, Encode, SlotOf;
    forall p: nat | p < inodes0[j].size ensures ByteAt(blocks, inodes[j], p) == ByteAt(blocks0, inodes0[j], p) {
      BlockOf(p, inodes0[j].size);
      assert Mapped(blocks0, inodes0[j], p / BSIZE);
      assert ByteStep(blocks0, inodes0[j], blocks, inodes[j], p, j, i, off, cur, src);
    }
    forall k: nat | k * BSIZE < inodes0[j].size ensures Mapped(blocks, inodes[j], k) {
      assert Mapped(blocks0, inodes0[j], k);
      assert AddrStep(blocks0, inodes0[j], blocks, inodes[j], SlotOf(k), j, i, slots);
    }
    KeptSynced(g, blocks0, blocks, j, inodes[j]);
  }

  /** The written file, at its final length, has exactly the spliced contents. */
  lemma WroteContent(g: Super, blocks0: seq<Sector>, inodes0: map<nat, Inode>, own0: map<nat, Owner>, logged0: set<nat>,
                     blocks: seq<Sector>, inodes: map<nat, Inode>, own: map<nat, Owner>, logged: set<nat>,
                     i: nat, off: nat, src: seq<byte>, slots: set<Slot>, size': uint)
    requires Wrote(g, blocks0, inodes0, own0, logged0, blocks, inodes, own, logged, i, off, off + |src|, src, slots)
    requires MappedTo(blocks0, inodes0[i], inodes0[i].size) && off <= inodes0[i].size
    requires size' == if off + |src| > inodes0[i].size then off + |src| else inodes0[i].size
    ensures Content(blocks, inodes[i].(size := size')) == Splice(Content(blocks0, inodes0[i]), off, src)
  {
    hide Addr, NewMaps, SlotOf;
    var f, f' := Content(blocks0, inodes0[i]), Content(blocks, inodes[i].(size := size'));
    var sp := Splice(f, off, src);
    forall p: nat | p < size' ensures f'[p] == sp[p] {
      assert ByteStep(blocks0, inodes0[i], blocks, inodes[i], p, i, i, off, off + |src|, src);
      SizeByte(blocks, inodes[i], size', p);
      if p < inodes0[i].size {
        BlockOf(p, inodes0[i].size);
        assert Mapped(blocks0, inodes0[i], p / BSIZE);
      }
    }
  }

  /** Addresses and bytes do not depend on the recorded size. */
  lemma SizeByte(blocks: seq<Sector>, ino: Inode, z: uint, p: nat)
    ensures ByteAt(blocks, ino.(size := z), p) == ByteAt(blocks, ino, p)
    ensures forall s :: Addr(blocks, ino.(size := z), s) == Addr(blocks, ino, s)
  {
  }

  /** A write that stays inside the file allocates nothing. */
  lemma WroteInPlace(g: Super, blocks0: seq<Sector>, inodes0: map<nat, Inode>, own0: map<nat, Owner>, logged0: set<nat>,
                     blocks: seq<Sector>, inodes: map<nat, Inode>, own: map<nat, Owner>, logged: set<nat>,
                     i: nat, off: nat, src: seq<byte>)
    requires Wrote(g, blocks0, inodes0, own0, logged0, blocks, inodes, own, logged, i, off, off + |src|, src,
      Paths(off / BSIZE, BlockEnd(off, |src|)))
    requires MappedTo(blocks0, inodes0[i], inodes0[i].size) && off + |src| <= inodes0[i].size
    ensures inodes == inodes0
  {
    hide NewMaps, Ent, Path;
    forall k: nat | k < NDIRECT + 2 ensures inodes[i].addrs[k] == inodes0[i].addrs[k] {
      var s := TopSlot(k);
      assert AddrStep(blocks0, inodes0[i], blocks, inodes[i], s, i, i, Paths(off / BSIZE, BlockEnd(off, |src|)));
      if s in Paths(off / BSIZE, BlockEnd(off, |src|)) {
        PathsMapped(blocks0, inodes0[i], off / BSIZE, BlockEnd(off, |src|), s);
      }
    }
    assert inodes[i].addrs == inodes0[i].addrs;
  }

  lemma {:induction false} PathsMapped(blocks: seq<Sector>, ino: Inode, a: nat, b: nat, s: Slot)
    requires s in Paths(a, b) && forall k: nat :: a <= k < b ==> Mapped(blocks, ino, k)
    ensures Addr(blocks, ino, s) != 0
    decreases b - a
  {
    if s in Path(b - 1) {
      PathMapped(blocks, ino, b - 1, s);
    } else {
      PathsMapped(blocks, ino, a, b - 1, s);
    }
  }

  lemma PathMapped(blocks: seq<Sector>, ino: Inode, bn: nat, s: Slot)
    requires s in Path(bn) && Mapped(blocks, ino, bn)
    ensures Addr(blocks, ino, s) != 0
  {
    hide Word;
  }

  /** The sectors a write of n bytes at off may log before its `iupdate`. */
  ghost function WriteSet(g: Super, own0: map<nat, Owner>, own: map<nat, Owner>, logged0: set<nat>,
                          blocks: seq<Sector>, ino: Inode,
                          off: nat, n: nat): set<nat>
  {
    logged0 + NewMaps(g, own0, own) + Addrs(blocks, ino, Paths(off / BSIZE, BlockEnd(off, n)))
  }

  /** The state after the loop of `writei`. */
  ghost predicate LoopDone(g: Super, blocks0: seq<Sector>, inodes0: map<nat, Inode>, own0: map<nat, Owner>,
                           logged0: set<nat>,
                           blocks: seq<Sector>, inodes: map<nat, Inode>, own: map<nat, Owner>, logged: set<nat>,
                             i: nat, off: nat, src: seq<byte>, size': uint)
  {
    && inodes.Keys == inodes0.Keys && i in inodes && i < g.ninodes && off <= inodes0[i].size
    && Whole(blocks, inodes)
    && OthersSame(blocks0, inodes0, blocks, inodes, i) && OthersSynced(g, blocks, inodes, i)
    && inodes[i].size == inodes0[i].size
    && (off + |src| <= inodes0[i].size ==> AllSynced(g, blocks, inodes) && inodes == inodes0)
    && Content(blocks, inodes[i].(size := size')) == Splice(Content(blocks0, inodes0[i]), off, src)
    && logged0 <= logged <= WriteSet(g, own0, own, logged0, blocks, inodes[i], off, |src|)
  }

  lemma WroteFiles(g: Super, blocks0: seq<Sector>, inodes0: map<nat, Inode>, own0: map<nat, Owner>, logged0: set<nat>,
                   blocks: seq<Sector>, inodes: map<nat, Inode>, own: map<nat, Owner>, logged: set<nat>,
                   i: nat, off: nat, src: seq<byte>, size': uint)
    requires Whole(blocks0, inodes0) && AllSynced(g, blocks0, inodes0) && i in inodes0 && off <= inodes0[i].size
    requires Wrote(g, blocks0, inodes0, own0, logged0, blocks, inodes, own, logged, i, off, off + |src|, src,
      Paths(off / BSIZE, BlockEnd(off, |src|)))
    requires size' == if off + |src| > inodes0[i].size then off + |src| else inodes0[i].size
    ensures LoopDone(g, blocks0, inodes0, own0, logged0, blocks, inodes, own, logged, i, off, src, size')
  {
    var slots := Paths(off / BSIZE, BlockEnd(off, |src|));
    assert inodes.Keys == inodes0.Keys && inodes[i].size == inodes0[i].size && InodesKept(g, blocks0, blocks)
           && logged0 <= logged <= WriteSet(g, own0, own, logged0, blocks, inodes[i], off, |src|);
    OwnMapped(g, blocks0, inodes0, own0, logged0, blocks, inodes, own, logged, i, off, src, slots);
    hide Wrote, Addr, NewMaps, Word, Encode, Synced, Content, Splice, MappedTo;
    assert MappedTo(blocks0, inodes0[i], inodes0[i].size);
    WroteContent(g, blocks0, inodes0, own0, logged0, blocks, inodes, own, logged, i, off, src, slots, size');
    forall j | j in inodes0 && j != i
      ensures SameFile(blocks0, inodes0, blocks, inodes, j) && Synced(blocks, j, inodes[j])
        && MappedTo(blocks, inodes[j], inodes[j].size)
    {
      WroteOther(g, blocks0, inodes0, own0, logged0, blocks, inodes, own, logged, i, off, off + |src|, src, slots, j);
    }
    if off + |src| <= inodes0[i].size {
      WroteInPlace(g, blocks0, inodes0, own0, logged0, blocks, inodes, own, logged, i, off, src);
      KeptSynced(g, blocks0, blocks, i, inodes[i]);
    }
  }

  lemma OwnMapped(g: Super, blocks0: seq<Sector>, inodes0: map<nat, Inode>, own0: map<nat, Owner>, logged0: set<nat>,
                  blocks: seq<Sector>, inodes: map<nat, Inode>, own: map<nat, Owner>, logged: set<nat>,
                  i: nat, off: nat, src: seq<byte>, slots: set<Slot>)
    requires Wrote(g, blocks0, inodes0, own0, logged0, blocks, inodes, own, logged, i, off, off + |src|, src, slots)
    requires MappedTo(blocks0, inodes0[i], inodes0[i].size)
    ensures MappedTo(blocks, inodes[i], inodes0[i].size)
  {
    hide Addr, NewMaps, SlotOf;
    forall k: nat | k * BSIZE < inodes0[i].size ensures Mapped(blocks, inodes[i], k) {
      assert Mapped(blocks0, inodes0[i], k);
      assert AddrStep(blocks0, inodes0[i], blocks, inodes[i], SlotOf(k), i, i, slots);
    }
  }

  /** Recording a new size changes no address. */
  lemma ResizeOwned(g: Super, blocks: seq<Sector>, inodes: map<nat, Inode>, own: map<nat, Owner>, i: nat, z: uint)
    requires Owned(g, blocks, inodes, own) && i in inodes
    ensures Owned(g, blocks, inodes[i := inodes[i].(size := z)], own)
    ensures forall j, s ::
      j in inodes ==> Addr(blocks, inodes[i := inodes[i].(size := z)][j], s) == Addr(blocks, inodes[j], s)
  {
    hide Used, BBlock;
    var inodes' := inodes[i := inodes[i].(size := z)];
    forall j, s | j in inodes ensures Addr(blocks, inodes'[j], s) == Addr(blocks, inodes[j], s) {
      SizeByte(blocks, inodes[i], z, 0);
    }
    hide Addr;
    assert forall b ::
      b in own && own[b].File? ==> own[b].i in inodes && Addr(blocks, inodes'[own[b].i], own[b].s) == b;
  }

  /** The file blocks are as they were; index blocks, tag blocks and the rest need not be. */
  ghost predicate Undisturbed(blocks: seq<Sector>, own: map<nat, Owner>, blocks': seq<Sector>)
  {
    forall b: nat ::
      b < |blocks| && b in own && own[b].File? && !own[b].s.Table() && own[b].s != Tags ==>
      Contains(blocks', b, blocks[b])
  }

  /** A file whose blocks are recorded as before and undisturbed is the same file. */
  lemma FileKept(g: Super, blocks: seq<Sector>, inodes: map<nat, Inode>, own: map<nat, Owner>, blocks': seq<Sector>,
                 j: nat, ino': Inode)
    requires Owned(g, blocks, inodes, own) && |blocks'| == |blocks| && Undisturbed(blocks, own, blocks')
    requires j in inodes && MappedTo(blocks, inodes[j], inodes[j].size) && ino'.size == inodes[j].size
    requires forall s :: s != Tags ==> Addr(blocks', ino', s) == Addr(blocks, inodes[j], s)
    ensures Content(blocks', ino') == Content(blocks, inodes[j]) && MappedTo(blocks', ino', ino'.size)
  {
    hide Addr, Used, BBlock, SlotOf;
    var ino := inodes[j];
    forall p: nat | p < ino.size ensures ByteAt(blocks', ino', p) == ByteAt(blocks, ino, p) {
      var s := SlotOf(p / BSIZE);
      BlockOf(p, ino.size);
      assert Mapped(blocks, ino, p / BSIZE);
      DataSlot(p / BSIZE);
      FreshBlock(g, blocks, inodes, own, j, s);
      assert own[Addr(blocks, ino, s)] == File(j, s);
      assert Contains(blocks', Addr(blocks, ino, s), blocks[Addr(blocks, ino, s)]);
    }
    forall k: nat | k * BSIZE < ino'.size ensures Mapped(blocks', ino', k) {
      DataSlot(k);
      assert Mapped(blocks, ino, k);
    }
  }

  lemma DataSlot(bn: nat)
    ensures !SlotOf(bn).Table() && SlotOf(bn) != Tags
  {
  }

  /** `iupdate` changes no file, and afterwards every inode on disk is current. */
  lemma StoreInode(g: Super, blocks: seq<Sector>, inodes: map<nat, Inode>, own: map<nat, Owner>, i: nat)
    requires Owned(g, blocks, inodes, own) && Whole(blocks, inodes) && i in inodes && i < g.ninodes
    requires forall j :: j in inodes && j != i ==> j < g.ninodes && Synced(blocks, j, inodes[j])
    ensures IBlock(i) < |blocks| && IBlock(i) < DataStart(g)
    ensures var blocks' := Updated(blocks, i, inodes[i]);
            && Owned(g, blocks', inodes, own) && Whole(blocks', inodes) && AllSynced(g, blocks', inodes)
            && (forall j :: j in inodes ==> Content(blocks', inodes[j]) == Content(blocks, inodes[j]))
            && (forall j, s :: j in inodes ==> Addr(blocks', inodes[j], s) == Addr(blocks, inodes[j], s))
  {
    hide Word, WithWords, Encode, Used, BBlock, Content, MappedTo, Addr;
    UpdateOwned(g, blocks, inodes, own, i, inodes[i]);
    UpdateAllSynced(g, blocks, inodes, i, inodes[i]);
    assert inodes[i := inodes[i]] == inodes;
    var blocks' := Updated(blocks, i, inodes[i]);
    forall j | j in inodes ensures Content(blocks', inodes[j]) == Content(blocks, inodes[j])
      && MappedTo(blocks', inodes[j], inodes[j].size) {
      FileKept(g, blocks, inodes, own, blocks', j, inodes[j]);
    }
  }

  /** `ip->size = z; iupdate(ip)` after the loop: the file has its new length and everything is synced. */
  lemma UpdateFiles(g: Super, blocks: seq<Sector>, inodes: map<nat, Inode>, own: map<nat, Owner>, i: nat, z: uint)
    requires Owned(g, blocks, inodes, own) && Whole(blocks, inodes) && i in inodes && i < g.ninodes
    requires OthersSynced(g, blocks, inodes, i)
    requires MappedTo(blocks, inodes[i], z) && z <= MAXFILE * BSIZE
    ensures var ino' := inodes[i].(size := z);
            && IBlock(i) < |blocks|
            && var blocks', inodes' := Updated(blocks, i, ino'), inodes[i := ino'];
            && Whole(blocks', inodes') && AllSynced(g, blocks', inodes')
            && Content(blocks', ino') == Content(blocks, ino')
            && OthersSame(blocks, inodes, blocks', inodes', i)
            && (forall slots: set<Slot> :: Addrs(blocks', ino', slots) == Addrs(blocks, inodes[i], slots))
  {
    hide Word, WithWords, Encode, Used, BBlock, Content;
    var ino' := inodes[i].(size := z);
    var inodes' := inodes[i := ino'];
    ResizeOwned(g, blocks, inodes, own, i, z);
    hide Addr;
    forall j, k: nat | j in inodes' && k * BSIZE < inodes'[j].size ensures Mapped(blocks, inodes'[j], k) {
      assert Mapped(blocks, inodes[j], k);
    }
    StoreInode(g, blocks, inodes', own, i);
    forall j | j in inodes && j != i
      ensures Content(Updated(blocks, i, ino'), inodes[j]) == Content(blocks, inodes[j]) {
      assert inodes'[j] == inodes[j];
    }
    forall slots: set<Slot> ensures Addrs(Updated(blocks, i, ino'), ino', slots) == Addrs(blocks, inodes[i], slots) {
      assert forall s :: Addr(Updated(blocks, i, ino'), inodes'[i], s) == Addr(blocks, inodes[i], s);
    }
  }

  lemma FreshBlock(g: Super, blocks: seq<Sector>, inodes: map<nat, Inode>, own: map<nat, Owner>, j: nat, s: Slot)
    requires Owned(g, blocks, inodes, own) && j in inodes
    ensures Addr(blocks, inodes[j], s) == 0 || DataStart(g) <= Addr(blocks, inodes[j], s) < |blocks|
  {
  }

  // ---------- the transaction bound ----------

  lemma {:induction false} AddrsSmall(blocks: seq<Sector>, ino: Inode, slots: set<Slot>)
    ensures |Addrs(blocks, ino, slots)| <= |slots|
    decreases slots
  {
    hide Addr;
    if slots != {} {
      var s :| s in slots;
      var rest := slots - {s};
      AddrsSmall(blocks, ino, rest);
      if Addr(blocks, ino, s) != 0 {
        assert Addrs(blocks, ino, slots) == Addrs(blocks, ino, rest) + {Addr(blocks, ino, s) as nat};
      } else {
        assert Addrs(blocks, ino, slots) == Addrs(blocks, ino, rest);
      }
    }
  }

  /** The index blocks that four consecutive file blocks can need: at most three. */
  function Tables(a: nat): set<Slot>
  {
    if a + 3 < NDIRECT + NINDIRECT then {Ind}
    else if a < NDIRECT + NINDIRECT then {Ind, Dind, DindTable(0)}
    else var j := (a - NDIRECT - NINDIRECT) / NINDIRECT; {Dind, DindTable(j), DindTable(j + 1)}
  }

  /** At every offset, including the single-to-double-indirect boundary and the boundaries between
      second-level tables, four consecutive blocks lie on paths of at most seven slots. */
  lemma FourPaths(a: nat, b: nat)
    requires a <= b <= a + 4
    ensures |Paths(a, b)| <= 7
  {
    hide Path, Paths, SlotOf, Tables;
    var data := {SlotOf(a), SlotOf(a + 1), SlotOf(a + 2), SlotOf(a + 3)};
    forall k | a <= k < b ensures Path(k) <= data + Tables(a) {
      PathIn(a, k - a);
    }
    PathsIn(a, b, data + Tables(a));
    CardLe(Paths(a, b), data + Tables(a));
    TablesSmall(a);
    FourSmall(SlotOf(a), SlotOf(a + 1), SlotOf(a + 2), SlotOf(a + 3), Tables(a));
  }

  lemma TablesSmall(a: nat)
    ensures |Tables(a)| <= 3
  {
  }

  lemma FourSmall(w: Slot, x: Slot, y: Slot, z: Slot, t: set<Slot>)
    ensures |{w, x, y, z} + t| <= 4 + |t|
  {
    assert |{w, x, y, z}| <= 4;
    assert |{w, x, y, z} + t| <= |{w, x, y, z}| + |t|;
  }

  lemma PathIn(a: nat, k: nat)
    requires k < 4
    ensures Path(a + k) <= {SlotOf(a + k)} + Tables(a)
  {
    if a >= NDIRECT + NINDIRECT {
      var x := a - NDIRECT - NINDIRECT;
      assert (x + k) / NINDIRECT == x / NINDIRECT || (x + k) / NINDIRECT == x / NINDIRECT + 1;
    }
  }

  lemma {:induction false} PathsIn(a: nat, b: nat, u: set<Slot>)
    requires forall k :: a <= k < b ==> Path(k) <= u
    ensures Paths(a, b) <= u
    decreases b - a
  {
    if a < b { PathsIn(a, b - 1, u); }
  }

  /** A write of at most three blocks' worth of bytes touches at most four file blocks. */
  lemma ChunkBlocks(off: nat, n: nat)
    requires n <= 3 * BSIZE
    ensures off / BSIZE <= BlockEnd(off, n) <= off / BSIZE + 4
  {
  }

  /** The blocks marked free. */
  ghost function Free(g: Super, blocks: seq<Sector>): set<nat>
  {
    set x: nat | x < g.size && !Used(g, blocks, x)
  }

  /** The free blocks that bitmap block m describes. */
  ghost function FreeIn(g: Super, blocks: seq<Sector>, m: nat): set<nat>
  {
    set x | x in Free(g, blocks) && BBlock(g, x) == m
  }

  /** The first bitmap block with a free bit has k of them, or has all there are. */
  ghost predicate RoomIn(g: Super, blocks: seq<Sector>, m: nat, k: nat)
  {
    && (forall x :: x in Free(g, blocks) ==> BBlock(g, x) >= m)
    && (|FreeIn(g, blocks, m)| >= k || forall x :: x in Free(g, blocks) ==> BBlock(g, x) == m)
  }

  /** The blocks acquired by a write lie at the slots it may have filled. */
  lemma NewBlocks(g: Super, blocks0: seq<Sector>, inodes0: map<nat, Inode>, own0: map<nat, Owner>, logged0: set<nat>,
                  blocks: seq<Sector>, inodes: map<nat, Inode>, own: map<nat, Owner>, logged: set<nat>,
                  i: nat, off: nat, cur: nat, src: seq<byte>, slots: set<Slot>)
    requires Owned(g, blocks0, inodes0, own0) && Owned(g, blocks, inodes, own)
    requires Wrote(g, blocks0, inodes0, own0, logged0, blocks, inodes, own, logged, i, off, cur, src, slots)
    ensures own.Keys - own0.Keys <= Addrs(blocks, inodes[i], slots)
  {
    hide Addr, Used, BBlock, NewMaps;
    forall x | x in own.Keys - own0.Keys ensures x in Addrs(blocks, inodes[i], slots) {
      var s := own[x].s;
      assert Addr(blocks, inodes[i], s) == x;
      assert AddrStep(blocks0, inodes0[i], blocks, inodes[i], s, i, i, slots);
    }
  }

  lemma MapOrder(g: Super, x: nat, y: nat)
    requires BBlock(g, x) < BBlock(g, y)
    ensures x < y
  {
  }

  /** Lowest-first allocation of at most k blocks stays within a bitmap block with room for k,
      and leaves room for the rest. */
  lemma OneMap(g: Super, blocks0: seq<Sector>, inodes0: map<nat, Inode>, own0: map<nat, Owner>,
               blocks: seq<Sector>, inodes: map<nat, Inode>, own: map<nat, Owner>, i: nat, m: nat, k: nat, k': nat)
    requires Owned(g, blocks0, inodes0, own0) && Owned(g, blocks, inodes, own) && OwnStep(g, own0, own, i)
    requires RoomIn(g, blocks0, m, k) && |own.Keys - own0.Keys| + k' <= k
    ensures NewMaps(g, own0, own) <= {m} && RoomIn(g, blocks, m, k')
  {
    FreeIsUnowned(g, blocks0, inodes0, own0);
    FreeIsUnowned(g, blocks, inodes, own);
    hide Owned, Used, BBlock, Free, RoomIn;
    var taken := own.Keys - own0.Keys;
    forall x | x in taken ensures BBlock(g, x) == m {
      FirstMap(g, blocks0, own0, own, i, m, k, x);
    }
    assert Free(g, blocks) <= Free(g, blocks0) <= Free(g, blocks) + taken;
    RoomLeft(g, blocks0, blocks, taken, m, k, k');
  }

  lemma RoomLeft(g: Super, blocks0: seq<Sector>, blocks: seq<Sector>, taken: set<nat>, m: nat, k: nat, k': nat)
    requires RoomIn(g, blocks0, m, k) && |taken| + k' <= k
    requires Free(g, blocks) <= Free(g, blocks0) <= Free(g, blocks) + taken
    ensures RoomIn(g, blocks, m, k')
  {
    hide Used, BBlock, Free;
    forall x | x in FreeIn(g, blocks0, m) ensures x in FreeIn(g, blocks, m) + taken {
    }
    CardLe(FreeIn(g, blocks0, m), FreeIn(g, blocks, m) + taken);
  }

  lemma FirstMap(g: Super, blocks0: seq<Sector>, own0: map<nat, Owner>, own: map<nat, Owner>, i: nat, m: nat, k: nat,
                 x: nat)
    requires forall x :: x in Free(g, blocks0) <==> DataStart(g) <= x < g.size && x !in own0
    requires OwnStep(g, own0, own, i) && RoomIn(g, blocks0, m, k) && |own.Keys - own0.Keys| <= k
    requires x in own && x in Free(g, blocks0)
    ensures BBlock(g, x) == m
  {
    hide Used, BBlock, Free, DataStart;
    var taken := own.Keys - own0.Keys;
    if BBlock(g, x) != m {
      forall y | y in FreeIn(g, blocks0, m) ensures y in taken {
        MapOrder(g, y, x);
      }
      CardLe(FreeIn(g, blocks0, m) + {x}, taken);
      assert false;
    }
  }

  lemma FreeIsUnowned(g: Super, blocks: seq<Sector>, inodes: map<nat, Inode>, own: map<nat, Owner>)
    requires Owned(g, blocks, inodes, own)
    ensures forall x :: x in Free(g, blocks) <==> DataStart(g) <= x < g.size && x !in own
    ensures forall b :: b in own ==> DataStart(g) <= b < g.size
  {
    hide Addr, BBlock;
    forall x: nat | x < g.size ensures x in Free(g, blocks) <==> DataStart(g) <= x && x !in own {
      assert Used(g, blocks, x) == (x < DataStart(g) || x in own);
    }
  }

  /** So a chunk logs at most eight sectors before its inode, when the first bitmap block with a
      free bit has seven of them or all there are. */
  lemma ChunkFits(g: Super, own0: map<nat, Owner>, own: map<nat, Owner>, blocks: seq<Sector>, ino: Inode, off: nat,
                  n: nat, m: nat)
    requires n <= 3 * BSIZE && NewMaps(g, own0, own) <= {m}
    ensures |WriteSet(g, own0, own, {}, blocks, ino, off, n)| <= 8
  {
    hide Addr, NewMaps, Paths;
    ChunkAddrs(blocks, ino, off, n);
    CardLe(NewMaps(g, own0, own), {m});
  }

  lemma ChunkAddrs(blocks: seq<Sector>, ino: Inode, off: nat, n: nat)
    requires n <= 3 * BSIZE
    ensures |Addrs(blocks, ino, Paths(off / BSIZE, BlockEnd(off, n)))| <= 7
  {
    hide Addr, Paths;
    ChunkBlocks(off, n);
    FourPaths(off / BSIZE, BlockEnd(off, n));
    AddrsSmall(blocks, ino, Paths(off / BSIZE, BlockEnd(off, n)));
  }

  /** The bound of seven is reached where a chunk crosses from single to double indirect, and
      likewise between tables. */
  lemma SevenSlots()
    ensures |Paths(138, 142)| == 7
    ensures Paths(138, 142) == {Ind, IndEntry(126), IndEntry(127), Dind, DindTable(0), DindEntry(0, 0), DindEntry(0, 1)}
  {
    var s := {Ind, IndEntry(126), IndEntry(127), Dind, DindTable(0), DindEntry(0, 0), DindEntry(0, 1)};
    assert Paths(138, 142) == s by {
      assert Paths(138, 142) == Paths(138, 141) + Path(141);
      assert Paths(138, 141) == Paths(138, 140) + Path(140);
      assert Paths(138, 140) == Paths(138, 139) + Path(139);
      assert Paths(138, 139) == Paths(138, 138) + Path(138);
      CrossingPaths();
    }
    SevenDistinct();
  }

  lemma CrossingPaths()
    ensures Path(138) == {Ind, IndEntry(126)} && Path(139) == {Ind, IndEntry(127)}
    ensures Path(140) == {Dind, DindTable(0), DindEntry(0, 0)} && Path(141) == {Dind, DindTable(0), DindEntry(0, 1)}
  {
  }

  lemma SevenDistinct()
    ensures |{Ind, IndEntry(126), IndEntry(127), Dind, DindTable(0), DindEntry(0, 0), DindEntry(0, 1)}| == 7
  {
  }

  lemma SpliceTwice(f: seq<byte>, off: nat, a: seq<byte>, b: seq<byte>)
    requires off <= |f|
    ensures off + |a| <= |Splice(f, off, a)|
    ensures Splice(Splice(f, off, a), off + |a|, b) == Splice(f, off, a + b)
  {
    var l, r := Splice(Splice(f, off, a), off + |a|, b), Splice(f, off, a + b);
    assert |l| == |r|;
    forall p | 0 <= p < |l| ensures l[p] == r[p] {
    }
  }

  lemma {:induction false} AddrsExact(g: Super, blocks: seq<Sector>, inodes: map<nat, Inode>, own: map<nat, Owner>,
                                      i: nat, slots: set<Slot>)
    requires Owned(g, blocks, inodes, own) && i in inodes && forall s :: s in slots ==> Addr(blocks, inodes[i], s) != 0
    ensures |Addrs(blocks, inodes[i], slots)| == |slots|
    decreases slots
  {
    hide Addr, Used, BBlock;
    if slots != {} {
      var s :| s in slots;
      var rest := slots - {s};
      AddrsExact(g, blocks, inodes, own, i, rest);
      var b: nat := Addr(blocks, inodes[i], s);
      assert Addrs(blocks, inodes[i], slots) == Addrs(blocks, inodes[i], rest) + {b};
      assert own[b] == File(i, s);
    }
  }
}
