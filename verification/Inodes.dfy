/** The life of an inode on the logical disk (fs.c): allocated, tagged, truncated and freed, and
    allocated again. */
module Inodes {
  import opened Sectors
  import opened FileIndex
  import opened FileBytes
  import opened Truncation

  /** The inode records no block. */
  predicate Bare(ino: Inode)
  {
    ino.tags == 0 && forall k :: 0 <= k < NDIRECT + 2 ==> ino.addrs[k] == 0
  }

  lemma BareAddr(blocks: seq<Sector>, ino: Inode, s: Slot)
    requires Bare(ino)
    ensures Addr(blocks, ino, s) == 0
  {
  }

  /** What `ialloc` stores: the dinode zeroed, then its type set. */
  function Fresh(kind: ushort): (ino: Inode)
    ensures Bare(ino) && ino.size == 0
  {
    Inode(kind, 0, 0, 0, 0, seq(NDIRECT + 2, _ => 0), 0, 0)
  }

  /** The type of inode i, as the disk has it. */
  function KindOnDisk(blocks: seq<Sector>, i: nat): nat
    requires IBlock(i) < |blocks|
  {
    Word(blocks[IBlock(i)], DSTRIDE * (i % IPB)) % 0x1_0000
  }

  lemma KindSynced(blocks: seq<Sector>, i: nat, ino: Inode)
    requires Synced(blocks, i, ino)
    ensures KindOnDisk(blocks, i) == ino.kind
  {
    hide Word;
    var k: nat := 0;
    assert Word(blocks[IBlock(i)], DSTRIDE * (i % IPB) + k) == Encode(ino)[k];
  }

  // ---------- reuse ----------

  predicate NoOrphans(own: map<nat, Owner>)
  {
    forall b :: b in own ==> own[b].File?
  }

  /** The ownership map once nothing records the blocks of inode i any more. */
  ghost function Abandoned(own: map<nat, Owner>, i: nat): map<nat, Owner>
  {
    map b | b in own :: if own[b].File? && own[b].i == i then Orphan else own[b]
  }

  lemma ReuseOwned(g: Super, blocks: seq<Sector>, inodes: map<nat, Inode>, own: map<nat, Owner>, i: nat, ino: Inode)
    requires Owned(g, blocks, inodes, own) && Bare(ino)
    ensures Owned(g, blocks, inodes[i := ino], Abandoned(own, i))
    ensures NoOrphans(Abandoned(own, i)) <==>
      NoOrphans(own) && (i in inodes ==> forall s :: Addr(blocks, inodes[i], s) == 0)
  {
    hide Addr, Used, BBlock;
    var inodes', own' := inodes[i := ino], Abandoned(own, i);
    forall s ensures Addr(blocks, ino, s) == 0 { BareAddr(blocks, ino, s); }
    forall j, s | j in inodes' && Addr(blocks, inodes'[j], s) != 0
      ensures Addr(blocks, inodes'[j], s) in own' && own'[Addr(blocks, inodes'[j], s)] == File(j, s)
    {
      assert j in inodes && inodes'[j] == inodes[j];
    }
    if i in inodes {
      forall s | Addr(blocks, inodes[i], s) != 0 ensures !NoOrphans(own') {
        assert own'[Addr(blocks, inodes[i], s)] == Orphan;
      }
    }
    if !NoOrphans(own') {
      var b :| b in own' && !own'[b].File?;
      assert own[b].File? ==> own[b].i == i && i in inodes && Addr(blocks, inodes[i], own[b].s) == b != 0;
    }
  }

  /** Reusing inode i loses no block exactly if nothing was recorded in it: otherwise no ownership
      map at all accounts for every block in use. */
  lemma ReuseExact(g: Super, blocks: seq<Sector>, inodes: map<nat, Inode>, own: map<nat, Owner>, i: nat, ino: Inode)
    requires Owned(g, blocks, inodes, own) && NoOrphans(own) && Bare(ino) && i in inodes
    ensures (exists own' :: Owned(g, blocks, inodes[i := ino], own') && NoOrphans(own')) <==>
      forall s :: Addr(blocks, inodes[i], s) == 0
  {
    hide Addr, Used, BBlock;
    var inodes' := inodes[i := ino];
    ReuseOwned(g, blocks, inodes, own, i, ino);
    forall s, own': map<nat, Owner> | Addr(blocks, inodes[i], s) != 0 && Owned(g, blocks, inodes', own')
      ensures !NoOrphans(own') {
      LeftOver(g, blocks, inodes, own, i, ino, own', s);
    }
  }

  lemma LeftOver(g: Super, blocks: seq<Sector>, inodes: map<nat, Inode>, own: map<nat, Owner>, i: nat, ino: Inode,
                 own': map<nat, Owner>, s: Slot)
    requires Owned(g, blocks, inodes, own) && Bare(ino) && i in inodes && Addr(blocks, inodes[i], s) != 0
      && Owned(g, blocks, inodes[i := ino], own')
    ensures var b := Addr(blocks, inodes[i], s); b in own' && own'[b] == Orphan
  {
    hide Addr, Used, BBlock;
    var b: nat := Addr(blocks, inodes[i], s);
    assert own[b] == File(i, s) && Used(g, blocks, b) && b in own';
    forall t ensures Addr(blocks, ino, t) == 0 { BareAddr(blocks, ino, t); }
  }

  /** For an inode that itrunc has emptied, the tag block is what is left. */
  lemma FreedReuse(g: Super, blocks: seq<Sector>, inodes: map<nat, Inode>, own: map<nat, Owner>, i: nat, ino: Inode)
    requires Owned(g, blocks, inodes, own) && NoOrphans(own) && Bare(ino) && i in inodes && Bare(inodes[i].(tags := 0))
    ensures (exists own' :: Owned(g, blocks, inodes[i := ino], own') && NoOrphans(own')) <==> inodes[i].tags == 0
  {
    hide Owned;
    ReuseExact(g, blocks, inodes, own, i, ino);
    assert Addr(blocks, inodes[i], Tags) == inodes[i].tags;
    if inodes[i].tags == 0 {
      forall s ensures Addr(blocks, inodes[i], s) == 0 { BareAddr(blocks, inodes[i], s); }
    }
  }

  /** The step of ialloc: all other files are as they were. */
  lemma ReuseFiles(g: Super, blocks: seq<Sector>, inodes: map<nat, Inode>, own: map<nat, Owner>, i: nat, kind: ushort)
    requires Owned(g, blocks, inodes, own) && Whole(blocks, inodes) && AllSynced(g, blocks, inodes) && i < g.ninodes
    ensures IBlock(i) < |blocks|
    ensures var blocks', inodes' := Updated(blocks, i, Fresh(kind)), inodes[i := Fresh(kind)];
            && Owned(g, blocks', inodes', Abandoned(own, i)) && Whole(blocks', inodes')
               && AllSynced(g, blocks', inodes')
            && (forall j :: j in inodes && j != i ==> SameFile(blocks, inodes, blocks', inodes', j))
  {
    hide Owned, Synced, Content, Addr, Encode, WithWords;
    var inodes' := inodes[i := Fresh(kind)];
    ReuseOwned(g, blocks, inodes, own, i, Fresh(kind));
    assert MappedTo(blocks, Fresh(kind), 0);
    assert forall j :: j in inodes' && j != i ==> j in inodes && inodes'[j] == inodes[j];
    StoreInode(g, blocks, inodes', Abandoned(own, i), i);
    forall j | j in inodes && j != i ensures SameFile(blocks, inodes, Updated(blocks, i, Fresh(kind)), inodes', j) {
      assert inodes'[j] == inodes[j];
    }
  }

  // ---------- other changes of an inode ----------

  /** The inode has changed in fields other than its blocks and its size. */
  predicate SameBlocks(ino: Inode, ino': Inode)
  {
    ino'.addrs == ino.addrs && ino'.size == ino.size && ino'.tags == ino.tags
  }

  lemma SameBlocksAddr(blocks: seq<Sector>, ino: Inode, ino': Inode, s: Slot)
    requires SameBlocks(ino, ino')
    ensures Addr(blocks, ino', s) == Addr(blocks, ino, s)
  {
  }

  /** Changing such fields and storing the inode keeps every file. */
  lemma RetypeFiles(g: Super, blocks: seq<Sector>, inodes: map<nat, Inode>, own: map<nat, Owner>, i: nat, ino': Inode)
    requires Owned(g, blocks, inodes, own) && Whole(blocks, inodes) && i in inodes && i < g.ninodes
      && SameBlocks(inodes[i], ino')
    requires forall j :: j in inodes && j != i ==> j < g.ninodes && Synced(blocks, j, inodes[j])
    ensures IBlock(i) < |blocks| && Owned(g, blocks, inodes[i := ino'], own)
    ensures var blocks', inodes' := Updated(blocks, i, ino'), inodes[i := ino'];
            && Owned(g, blocks', inodes', own) && Whole(blocks', inodes') && AllSynced(g, blocks', inodes')
            && (forall j :: j in inodes ==> Content(blocks', inodes'[j]) == Content(blocks, inodes[j]))
  {
    hide Synced, Content, Addr, Encode, WithWords, Used, BBlock, Word;
    var inodes' := inodes[i := ino'];
    forall j, s | j in inodes ensures Addr(blocks, inodes'[j], s) == Addr(blocks, inodes[j], s) {
      if j == i { SameBlocksAddr(blocks, inodes[i], ino', s); }
    }
    assert Owned(g, blocks, inodes', own);
    hide Owned;
    forall j | j in inodes ensures Content(blocks, inodes'[j]) == Content(blocks, inodes[j])
      && MappedTo(blocks, inodes'[j], inodes'[j].size) {
      assert Undisturbed(blocks, own, blocks);
      FileKept(g, blocks, inodes, own, blocks, j, inodes'[j]);
    }
    StoreInode(g, blocks, inodes', own, i);
  }

  /** Recording orphan b as the tag block of inode i. */
  lemma TagRecorded(g: Super, blocks: seq<Sector>, inodes: map<nat, Inode>, own: map<nat, Owner>, i: nat, b: uint)
    requires Owned(g, blocks, inodes, own) && i in inodes && inodes[i].tags == 0 && b in own && own[b] == Orphan
    ensures Owned(g, blocks, inodes[i := inodes[i].(tags := b)], own[b := File(i, Tags)])
  {
    hide Used, BBlock, Word;
    var inodes' := inodes[i := inodes[i].(tags := b)];
    forall s ensures Addr(blocks, inodes'[i], s) == if s == Tags then b else Addr(blocks, inodes[i], s) {}
    RecordsOwned(g, blocks, inodes, own, blocks, inodes', i, Tags, b);
  }

  /** `balloc` for the first tag of inode i: the block belongs to the inode, and no file changes. */
  lemma TagAllocated(g: Super, blocks: seq<Sector>, inodes: map<nat, Inode>, own: map<nat, Owner>, i: nat, x: uint)
    requires Owned(g, blocks, inodes, own) && Whole(blocks, inodes) && AllSynced(g, blocks, inodes)
    requires i in inodes && inodes[i].tags == 0 && x < g.size && !Used(g, blocks, x)
    ensures BBlock(g, x) < |blocks| && 0 < x < |blocks| && x !in own
    ensures var blocks', inodes', own' := Taken(g, blocks, x), inodes[i := inodes[i].(tags := x)],
      own[x := File(i, Tags)];
            && Owned(g, blocks', inodes', own') && Whole(blocks', inodes')
            && (forall j :: j in inodes ==> Content(blocks', inodes'[j]) == Content(blocks, inodes[j]))
            && (forall j :: j in inodes ==> j < g.ninodes && Synced(blocks', j, inodes[j]))
  {
    hide Content, Addr, Encode, WithWords, Used, Word, Bit, WithBit, MappedTo, Synced;
    TakenOwned(g, blocks, inodes, own, x);
    var blocks', inodes', own1 := Taken(g, blocks, x), inodes[i := inodes[i].(tags := x)], own[x := Orphan];
    TagRecorded(g, blocks', inodes, own1, i, x);
    assert own1[x := File(i, Tags)] == own[x := File(i, Tags)];
    hide BBlock;
    forall j | j in inodes ensures Content(blocks', inodes'[j]) == Content(blocks, inodes[j])
      && MappedTo(blocks', inodes'[j], inodes'[j].size) {
      forall s | s != Tags ensures Addr(blocks', inodes'[j], s) == Addr(blocks, inodes[j], s) {
        TagAddr(blocks', inodes[j], x, s); }
      FileKept(g, blocks, inodes, own, blocks', j, inodes'[j]);
    }
    forall j | j in inodes ensures j < g.ninodes && Synced(blocks', j, inodes[j]) {
      KeptSynced(g, blocks, blocks', j, inodes[j]); }
  }

  lemma TagAddr(blocks: seq<Sector>, ino: Inode, x: uint, s: Slot)
    requires s != Tags
    ensures Addr(blocks, ino.(tags := x), s) == Addr(blocks, ino, s)
  {
  }

  /** Writing the tag block of inode i changes no file. */
  lemma TagWritten(g: Super, blocks: seq<Sector>, inodes: map<nat, Inode>, own: map<nat, Owner>, i: nat, d: Sector)
    requires Owned(g, blocks, inodes, own) && Whole(blocks, inodes) && i in inodes && inodes[i].tags != 0
    ensures DataStart(g) <= inodes[i].tags < |blocks| && inodes[i].tags in own
    ensures var blocks' := blocks[inodes[i].tags := d];
            && Owned(g, blocks', inodes, own) && Whole(blocks', inodes) && InodesKept(g, blocks, blocks')
            && (forall j :: j in inodes ==> Content(blocks', inodes[j]) == Content(blocks, inodes[j]))
  {
    hide Content, Used, BBlock, MappedTo, Word;
    var b := inodes[i].tags;
    assert Addr(blocks, inodes[i], Tags) == b;
    assert own[b] == File(i, Tags);
    hide Addr;
    DataOwned(g, blocks, inodes, own, b, d);
    forall j | j in inodes ensures Content(blocks[b := d], inodes[j]) == Content(blocks, inodes[j])
      && MappedTo(blocks[b := d], inodes[j], inodes[j].size) {
      FileKept(g, blocks, inodes, own, blocks[b := d], j, inodes[j]);
    }
  }

  // ---------- runs ----------

  /** What the operations do to the ownership of blocks: a write to inode i, its truncation, a tag
      block for it, its allocation. */
  datatype Change = Write(i: nat) | Truncate(i: nat) | FirstTag(i: nat, b: nat) | Reuse(i: nat)

  ghost predicate OwnChange(g: Super, own: map<nat, Owner>, own': map<nat, Owner>, c: Change)
  {
    match c
    case Write(i) => OwnStep(g, own, own', i)
    case Truncate(i) => own' == Truncated(own, i)
    case FirstTag(i, b) => b !in own && own' == own[b := File(i, Tags)]
    case Reuse(i) => own' == Abandoned(own, i)
  }

  /** An inode is allocated in which a block is still recorded. */
  ghost predicate Leaks(own: map<nat, Owner>, c: Change)
  {
    c.Reuse? && exists b :: b in own && own[b].File? && own[b].i == c.i
  }

  ghost predicate OwnRun(g: Super, owns: seq<map<nat, Owner>>, cs: seq<Change>)
  {
    |owns| == |cs| + 1 && forall k: nat :: k < |cs| ==> OwnChange(g, owns[k], owns[k + 1], cs[k])
  }

  lemma ChangeOrphans(g: Super, own: map<nat, Owner>, own': map<nat, Owner>, c: Change)
    requires OwnChange(g, own, own', c)
    ensures NoOrphans(own) ==> (NoOrphans(own') <==> !Leaks(own, c))
    ensures forall b :: b in own && own[b] == Orphan ==> b in own' && own'[b] == Orphan
  {
    if Leaks(own, c) {
      var b :| b in own && own[b].File? && own[b].i == c.i;
      assert b in own' && own'[b] == Orphan;
    }
  }

  lemma {:induction false} OrphanStays(g: Super, owns: seq<map<nat, Owner>>, cs: seq<Change>, k: nat, n: nat, b: nat)
    requires OwnRun(g, owns, cs) && k <= n < |owns| && b in owns[k] && owns[k][b] == Orphan
    ensures b in owns[n] && owns[n][b] == Orphan
    decreases n - k
  {
    hide OwnChange;
    if k < n {
      ChangeOrphans(g, owns[k], owns[k + 1], cs[k]);
      OrphanStays(g, owns, cs, k + 1, n, b);
    }
  }

  lemma {:induction false} NothingLeaks(g: Super, owns: seq<map<nat, Owner>>, cs: seq<Change>, n: nat)
    requires OwnRun(g, owns, cs) && n < |owns| && NoOrphans(owns[0]) && forall k: nat ::
      k < n ==> !Leaks(owns[k], cs[k])
    ensures NoOrphans(owns[n])
  {
    hide OwnChange, Leaks;
    if n > 0 {
      var k := n - 1;
      NothingLeaks(g, owns, cs, k);
      ChangeOrphans(g, owns[k], owns[k + 1], cs[k]);
    }
  }

  /** Over any run, every block in use is still recorded somewhere exactly if no inode was allocated
      with a block recorded in it. */
  lemma AllRecorded(g: Super, owns: seq<map<nat, Owner>>, cs: seq<Change>)
    requires OwnRun(g, owns, cs) && NoOrphans(owns[0])
    ensures NoOrphans(owns[|cs|]) <==> forall k: nat :: k < |cs| ==> !Leaks(owns[k], cs[k])
  {
    hide OwnChange, Leaks, NoOrphans;
    if forall k: nat :: k < |cs| ==> !Leaks(owns[k], cs[k]) {
      NothingLeaks(g, owns, cs, |cs|);
    } else {
      var k := FirstLeak(owns, cs, 0);
      NothingLeaks(g, owns, cs, k);
      ChangeOrphans(g, owns[k], owns[k + 1], cs[k]);
      var b := SomeOrphan(owns[k + 1]);
      OrphanStays(g, owns, cs, k + 1, |cs|, b);
      HasOrphan(owns[|cs|], b);
    }
  }

  lemma SomeOrphan(own: map<nat, Owner>) returns (b: nat)
    requires !NoOrphans(own)
    ensures b in own && own[b] == Orphan
  {
    b :| b in own && !own[b].File?;
  }

  lemma HasOrphan(own: map<nat, Owner>, b: nat)
    requires b in own && own[b] == Orphan
    ensures !NoOrphans(own)
  {
  }

  lemma {:induction false} FirstLeak(owns: seq<map<nat, Owner>>, cs: seq<Change>, a: nat) returns (k: nat)
    requires |owns| == |cs| + 1 && a <= |cs|
    requires forall j: nat :: j < a ==> !Leaks(owns[j], cs[j])
    requires exists j: nat :: j < |cs| && Leaks(owns[j], cs[j])
    ensures k < |cs| && Leaks(owns[k], cs[k]) && forall j: nat :: j < k ==> !Leaks(owns[j], cs[j])
    decreases |cs| - a
  {
    hide Leaks;
    if Leaks(owns[a], cs[a]) { k := a; } else { k := FirstLeak(owns, cs, a + 1); }
  }
}
