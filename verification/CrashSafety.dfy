/** Crashes during filewrite: the file system of fs.c and file.c on the log and the buffer cache of
    log.c and bio.c. */
module CrashSafety {
  import opened Sectors
  import opened FileIndex
  import opened FileBytes
  import opened Capacity
  import opened FileSystem
  import opened DiskLog
  import opened BufferCache
  import opened LogSystem

  // ---------- the files that a disk holds ----------

  type Contents = map<nat, seq<byte>>

  function FilesOf(blocks: seq<Sector>, inodes: map<nat, Inode>): Contents
  {
    map j | j in inodes :: Content(blocks, inodes[j])
  }

  /** The sectors below the log hold these files: their inodes, and all that these lead to. */
  ghost predicate Stores(g: Super, home: Disk, files: Contents)
  {
    exists inodes: map<nat, Inode> :: AllSynced(g, home, inodes) && FilesOf(home, inodes) == files
  }

  /** After a crash that leaves disk d, recovery finds these files. */
  ghost predicate Survive(g: Super, d: Disk, start: nat, files: Contents)
  {
    WellFormed(d, start) && Stores(g, Home(Recover(d, start), start), files)
  }

  lemma RecoveredStores(g: Super, d: Disk, start: nat, home: Disk, files: Contents)
    requires RecoversTo(d, start, home) && Stores(g, home, files)
    ensures Survive(g, d, start, files)
  {
  }

  lemma EncodeOnce(a: Inode, b: Inode)
    requires Encode(a) == Encode(b)
    ensures a == b
  {
    assert Encode(a)[0] == Encode(b)[0] && Encode(a)[1] == Encode(b)[1] && Encode(a)[2] == Encode(b)[2];
    assert Encode(a)[3..17] == a.addrs && Encode(b)[3..17] == b.addrs;
    assert Encode(a)[17] == a.tags && Encode(b)[17] == b.tags;
    assert Encode(a)[18] == a.tagsCounter && Encode(b)[18] == b.tagsCounter;
  }

  /** A disk holds one content for a file. */
  lemma StoresOnce(g: Super, home: Disk, files: Contents, files': Contents, j: nat)
    requires Stores(g, home, files) && Stores(g, home, files') && j in files && j in files'
    ensures files[j] == files'[j]
  {
    hide Word, Encode, Content;
    var a: map<nat, Inode> :| AllSynced(g, home, a) && FilesOf(home, a) == files;
    var b: map<nat, Inode> :| AllSynced(g, home, b) && FilesOf(home, b) == files';
    assert j in FilesOf(home, a) && j in FilesOf(home, b);
    assert Synced(home, j, a[j]) && Synced(home, j, b[j]);
    assert Encode(a[j]) == Encode(b[j]);
    EncodeOnce(a[j], b[j]);
  }

  /** Every block in use lies below the log. */
  predicate Below(own: map<nat, Owner>, start: nat)
  {
    forall b :: b in own ==> b < start
  }

  predicate AllUnder(bs: set<nat>, n: nat)
  {
    forall b :: b in bs ==> b < n
  }

  lemma EntBelow(blocks: seq<Sector>, start: nat, t: nat, k: nat)
    requires start <= |blocks| && t < start
    ensures Ent(blocks[..start], t, k) == Ent(blocks, t, k)
  {
  }

  lemma AddrBelow(g: Super, blocks: seq<Sector>, inodes: map<nat, Inode>, own: map<nat, Owner>, start: nat, i: nat,
                  s: Slot)
    requires Owned(g, blocks, inodes, own) && i in inodes && Below(own, start) && 0 < start <= |blocks|
    ensures Addr(blocks[..start], inodes[i], s) == Addr(blocks, inodes[i], s) < start
  {
    hide Word, Used, BBlock;
    var ino := inodes[i];
    SlotBelow(g, blocks, inodes, own, start, i, s);
    SlotBelow(g, blocks, inodes, own, start, i, Ind);
    SlotBelow(g, blocks, inodes, own, start, i, Dind);
    hide Owned;
    match s
    case IndEntry(k) => EntBelow(blocks, start, ino.addrs[NDIRECT], k);
    case DindTable(j) => EntBelow(blocks, start, ino.addrs[NDIRECT + 1], j);
    case DindEntry(j, k) =>
      SlotBelow(g, blocks, inodes, own, start, i, DindTable(j));
      EntBelow(blocks, start, ino.addrs[NDIRECT + 1], j);
      EntBelow(blocks, start, Ent(blocks, ino.addrs[NDIRECT + 1], j), k);
    case _ =>
  }

  lemma SlotBelow(g: Super, blocks: seq<Sector>, inodes: map<nat, Inode>, own: map<nat, Owner>, start: nat, i: nat,
                  s: Slot)
    requires Owned(g, blocks, inodes, own) && i in inodes && Below(own, start) && 0 < start
    ensures Addr(blocks, inodes[i], s) < start
  {
    hide Addr, Used, BBlock;
    if Addr(blocks, inodes[i], s) != 0 { assert Addr(blocks, inodes[i], s) in own; }
  }

  lemma ContentBelow(g: Super, blocks: seq<Sector>, inodes: map<nat, Inode>, own: map<nat, Owner>, start: nat, i: nat)
    requires Owned(g, blocks, inodes, own) && i in inodes && Below(own, start) && 0 < start <= |blocks|
    ensures Content(blocks[..start], inodes[i]) == Content(blocks, inodes[i])
  {
    hide Owned, Addr;
    forall p: nat | p < inodes[i].size ensures ByteAt(blocks[..start], inodes[i], p) == ByteAt(blocks, inodes[i], p) {
      AddrBelow(g, blocks, inodes, own, start, i, SlotOf(p / BSIZE));
    }
  }

  /** A file system all below the log is stored there. */
  lemma StoredBelow(g: Super, blocks: seq<Sector>, inodes: map<nat, Inode>, own: map<nat, Owner>, start: nat)
    requires Owned(g, blocks, inodes, own) && AllSynced(g, blocks, inodes) && Below(own, start)
    requires DataStart(g) <= start <= |blocks|
    ensures Stores(g, blocks[..start], FilesOf(blocks, inodes))
  {
    hide Owned, Content, Encode, Word;
    var home := blocks[..start];
    forall j | j in inodes
      ensures j < g.ninodes && Synced(home, j, inodes[j]) && Content(home, inodes[j]) == Content(blocks, inodes[j])
    {
      assert Synced(blocks, j, inodes[j]);
      InodeUnder(g, j);
      ContentBelow(g, blocks, inodes, own, start, j);
    }
    assert FilesOf(home, inodes) == FilesOf(blocks, inodes);
  }

  lemma InodeUnder(g: Super, j: nat)
    requires j < g.ninodes
    ensures IBlock(j) < DataStart(g)
  {
  }

  // ---------- handing a transaction to the log ----------

  predicate NobodyHolds(bufs: seq<Buf>)
  {
    forall i :: 0 <= i < |bufs| ==> !bufs[i].busy
  }

  lemma {:induction false} PendingSize(disk: Disk, start: nat, lh: seq<uint>)
    requires start + |lh| < |disk| && Distinct(lh)
    ensures |Logged(disk, start, lh)| == |lh|
  {
    if lh != [] {
      var k := |lh| - 1;
      PendingSize(disk, start, lh[..k]);
      LoggedKeys(disk, start, lh[..k], lh[k]);
      var m := Logged(disk, start, lh[..k]);
      assert Logged(disk, start, lh).Keys == m.Keys + {lh[k]};
      assert |m| == |m.Keys| && |Logged(disk, start, lh)| == |Logged(disk, start, lh).Keys|;
    }
  }

  /** The cache and the log between the steps of a transaction that holds nothing, on a disk whose log
      is as long as mkfs makes it. */
  ghost predicate Ready(sys: System)
    reads sys
  {
    sys.Valid() && sys.busy && NobodyHolds(sys.bufs) && |sys.disk| == sys.start + LOGSIZE
  }

  lemma CanReadSector(bufs: seq<Buf>, disk: Disk, start: nat, lh: seq<uint>, s: nat)
    requires Coherent(bufs, disk, start, lh, 0) && NobodyHolds(bufs) && |lh| < NBUF
    ensures CanRead(bufs, s)
  {
    PinningFits(bufs, disk, start, lh, {});
  }

  /** `bread`, the caller's change, `log_write` and `brelse` of one sector, with room in the log. */
  method LogSector(sys: System, s: uint, x: Sector)
    requires Ready(sys) && s < sys.start && sys.n < LOGMAX
    modifies sys
    ensures Ready(sys) && sys.mark == old(sys.mark) && old(sys.trail) <= sys.trail
    ensures Home(sys.disk, sys.start) == old(Home(sys.disk, sys.start))
    ensures sys.Pending() == old(sys.Pending())[s := x]
  {
    hide Coherent, Ring, All, Logged, RecoversTo, Settled, View, LogTouched;
    CanReadSector(sys.bufs, sys.disk, sys.start, sys.Lh(), s);
    var r := sys.Read(s);
    sys.Modify(r.b, x);
    ghost var bufs1 := sys.bufs;
    var d, l := sys.LogWrite(r.b);
    OnlyHolds(bufs1, sys.bufs, r.b, l);
    sys.Release(r.b);
  }

  lemma OnlyHolds(bufs: seq<Buf>, bufs': seq<Buf>, b: nat, l: nat)
    requires LogTouched(bufs, bufs', b, l) && forall i :: 0 <= i < |bufs| && i != b ==> !bufs[i].busy
    ensures |bufs'| == |bufs| && forall i :: 0 <= i < |bufs| && i != b ==> !bufs'[i].busy
  {
    var bufs1 := bufs'[b := bufs[b]];
    forall i | 0 <= i < |bufs| && i != b ensures !bufs'[i].busy {
      assert bufs1[i] == bufs'[i];
      assert i != l ==> bufs1[i] == bufs[i];
    }
  }

  /** The contents of the blocks of a set. */
  predicate Holding(m: map<uint, Sector>, bs: set<nat>, blocks: seq<Sector>)
  {
    && (forall b :: b in bs ==> b in m && Contains(blocks, b, m[b]))
    && (forall s :: s in m ==> s in bs)
  }

  lemma HoldingSize(m: map<uint, Sector>, bs: set<nat>, blocks: seq<Sector>)
    requires Holding(m, bs, blocks)
    ensures |m| == |bs|
  {
    var keys: set<nat> := set s | s in m;
    assert m.Keys == keys;
    assert keys == bs;
    assert |m| == |m.Keys|;
  }

  lemma HoldingNone(blocks: seq<Sector>)
    ensures Holding(map[], {}, blocks)
  {
  }

  lemma HoldingMore(m: map<uint, Sector>, bs: set<nat>, blocks: seq<Sector>, b: nat)
    requires Holding(m, bs, blocks) && b < |blocks| && b < LIMIT
    ensures Holding(m[b := blocks[b]], bs + {b}, blocks)
  {
  }

  lemma PartSize(a: set<nat>, b: set<nat>, c: set<nat>)
    requires a + b == c && a !! b && b != {}
    ensures |a| < |c|
  {
    assert |a| + |b| == |c|;
  }

  /** The blocks logged by the file system, one after another. */
  method LogAll(sys: System, logged: set<nat>, blocks: seq<Sector>)
    requires Ready(sys) && sys.Pending() == map[] && |logged| <= LOGMAX && sys.start <= |blocks|
    requires AllUnder(logged, sys.start)
    modifies sys
    ensures Ready(sys) && sys.mark == old(sys.mark) && old(sys.trail) <= sys.trail
    ensures Home(sys.disk, sys.start) == old(Home(sys.disk, sys.start))
    ensures Holding(sys.Pending(), logged, blocks)
  {
    hide Holding, Coherent, Ring, All, Logged, RecoversTo, NobodyHolds;
    assert Holding(map[], {}, blocks) by { HoldingNone(blocks); }
    var todo := logged;
    ghost var past: set<nat> := {};
    while todo != {}
      invariant Ready(sys) && sys.mark == old(sys.mark) && old(sys.trail) <= sys.trail
      invariant Home(sys.disk, sys.start) == old(Home(sys.disk, sys.start))
      invariant past + todo == logged && past !! todo && Holding(sys.Pending(), past, blocks)
      decreases |todo|
    {
      var b :| b in todo;
      HoldingSize(sys.Pending(), past, blocks);
      LhSize(sys);
      PartSize(past, todo, logged);
      HoldingMore(sys.Pending(), past, blocks, b);
      LogSector(sys, b, blocks[b]);
      todo, past := todo - {b}, past + {b};
    }
    assert past == logged;
  }

  lemma LhSize(sys: System)
    requires sys.Valid()
    ensures sys.n == |sys.Pending()| && sys.start < LIMIT
  {
    PendingSize(sys.disk, sys.start, sys.Lh());
  }

  /** Home area and pending blocks together are the file system's view. */
  lemma ViewIsOverlay(base: seq<Sector>, blocks: seq<Sector>, logged: set<nat>, start: nat, m: map<uint, Sector>)
    requires OnlyLogged(base, blocks, logged) && start <= |base| <= LIMIT && Holding(m, logged, blocks)
    ensures Overlay(base[..start], m) == blocks[..start]
  {
    forall b: nat | b < start ensures Overlay(base[..start], m)[b] == blocks[b] {
      if b in logged { assert Contains(blocks, b, m[b]); } else { assert Contains(blocks, b, base[b]); }
    }
  }

  /** The cache and the log between transactions, on a disk whose log is as long as mkfs makes it. */
  ghost predicate Resting(sys: System)
    reads sys
  {
    sys.Valid() && !sys.busy && NobodyHolds(sys.bufs) && |sys.disk| == sys.start + LOGSIZE
  }

  /** The disks written from index k on recover to this home area or that. */
  ghost predicate OneOf(trail: seq<Disk>, k: nat, start: nat, home: Disk, home': Disk)
  {
    forall t: nat :: k <= t < |trail| ==> RecoversTo(trail[t], start, home) || RecoversTo(trail[t], start, home')
  }

  /** A transaction: begin, log the blocks, commit.  A crash at any of its writes leaves the home area
      as it was, or with all of the blocks. */
  method Transact(sys: System, logged: set<nat>, blocks: seq<Sector>, ghost base: seq<Sector>)
    requires Resting(sys) && |logged| <= LOGMAX && sys.start <= |base| <= LIMIT
    requires Home(sys.disk, sys.start) == base[..sys.start] && OnlyLogged(base, blocks, logged)
    requires AllUnder(logged, sys.start)
    modifies sys
    ensures Resting(sys) && old(sys.trail) <= sys.trail && Home(sys.disk, sys.start) == blocks[..sys.start]
    ensures OneOf(sys.trail, |old(sys.trail)| - 1, sys.start, base[..sys.start], blocks[..sys.start])
  {
    hide Coherent, Ring, All, Logged, RecoversTo, OnlyLogged, Holding;
    var begun := sys.BeginTrans();
    Shorter(base, blocks, logged);
    LogAll(sys, logged, blocks);
    ViewIsOverlay(base, blocks, logged, sys.start, sys.Pending());
    HoldingSize(sys.Pending(), logged, blocks);
    LhSize(sys);
    assert BusySet(sys.bufs) == {};
    sys.CommitTrans();
  }

  lemma Shorter(base: seq<Sector>, blocks: seq<Sector>, logged: set<nat>)
    requires OnlyLogged(base, blocks, logged)
    ensures |blocks| == |base|
  {
  }

  // ---------- a chunk, and the whole of filewrite ----------

  /** The file system and the machine below it between transactions. */
  ghost predicate Idle(fs: Fs, sys: System)
    reads fs, sys
  {
    && fs.FsInv() && Resting(sys) && DataStart(fs.g) <= sys.start <= |fs.blocks| && Below(fs.own, sys.start)
    && Home(sys.disk, sys.start) == fs.blocks[..sys.start]
  }

  /** The disks written from index k on leave these files or those. */
  ghost predicate Either(g: Super, trail: seq<Disk>, k: nat, start: nat, files: Contents, files': Contents)
  {
    forall t: nat :: k <= t < |trail| ==> Survive(g, trail[t], start, files) || Survive(g, trail[t], start, files')
  }

  lemma EitherFiles(g: Super, trail: seq<Disk>, k: nat, start: nat, d0: Image, d1: Image)
    requires Owned(g, d0.blocks, d0.inodes, d0.own) && AllSynced(g, d0.blocks, d0.inodes) && Below(d0.own, start)
    requires Owned(g, d1.blocks, d1.inodes, d1.own) && AllSynced(g, d1.blocks, d1.inodes) && Below(d1.own, start)
    requires DataStart(g) <= start <= |d0.blocks| && start <= |d1.blocks|
    requires OneOf(trail, k, start, d0.blocks[..start], d1.blocks[..start])
    ensures Either(g, trail, k, start, FilesOf(d0.blocks, d0.inodes), FilesOf(d1.blocks, d1.inodes))
  {
    hide Owned, AllSynced, Below, RecoversTo, Stores, Survive, FilesOf;
    StoredBelow(g, d0.blocks, d0.inodes, d0.own, start);
    StoredBelow(g, d1.blocks, d1.inodes, d1.own, start);
    var files, files' := FilesOf(d0.blocks, d0.inodes), FilesOf(d1.blocks, d1.inodes);
    forall t: nat | k <= t < |trail|
      ensures Survive(g, trail[t], start, files) || Survive(g, trail[t], start, files')
    {
      if RecoversTo(trail[t], start, d0.blocks[..start]) {
        RecoveredStores(g, trail[t], start, d0.blocks[..start], files);
      } else {
        RecoveredStores(g, trail[t], start, d1.blocks[..start], files');
      }
    }
  }

  /** Blocks that a write takes are logged. */
  lemma StillBelow(g: Super, own0: map<nat, Owner>, d: Image, i: nat, a: nat, e: nat, logged: set<nat>, start: nat)
    requires Owned(g, d.blocks, d.inodes, d.own) && i in d.inodes && OwnStep(g, own0, d.own, i) && Below(own0, start)
    requires WriteSectors(g, own0, d.own, d.blocks, d.inodes[i], a, e) <= logged
    requires AllUnder(logged, start)
    ensures Below(d.own, start)
  {
    hide Addr, Used, BBlock, NewMaps;
    forall b | b in d.own ensures b < start {
      if b !in own0 {
        var s := d.own[b].s;
        assert Addr(d.blocks, d.inodes[i], s) == b;
        assert s in NewSlots(own0, d.own);
        assert b in Addrs(d.blocks, d.inodes[i], WithParents(NewSlots(own0, d.own)));
      }
    }
  }

  lemma FilesAfter(d0: Image, d1: Image, i: nat, f: seq<byte>)
    requires OthersSame(d0.blocks, d0.inodes, d1.blocks, d1.inodes, i) && i in d1.inodes
    requires Content(d1.blocks, d1.inodes[i]) == f
    ensures FilesOf(d1.blocks, d1.inodes) == FilesOf(d0.blocks, d0.inodes)[i := f]
  {
    hide Content;
    var a, b := FilesOf(d1.blocks, d1.inodes), FilesOf(d0.blocks, d0.inodes)[i := f];
    assert a.Keys == d1.inodes.Keys == d0.inodes.Keys == b.Keys;
    forall j | j in a ensures a[j] == b[j] {
      if j != i { assert SameFile(d0.blocks, d0.inodes, d1.blocks, d1.inodes, j); }
    }
  }

  /** The log has room for a write of n bytes at off, and the free blocks that it takes lie below it. */
  ghost predicate Fits(g: Super, blocks: seq<Sector>, ino: Inode, off: nat, n: nat, start: nat)
  {
    && !Trips(g, blocks, ino, off, 0, n)
    && AllUnder(Lowest(Free(g, blocks), |EmptySlots(blocks, ino, off, n)|), start)
  }

  lemma RoomExact(g: Super, d0: Image, d1: Image, i: nat, off: nat, n: nat, logged: set<nat>)
    requires Made(g, d0, d1, i, off, n) && i < g.ninodes && n <= CHUNK && off <= d0.inodes[i].size
    requires MappedTo(d0.blocks, d0.inodes[i], d0.inodes[i].size)
    requires logged == WriteSectors(g, d0.own, d1.own, d1.blocks, d1.inodes[i], off / BSIZE, BlockEnd(off, n))
                       + if off + n > d0.inodes[i].size then {IBlock(i)} else {}
    requires logged <= WriteSet(g, d0.own, d1.own, {}, d1.blocks, d1.inodes[i], off, n) + {IBlock(i)}
    ensures |logged| <= LOGMAX <==> !Trips(g, d0.blocks, d0.inodes[i], off, 0, n)
  {
    assert i in d0.inodes && i in d1.inodes by { hide Owned, OwnStep; }
    hide Made, Trips, WriteSectors, WriteSet, IBlock, BlockEnd, MappedTo;
    if off + n > d0.inodes[i].size {
      MadeTrips(g, d0, d1, i, off, n);
      NotInode(g, d0, d1, i, off, n);
    } else {
      FileSystem.InPlace(g, d0, d1, i, off, n);
      CardLe(logged, WriteSet(g, d0.own, d1.own, {}, d1.blocks, d1.inodes[i], off, n) + {IBlock(i)});
    }
  }

  /** The blocks taken are the lowest free ones, one for each empty slot. */
  lemma TakenAre(g: Super, d0: Image, d1: Image, i: nat, off: nat, n: nat)
    requires Made(g, d0, d1, i, off, n)
    ensures var empty := EmptySlots(d0.blocks, d0.inodes[i], off, n);
            && Lowest(Free(g, d0.blocks), |empty|) == d1.own.Keys - d0.own.Keys
            && d1.own.Keys - d0.own.Keys == Addrs(d1.blocks, d1.inodes[i], empty)
  {
    assert Owned(g, d0.blocks, d0.inodes, d0.own) && Owned(g, d1.blocks, d1.inodes, d1.own)
      && OwnStep(g, d0.own, d1.own, i)
      by { hide Owned, OwnStep; }
    hide Made, Owned, OwnStep, Addrs, EmptySlots, Lowest, LowerPart, Free;
    NewSlotsEmpty(g, d0, d1, i, off, n);
    TakenLowest(g, d0, d1, i);
    LowestIs(Free(g, d0.blocks), d1.own.Keys - d0.own.Keys);
  }

  lemma AddrsOwned(g: Super, d: Image, i: nat, slots: set<Slot>)
    requires Owned(g, d.blocks, d.inodes, d.own) && i in d.inodes
    ensures Addrs(d.blocks, d.inodes[i], slots) <= d.own.Keys
  {
    hide Addr, Used, BBlock;
  }

  lemma MapsBelowLog(g: Super, blocks: seq<Sector>, k: nat, start: nat)
    requires DataStart(g) <= start
    ensures AllUnder(MapsOf(g, Lowest(Free(g, blocks), k)), start)
  {
    hide BBlock, DataStart;
    forall b | b in MapsOf(g, Lowest(Free(g, blocks), k)) ensures b < start {
      var x :| x in Free(g, blocks) && b == BBlock(g, x);
      BitmapBelowData(g, x);
    }
  }

  lemma BelowExact(g: Super, d0: Image, d1: Image, i: nat, off: nat, n: nat, start: nat)
    requires Made(g, d0, d1, i, off, n) && Below(d0.own, start) && DataStart(g) <= start
    ensures var logged := WriteSectors(g, d0.own, d1.own, d1.blocks, d1.inodes[i], off / BSIZE, BlockEnd(off, n));
            AllUnder(logged, start)
            <==> AllUnder(Lowest(Free(g, d0.blocks), |EmptySlots(d0.blocks, d0.inodes[i], off, n)|), start)
  {
    assert Owned(g, d1.blocks, d1.inodes, d1.own) && i in d0.inodes && i in d1.inodes by { hide Owned, OwnStep; }
    hide Made, Owned, Addrs, EmptySlots, Lowest, Free, MapsOf, WriteSectors, LoggedSlots, DataStart, BlockEnd,
      AllUnder;
    assert AllUnder(d0.own.Keys, start) by { BelowKeys(d0.own, start); }
    var empty := EmptySlots(d0.blocks, d0.inodes[i], off, n);
    MadeSectors(g, d0, d1, i, off, n);
    TakenAre(g, d0, d1, i, off, n);
    MapsBelowLog(g, d0.blocks, |empty|, start);
    AddrsOwned(g, d1, i, LoggedSlots(empty, off, n));
    EmptyLogged(d1.blocks, d1.inodes[i], empty, off, n);
    JoinUnder(MapsOf(g, Lowest(Free(g, d0.blocks), |empty|)),
      Addrs(d1.blocks, d1.inodes[i], LoggedSlots(empty, off, n)),
              d0.own.Keys, d1.own.Keys - d0.own.Keys, start);
  }

  lemma JoinUnder(maps: set<nat>, sectors: set<nat>, before: set<nat>, taken: set<nat>, start: nat)
    requires AllUnder(maps, start) && AllUnder(before, start) && taken <= sectors <= before + taken
    ensures AllUnder(maps + sectors, start) <==> AllUnder(taken, start)
  {
  }

  lemma EmptyLogged(blocks: seq<Sector>, ino: Inode, empty: set<Slot>, off: nat, n: nat)
    ensures Addrs(blocks, ino, empty) <= Addrs(blocks, ino, LoggedSlots(empty, off, n))
  {
    hide Addr, DataSlots;
  }

  lemma UnderMore(bs: set<nat>, b: nat, n: nat)
    requires b < n
    ensures AllUnder(bs + {b}, n) <==> AllUnder(bs, n)
    ensures bs + {} == bs
  {
  }

  lemma BelowKeys(own: map<nat, Owner>, start: nat)
    requires Below(own, start)
    ensures AllUnder(own.Keys, start)
  {
  }

  /** What WriteAtomic tests, from the state before. */
  lemma FitsExact(g: Super, d0: Image, d1: Image, i: nat, off: nat, n: nat, logged: set<nat>, start: nat)
    requires Made(g, d0, d1, i, off, n) && i < g.ninodes && n <= CHUNK && off <= d0.inodes[i].size
    requires MappedTo(d0.blocks, d0.inodes[i], d0.inodes[i].size) && Below(d0.own, start) && DataStart(g) <= start
    requires logged == WriteSectors(g, d0.own, d1.own, d1.blocks, d1.inodes[i], off / BSIZE, BlockEnd(off, n))
                       + if n > 0 && off + n > d0.inodes[i].size then {IBlock(i)} else {}
    requires logged <= WriteSet(g, d0.own, d1.own, {}, d1.blocks, d1.inodes[i], off, n) + {IBlock(i)}
    ensures |logged| <= LOGMAX && AllUnder(logged, start) <==> Fits(g, d0.blocks, d0.inodes[i], off, n, start)
  {
    assert i in d0.inodes && i in d1.inodes by { hide Owned, OwnStep; }
    hide Made, MappedTo, Below, WriteSectors, WriteSet, DataStart, IBlock, BlockEnd, Trips, Lowest, Free, EmptySlots;
    hide AllUnder;
    RoomExact(g, d0, d1, i, off, n, logged);
    BelowExact(g, d0, d1, i, off, n, start);
    InodeUnder(g, i);
    UnderMore(WriteSectors(g, d0.own, d1.own, d1.blocks, d1.inodes[i], off / BSIZE, BlockEnd(off, n)), IBlock(i),
      start);
  }

  // ---------- when a write succeeds ----------

  /** The e lowest elements are there and lie below n exactly if there are e below n. */
  lemma EnoughUnder(s: set<nat>, e: nat, n: nat)
    ensures e <= |s| && AllUnder(Lowest(s, e), n) <==> e <= |Under(s, n)|
  {
    CardLe(Under(s, n), s);
    if e <= |s| && AllUnder(Lowest(s, e), n) {
      LowestCard(s, e);
      CardLe(Lowest(s, e), Under(s, n));
    }
    if e <= |Under(s, n)| {
      forall x | x in Lowest(s, e) ensures x < n {
        if x >= n { CardLe(Under(s, n), Under(s, x)); }
      }
    }
  }

  /** The first k bytes of a write of len bytes at off can be written, from the disk before it: they are in
      range, there are free blocks below the log for every slot on the way that has none, and no chunk
      of them trips the capacity check. */
  ghost predicate Reaches(g: Super, blocks: seq<Sector>, ino: Inode, off: nat, len: nat, k: nat, start: nat)
  {
    && off + k <= MAXFILE * BSIZE
    && |EmptySlots(blocks, ino, off, k)| <= |Under(Free(g, blocks), start)|
    && !SomeTrips(g, blocks, ino, off, len, k)
  }

  lemma ReachesNothing(g: Super, blocks: seq<Sector>, ino: Inode, off: nat, len: nat, start: nat)
    requires off <= MAXFILE * BSIZE
    ensures Reaches(g, blocks, ino, off, len, 0, start)
  {
    NoneTrips(g, blocks, ino, off, len);
    hide SomeTrips, Free, Under;
    NoPaths(off / BSIZE);
    assert EmptySlots(blocks, ino, off, 0) == {};
  }

  lemma ReachesLess(g: Super, blocks: seq<Sector>, ino: Inode, off: nat, len: nat, k: nat, k': nat, start: nat)
    requires Reaches(g, blocks, ino, off, len, k', start) && k <= k'
    ensures Reaches(g, blocks, ino, off, len, k, start)
  {
    hide Trips, Free, Under, EmptySlots;
    EmptyLess(blocks, ino, off, k, k');
  }

  /** A chunk that finds no free block. */
  lemma PanicStops(g: Super, blocks0: seq<Sector>, ino0: Inode, blocks1: seq<Sector>, ino1: Inode, off: nat, len: nat,
                   k: nat, n: nat, start: nat)
    requires Took(g, blocks0, ino0, blocks1, ino1, off, k)
    requires |Free(g, blocks1)| < |EmptySlots(blocks1, ino1, off + k, n)|
    ensures !Reaches(g, blocks0, ino0, off, len, k + n, start)
  {
    hide SomeTrips, Free, EmptySlots, Under, Took;
    TookShort(g, blocks0, ino0, blocks1, ino1, off, k, n);
    var f0 := Free(g, blocks0);
    CardLe(Under(f0, start), f0) by { UnderIn(f0, start); }
  }

  lemma UnderIn(s: set<nat>, n: nat)
    ensures Under(s, n) <= s
  {
  }

  /** A chunk that finds all its blocks is carried out exactly if the write reaches its end. */
  lemma ChunkReaches(g: Super, blocks0: seq<Sector>, ino0: Inode, blocks1: seq<Sector>, ino1: Inode,
                     blocks2: seq<Sector>, ino2: Inode, off: nat, len: nat, k: nat, start: nat)
    requires k < len && k % CHUNK == 0 && Reaches(g, blocks0, ino0, off, len, k, start)
    requires Took(g, blocks0, ino0, blocks1, ino1, off, k)
    requires Took(g, blocks1, ino1, blocks2, ino2, off + k, ChunkAt(len, k))
    requires ino1.size == if off + k > ino0.size then off + k else ino0.size
    requires off + k + ChunkAt(len, k) <= MAXFILE * BSIZE
    ensures Fits(g, blocks1, ino1, off + k, ChunkAt(len, k), start)
       <==> Reaches(g, blocks0, ino0, off, len, k + ChunkAt(len, k), start)
  {
    hide SomeTrips, Trips, Free, EmptySlots, LowerPart, Lowest, Under, AllUnder, Took;
    var n := ChunkAt(len, k);
    EmptyJoin(g, blocks0, ino0, blocks1, ino1, off, k, n);
    TripsShift(g, blocks0, ino0, blocks1, ino1, blocks2, ino2, off, k, n);
    TookFree(g, blocks0, ino0, blocks1, ino1, off, k);
    TookFree(g, blocks1, ino1, blocks2, ino2, off + k, n);
    NextTrips(g, blocks0, ino0, off, len, k);
    var done, rest := EmptySlots(blocks0, ino0, off, k), EmptySlots(blocks1, ino1, off + k, n);
    assert |done + rest| == |done| + |rest|;
    NextUnder(Free(g, blocks0), Free(g, blocks1), Free(g, blocks2), start);
  }

  /** If the first part taken lies below n, so does the next exactly if there are enough for both. */
  lemma NextUnder(f0: set<nat>, f1: set<nat>, f2: set<nat>, n: nat)
    requires f2 <= f1 <= f0 && LowerPart(f0, f0 - f1) && LowerPart(f1, f1 - f2) && |f0 - f1| <= |Under(f0, n)|
    ensures AllUnder(Lowest(f1, |f1 - f2|), n) <==> |f0 - f1| + |f1 - f2| <= |Under(f0, n)|
  {
    LowerJoin(f0, f1, f2);
    hide LowerPart, Lowest, Under, AllUnder;
    LowestIs(f0, f0 - f1);
    LowestIs(f1, f1 - f2);
    LowestIs(f0, f0 - f2);
    EnoughUnder(f0, |f0 - f1|, n);
    EnoughUnder(f0, |f0 - f2|, n);
    CardLe(f0 - f2, f0);
    UnderBoth(f0 - f1, f1 - f2, f0 - f2, n);
  }

  lemma UnderBoth(a: set<nat>, b: set<nat>, c: set<nat>, n: nat)
    requires a <= c && c - a == b
    ensures AllUnder(c, n) <==> AllUnder(a, n) && AllUnder(b, n)
  {
    assert c == a + b;
  }

  /** A write of the file system as one transaction.  It is carried out if the log has room for what it
      logs and all of that lies below the log; for a chunk, exactly if it fits. */
  method WriteAtomic(fs: Fs, sys: System, i: nat, src: seq<byte>, off: uint) returns (r: IoResult, ok: bool)
    requires Idle(fs, sys) && i in fs.inodes && |src| < LIMIT
    modifies fs, sys
    ensures ok <==> r.Bytes? && |fs.logged| <= LOGMAX && AllUnder(fs.logged, sys.start)
    ensures r.Bytes? && |src| <= CHUNK ==> (ok <==> old(Fits(fs.g, fs.blocks, fs.inodes[i], off, |src|, sys.start)))
    ensures r == Fail <==> off > old(fs.inodes[i]).size || off + |src| > MAXFILE * BSIZE
    ensures r == Panic ==>
              |Free(fs.g, old(fs.blocks))| < |EmptySlots(old(fs.blocks), old(fs.inodes[i]), off, |src|)|
    ensures r.Bytes? ==>
              && i in fs.inodes && Took(fs.g, old(fs.blocks), old(fs.inodes[i]), fs.blocks, fs.inodes[i], off, |src|)
              && fs.inodes[i].size == if off + |src| > old(fs.inodes[i]).size then
                 off + |src| else old(fs.inodes[i]).size
    ensures ok ==>
              && Idle(fs, sys) && fs.inodes.Keys == old(fs.inodes).Keys
                 && off <= |old(Content(fs.blocks, fs.inodes[i]))|
              && FilesOf(fs.blocks, fs.inodes)
                 == old(FilesOf(fs.blocks, fs.inodes))[i := Splice(old(Content(fs.blocks, fs.inodes[i])), off, src)]
    ensures old(sys.trail) <= sys.trail && (!ok ==> sys.trail == old(sys.trail))
    ensures ok ==> Either(fs.g, sys.trail, |old(sys.trail)| - 1, sys.start, old(FilesOf(fs.blocks, fs.inodes)),
                          FilesOf(fs.blocks, fs.inodes))
  {
    hide Resting, RecoversTo, Owned, Whole, AllSynced, Content, Splice, OnlyLogged, Made, Trips, WriteSet, WriteSectors,
      Addrs, OwnStep, UsedBelow, Stores, OthersSame, FilesOf, Below, OneOf, Either, IBlock, BlockEnd, Paths, MappedTo,
      Fits, AllUnder, DataStart, Free, EmptySlots, Took;
    assert sys.trail != [] by { Trailed(sys); }
    ghost var from: nat := |sys.trail| - 1;
    WholeAt(fs.blocks, fs.inodes, i);
    NumberOk(fs.g, fs.blocks, fs.inodes, i);
    ghost var d0 := Image(fs.blocks, fs.inodes, fs.own);
    LayoutSize(fs.g, fs.blocks, fs.inodes, fs.own);
    fs.logged := {};
    r := fs.Writei(i, src, off);
    ok := r.Bytes? && |fs.logged| <= LOGMAX && AllUnder(fs.logged, sys.start);
    ghost var d1 := Image(fs.blocks, fs.inodes, fs.own);
    if r.Bytes? { MadeTook(fs.g, d0, d1, i, off, |src|); }
    if r.Bytes? && |src| <= CHUNK { FitsExact(fs.g, d0, d1, i, off, |src|, fs.logged, sys.start); }
    if !ok { return; }
    StillBelow(fs.g, d0.own, d1, i, off / BSIZE, BlockEnd(off, |src|), fs.logged, sys.start);
    FilesAfter(d0, d1, i, Content(d1.blocks, d1.inodes[i]));
    Transact(sys, fs.logged, fs.blocks, d0.blocks);
    Shorter(d0.blocks, d1.blocks, fs.logged);
    EitherFiles(fs.g, sys.trail, from, sys.start, d0, d1);
  }

  lemma Trailed(sys: System)
    requires Resting(sys)
    ensures sys.trail != []
  {
  }

  lemma NumberOk(g: Super, blocks: seq<Sector>, inodes: map<nat, Inode>, i: nat)
    requires AllSynced(g, blocks, inodes) && i in inodes
    ensures i < g.ninodes
  {
  }

  lemma LayoutSize(g: Super, blocks: seq<Sector>, inodes: map<nat, Inode>, own: map<nat, Owner>)
    requires Owned(g, blocks, inodes, own)
    ensures |blocks| <= LIMIT
  {
  }

  /** Disk d leaves the file with the first c bytes of src written, c a number of whole chunks or all. */
  ghost predicate Prefix(g: Super, d: Disk, start: nat, files: Contents, i: nat, off: nat, src: seq<byte>)
    requires i in files && off <= |files[i]|
  {
    exists c: nat ::
      && c <= |src| && (c % CHUNK == 0 || c == |src|)
      && Survive(g, d, start, files[i := Splice(files[i], off, src[..c])])
  }

  ghost predicate Prefixes(g: Super, trail: seq<Disk>, k: nat, start: nat, files: Contents, i: nat, off: nat,
                           src: seq<byte>)
    requires i in files && off <= |files[i]|
  {
    forall t: nat :: k <= t < |trail| ==> Prefix(g, trail[t], start, files, i, off, src)
  }

  /** One more chunk. */
  lemma MorePrefixes(g: Super, trail0: seq<Disk>, trail: seq<Disk>, k: nat, start: nat, files: Contents, i: nat,
                     off: nat, src: seq<byte>, c: nat, c': nat)
    requires i in files && off <= |files[i]| && trail0 <= trail && k < |trail0| && c <= c' <= |src|
    requires c % CHUNK == 0 && (c' % CHUNK == 0 || c' == |src|)
    requires Prefixes(g, trail0, k, start, files, i, off, src)
    requires Either(g, trail, |trail0| - 1, start, files[i := Splice(files[i], off, src[..c])],
                    files[i := Splice(files[i], off, src[..c'])])
    ensures Prefixes(g, trail, k, start, files, i, off, src)
  {
    hide Survive, Splice;
    forall t: nat | k <= t < |trail| ensures Prefix(g, trail[t], start, files, i, off, src) {
      if t < |trail0| - 1 {
        assert trail[t] == trail0[t] && Prefix(g, trail0[t], start, files, i, off, src);
      } else if Survive(g, trail[t], start, files[i := Splice(files[i], off, src[..c])]) {
      } else {
        assert Survive(g, trail[t], start, files[i := Splice(files[i], off, src[..c'])]);
      }
    }
  }

  lemma ChunksJoin(files: Contents, i: nat, off: nat, src: seq<byte>, k: nat, n: nat)
    requires i in files && off <= |files[i]| && k + n <= |src|
    ensures var f := Splice(files[i], off, src[..k]);
            && off + k <= |f| && off + k + n <= |Splice(files[i], off, src[..k + n])|
            && files[i := f][i := Splice(f, off + k, src[k..k + n])] == files[i := Splice(files[i], off, src[..k + n])]
  {
    hide Splice;
    SpliceTwice(files[i], off, src[..k], src[k..k + n]);
    SpliceLen(files[i], off, src[..k + n]);
    assert src[..k] + src[k..k + n] == src[..k + n];
  }

  /** The first k bytes of src have been written: from d0, as the file system sees it and on the last disk. */
  ghost predicate WroteUpTo(fs: Fs, sys: System, d0: Image, i: nat, off: nat, src: seq<byte>, k: nat, from: nat)
    reads fs, sys
    requires i in d0.inodes && off <= |Content(d0.blocks, d0.inodes[i])| && k <= |src|
  {
    var files := FilesOf(d0.blocks, d0.inodes);
    && Idle(fs, sys) && i in fs.inodes && i in files && from < |sys.trail|
       && files[i] == Content(d0.blocks, d0.inodes[i])
    && fs.inodes[i].size == (if off + k > d0.inodes[i].size then off + k else d0.inodes[i].size)
    && Took(fs.g, d0.blocks, d0.inodes[i], fs.blocks, fs.inodes[i], off, k)
    && FilesOf(fs.blocks, fs.inodes) == files[i := Splice(files[i], off, src[..k])]
    && Prefixes(fs.g, sys.trail, from, sys.start, files, i, off, src)
  }

  /** The next n bytes of src, after the first k. */
  method NextChunk(fs: Fs, sys: System, i: nat, src: seq<byte>, off: uint, k: nat, n: nat, ghost d0: Image,
                   ghost from: nat) returns (ok: bool)
    requires |src| < LIMIT && k < |src| && k % CHUNK == 0 && n == ChunkAt(|src|, k)
    requires i in d0.inodes && off <= |Content(d0.blocks, d0.inodes[i])|
    requires WroteUpTo(fs, sys, d0, i, off, src, k, from)
    requires Reaches(fs.g, d0.blocks, d0.inodes[i], off, |src|, k, sys.start)
    modifies fs, sys
    ensures old(sys.trail) <= sys.trail && (!ok ==> sys.trail == old(sys.trail))
    ensures ok ==> WroteUpTo(fs, sys, d0, i, off, src, k + n, from)
    ensures ok <==> Reaches(fs.g, d0.blocks, d0.inodes[i], off, |src|, k + n, sys.start)
  {
    hide Idle, FilesOf, Content, Splice, Prefixes, Either, Fits, AllUnder, Took, Reaches, Free, EmptySlots;
    ghost var files := FilesOf(d0.blocks, d0.inodes);
    FilesAt(fs.blocks, fs.inodes, i);
    ChunksJoin(files, i, off, src, k, n);
    ghost var trail0, blocks1, ino1 := sys.trail, fs.blocks, fs.inodes[i];
    var r;
    r, ok := WriteAtomic(fs, sys, i, src[k..k + n], off + k);
    if r == Fail {
      OutOfRange(fs.g, d0.blocks, d0.inodes[i], off, |src|, k + n, sys.start);
      return;
    }
    if r == Panic {
      PanicStops(fs.g, d0.blocks, d0.inodes[i], blocks1, ino1, off, |src|, k, n, sys.start);
      return;
    }
    ChunkReaches(fs.g, d0.blocks, d0.inodes[i], blocks1, ino1, fs.blocks, fs.inodes[i], off, |src|, k, sys.start);
    if !ok { return; }
    TookTrans(fs.g, d0.blocks, d0.inodes[i], blocks1, ino1, fs.blocks, fs.inodes[i], off, k, n);
    FilesAt(fs.blocks, fs.inodes, i);
    MorePrefixes(fs.g, trail0, sys.trail, from, sys.start, files, i, off, src, k, k + n);
  }

  lemma OutOfRange(g: Super, blocks: seq<Sector>, ino: Inode, off: nat, len: nat, k: nat, start: nat)
    requires off + k > MAXFILE * BSIZE
    ensures !Reaches(g, blocks, ino, off, len, k, start)
  {
  }

  /** `filewrite` with each chunk carried out on the disk.  It succeeds exactly if, from the disk before,
      all of src is in range, has free blocks below the log and trips no check; else it stops at the
      first chunk that does not.  A crash at any sector write on the way leaves every other file as it
      was, and this one with some whole chunks of src written, or all of it. */
  method FileWriteAtomic(fs: Fs, sys: System, i: nat, src: seq<byte>, off: uint) returns (done: nat, ok: bool)
    requires Idle(fs, sys) && i in fs.inodes && |src| < LIMIT && off <= fs.inodes[i].size
    modifies fs, sys
    ensures done <= |src| && (ok <==> done == |src|) && old(sys.trail) <= sys.trail
    ensures ok <==> old(Reaches(fs.g, fs.blocks, fs.inodes[i], off, |src|, |src|, sys.start))
    ensures old(Reaches(fs.g, fs.blocks, fs.inodes[i], off, |src|, done, sys.start))
    ensures !ok ==>
              && done % CHUNK == 0
              && !old(Reaches(fs.g, fs.blocks, fs.inodes[i], off, |src|, done + ChunkAt(|src|, done), sys.start))
    ensures ok ==> Idle(fs, sys)
    ensures ok ==>
              FilesOf(fs.blocks, fs.inodes)
              == old(FilesOf(fs.blocks, fs.inodes))[i := Splice(old(Content(fs.blocks, fs.inodes[i])), off, src)]
    ensures var files := old(FilesOf(fs.blocks, fs.inodes));
            && i in files && off <= |files[i]|
            && sys.trail != []
            && Survive(fs.g, sys.trail[|sys.trail| - 1], sys.start, files[i := Splice(files[i], off, src[..done])])
            && Prefixes(fs.g, sys.trail, |old(sys.trail)| - 1, sys.start, files, i, off, src)
  {
    hide Idle, FilesOf, Content, Splice, Prefixes, Survive, Reaches, WroteUpTo;
    ghost var d0 := Image(fs.blocks, fs.inodes, fs.own);
    BeforeAll(fs, sys, i, off, src);
    ghost var from: nat := |sys.trail| - 1;
    done, ok := 0, true;
    while done < |src|
      invariant ok && done <= |src| && (done < |src| ==> done % CHUNK == 0) && old(sys.trail) <= sys.trail
      invariant WroteUpTo(fs, sys, d0, i, off, src, done, from)
      invariant Reaches(fs.g, d0.blocks, d0.inodes[i], off, |src|, done, sys.start)
    {
      LastSurvives(fs, sys, d0, i, off, src, done, from);
      ok := NextChunk(fs, sys, i, src, off, done, ChunkAt(|src|, done), d0, from);
      if !ok {
        if Reaches(fs.g, d0.blocks, d0.inodes[i], off, |src|, |src|, sys.start) {
          ReachesLess(fs.g, d0.blocks, d0.inodes[i], off, |src|, done + ChunkAt(|src|, done), |src|, sys.start);
        }
        return;
      }
      done := done + ChunkAt(|src|, done);
    }
    LastSurvives(fs, sys, d0, i, off, src, done, from);
    assert src[..done] == src;
  }

  lemma LastSurvives(fs: Fs, sys: System, d0: Image, i: nat, off: nat, src: seq<byte>, k: nat, from: nat)
    requires i in d0.inodes && off <= |Content(d0.blocks, d0.inodes[i])| && k <= |src|
    requires WroteUpTo(fs, sys, d0, i, off, src, k, from)
    ensures var files := FilesOf(d0.blocks, d0.inodes);
            && i in files && off <= |files[i]| && files[i] == Content(d0.blocks, d0.inodes[i])
            && Idle(fs, sys) && sys.trail != [] && FilesOf(fs.blocks, fs.inodes)
               == files[i := Splice(files[i], off, src[..k])]
            && Survive(fs.g, sys.trail[|sys.trail| - 1], sys.start, files[i := Splice(files[i], off, src[..k])])
            && Prefixes(fs.g, sys.trail, from, sys.start, files, i, off, src)
  {
    hide FilesOf, Content, Splice, Prefixes, Took, Survive;
    DiskHolds(fs, sys);
  }

  lemma FilesAt(blocks: seq<Sector>, inodes: map<nat, Inode>, i: nat)
    requires i in inodes
    ensures i in FilesOf(blocks, inodes) && FilesOf(blocks, inodes)[i] == Content(blocks, inodes[i])
  {
    hide Content;
  }

  /** Between transactions the last disk written holds the files as they are. */
  lemma DiskHolds(fs: Fs, sys: System)
    requires Idle(fs, sys)
    ensures sys.trail != []
    ensures Survive(fs.g, sys.trail[|sys.trail| - 1], sys.start, FilesOf(fs.blocks, fs.inodes))
  {
    hide Coherent, Ring, All, Logged, RecoversTo, Owned, AllSynced, Whole, Content, Survive, Stores;
    StoredBelow(fs.g, fs.blocks, fs.inodes, fs.own, sys.start);
    RecoveredStores(fs.g, sys.trail[|sys.trail| - 1], sys.start, fs.blocks[..sys.start], FilesOf(fs.blocks, fs.inodes));
  }

  lemma InRange(fs: Fs, sys: System, i: nat)
    requires Idle(fs, sys) && i in fs.inodes
    ensures fs.inodes[i].size <= MAXFILE * BSIZE
  {
    hide Resting, Owned, AllSynced;
    WholeAt(fs.blocks, fs.inodes, i);
  }

  lemma BeforeAll(fs: Fs, sys: System, i: nat, off: nat, src: seq<byte>)
    requires Idle(fs, sys) && i in fs.inodes && off <= fs.inodes[i].size
    ensures sys.trail != [] && WroteUpTo(fs, sys, Image(fs.blocks, fs.inodes, fs.own), i, off, src, 0, |sys.trail| - 1)
    ensures Reaches(fs.g, fs.blocks, fs.inodes[i], off, |src|, 0, sys.start)
  {
    hide Idle, Content, Survive, Took, Reaches, Splice, FilesOf;
    DiskHolds(fs, sys);
    InRange(fs, sys, i);
    var files := FilesOf(fs.blocks, fs.inodes);
    FilesAt(fs.blocks, fs.inodes, i);
    SpliceLen(files[i], off, src[..0]);
    assert files[i := files[i]] == files;
    assert Prefix(fs.g, sys.trail[|sys.trail| - 1], sys.start, files, i, off, src);
    TookNothing(fs.g, fs.blocks, fs.inodes[i], off);
    ReachesNothing(fs.g, fs.blocks, fs.inodes[i], off, |src|, sys.start);
  }

  // ---------- after the crash ----------

  /** However many boots crash while they recover, the files are the same. */
  lemma SurviveAgain(g: Super, ds: seq<Disk>, start: nat, files: Contents)
    requires ds != [] && CrashChain(ds, start) && Survive(g, ds[0], start, files)
    ensures Survive(g, ds[|ds| - 1], start, files)
  {
    hide WellFormed, Recover, Stores, CrashedRecovery;
    RepeatedCrashes(ds, start);
  }

  /** A boot on disk d: the files are there afterwards, and on every disk written until then. */
  method Reboot(g: Super, d: Disk, start: nat, ghost files: Contents) returns (sys: System)
    requires Survive(g, d, start, files) && |d| == start + LOGSIZE <= LIMIT
    ensures Resting(sys) && sys.start == start && Stores(g, Home(sys.disk, start), files)
    ensures forall k :: 0 <= k < |sys.trail| ==> Survive(g, sys.trail[k], start, files)
  {
    hide Stores, RecoversTo, Recover, WellFormed, Coherent, Ring, All, CrashedRecovery;
    sys := new System(d, start);
    sys.InitLog();
    forall k | 0 <= k < |sys.trail| ensures Survive(g, sys.trail[k], start, files) {
      if k > 0 { SurviveOnce(g, d, sys.trail[k], start, files); }
    }
  }

  lemma SurviveOnce(g: Super, d: Disk, e: Disk, start: nat, files: Contents)
    requires Survive(g, d, start, files) && CrashedRecovery(d, e, start)
    ensures Survive(g, e, start, files)
  {
    CrashDuringRecovery(d, e, start);
  }
}
