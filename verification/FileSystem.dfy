/** fs.c and file.c over the logical disk: block allocator, file index, byte-granular
    read and write, truncation, and the chunked write system call.

    The logical disk is what `bread` delivers: home sectors with the open transaction's
    logged contents laid over them.  `logged` is the set of sectors in the in-memory log
    header; `tooBig` records that `log_write` hit its "too big a transaction" panic. */
module FileSystem {
  import opened Sectors
  import opened FileIndex
  import opened FileBytes
  import opened Capacity
  import opened Truncation
  import opened Inodes
  import opened Mkfs

  datatype Option<+T> = None | Some(value: T)

  datatype IoResult =
    | Panic           // balloc: out of blocks
    | Fail            // returns -1
    | Bytes(n: nat)   // returns the number of bytes

  /** The inner loop of `balloc`: the first clear bit below `limit`, or `limit`. */
  method FindClear(s: Sector, limit: nat) returns (bi: nat)
    requires limit <= BPB
    ensures bi <= limit && (forall j: nat :: j < bi ==> Bit(s, j)) && (bi < limit ==> !Bit(s, bi))
  {
    bi := 0;
    while bi < limit && Bit(s, bi)
      invariant bi <= limit && forall j: nat :: j < bi ==> Bit(s, j)
    {
      bi := bi + 1;
    }
  }

  class Fs {
    const g: Super
    var blocks: seq<Sector>          // the logical disk
    var inodes: map<nat, Inode>      // non-symlink inodes by number
    var held: set<nat>               // buffers returned by bread and not yet released
    var logged: set<nat>             // sectors logged in the open transaction
    var tooBig: bool
    ghost var own: map<nat, Owner>

    /** Ownership holds and the buffers held are all of allocated blocks. */
    ghost predicate Inv()
      reads this
    {
      Owned(g, blocks, inodes, own) && forall b :: b in held ==> b in own
    }

    /** At rest: no holes, and every inode on disk is current. */
    ghost predicate FsInv()
      reads this
    {
      Inv() && Whole(blocks, inodes) && AllSynced(g, blocks, inodes) && held == {}
    }

    /** The file system as mkfs lays it out, before it makes the root directory. */
    constructor (g': Super)
      requires Formattable(g')
      ensures FsInv() && g == g' && inodes == map[] && NoOrphans(own) && !tooBig
    {
      g, blocks, inodes, own := g', Formatted(g'), map[], map[];
      held, logged, tooBig := {}, {}, false;
      FormattedOwned(g', map[]);
    }

    // ---------- buffers and log ----------

    method Bread(b: nat) returns (d: Sector)
      requires b < |blocks| && b !in held      // the same process would sleep for ever
      modifies `held
      ensures held == old(held) + {b} && d == blocks[b]
    {
      held := held + {b};
      d := blocks[b];
    }

    method Brelse(b: nat)
      requires b in held                       // else panic("brelse")
      modifies `held
      ensures held == old(held) - {b}
    {
      held := held - {b};
    }

    method LogWrite(b: nat, d: Sector)
      requires b < |blocks| && b in held
      modifies `blocks, `logged, `tooBig
      ensures blocks == old(blocks)[b := d] && logged == old(logged) + {b}
      ensures tooBig == (old(tooBig) || |old(logged)| >= LOGMAX)
    {
      if |logged| >= LOGMAX { tooBig := true; }
      blocks := blocks[b := d];
      logged := logged + {b};
    }

    // ---------- block allocator ----------

    /** Allocate and zero the first free block; None is panic("balloc: out of blocks"). */
    method Balloc() returns (r: Option<uint>)
      requires Inv()
      modifies `blocks, `held, `logged, `tooBig, `own
      ensures Inv() && held == old(held)
      ensures r.None? ==> blocks == old(blocks) && own == old(own) && logged == old(logged) && tooBig == old(tooBig)
                          && UsedBelow(g, blocks, g.size)
      ensures r.Some? ==>
                && r.value < g.size && !Used(g, old(blocks), r.value)
                && UsedBelow(g, old(blocks), r.value)
                && BBlock(g, r.value) < |old(blocks)| && blocks == Taken(g, old(blocks), r.value)
                && own == old(own)[r.value := Orphan]
                && logged == old(logged) + {BBlock(g, r.value), r.value}
      ensures |logged| < LOGMAX ==> tooBig == old(tooBig)
    {
      hide Bit, WithBit, Owned;
      var b := 0;
      while b < g.size
        invariant Inv() && held == old(held) && blocks == old(blocks) && own == old(own)
        invariant logged == old(logged) && tooBig == old(tooBig)
        invariant b % BPB == 0 && UsedBelow(g, blocks, b)
        decreases g.size - b
      {
        ScanFacts(g, blocks, inodes, own, b);
        var bb := BBlock(g, b);
        var d := Bread(bb);
        var limit := if g.size - b < BPB then g.size - b else BPB;
        var bi := FindClear(d, limit);
        ScanStep(g, blocks, b, bi, limit);
        if bi < limit {
          TakenOwned(g, blocks, inodes, own, b + bi);
          TakeBlock(bb, d, bi, b + bi);
          own := own[b + bi := Orphan];
          return Some(b + bi);
        }
        Brelse(bb);
        b := b + BPB;
      }
      return None;
    }

    /** `balloc` found clear bit bi, for block x, in bitmap block bb: set it and zero the block. */
    method TakeBlock(bb: nat, d: Sector, bi: nat, x: nat)
      requires bb < |blocks| && x < |blocks| && bb != x && bi < BPB && d == blocks[bb]
      requires bb in held && x !in held
      modifies `blocks, `held, `logged, `tooBig
      ensures held == old(held) - {bb}
      ensures blocks == old(blocks)[bb := WithBit(d, bi, true)][x := Zero()]
      ensures logged == old(logged) + {bb, x}
      ensures |logged| < LOGMAX ==> tooBig == old(tooBig)
    {
      LogWrite(bb, WithBit(d, bi, true));
      Brelse(bb);
      var z := Bread(x);
      CardLe(old(logged), old(logged) + {bb, x});
      CardLe(old(logged) + {bb}, old(logged) + {bb, x});
      LogWrite(x, Zero());
      Brelse(x);
    }

    // ---------- file index ----------

    /** `addrs[k]`, allocated if it is 0. */
    method Top(i: nat, k: nat) returns (r: Option<uint>)
      requires Inv() && i in inodes && k < NDIRECT + 2
      modifies `blocks, `inodes, `held, `logged, `tooBig, `own
      ensures Inv() && held == old(held) && (|logged| < LOGMAX ==> tooBig == old(tooBig))
      ensures inodes.Keys == old(inodes).Keys && old(logged) <= logged
      ensures r.None? ==>
                && UsedBelow(g, blocks, g.size) && Addr(blocks, inodes[i], TopSlot(k)) == 0
                && blocks == old(blocks) && inodes == old(inodes) && own == old(own)
      ensures r.Some? ==>
                && Grew(g, old(blocks), old(inodes), old(own), old(logged), blocks, inodes, own, logged, i,
                   {TopSlot(k)})
                && r.value == Addr(blocks, inodes[i], TopSlot(k)) != 0
                && logged == old(logged) + NewSectors(g, old(own), own, blocks, inodes[i])
      ensures old(inodes[i].addrs[k]) != 0 ==>
                r.Some? && blocks == old(blocks) && inodes == old(inodes) && own == old(own) && logged == old(logged)
    {
      hide Owned, Grew, Used, BBlock, Taken, Addr, NewSectors;
      ghost var blocks0, inodes0, own0, logged0 := blocks, inodes, own, logged;
      TopAddr(blocks, inodes[i], k);
      var addr := inodes[i].addrs[k];
      if addr == 0 {
        r := Balloc();
        if r.None? { return; }
        addr := r.value;
        GrewTop(g, blocks0, inodes0, own0, logged0, i, k, addr);
        inodes := inodes[i := WithAddr(inodes[i], k, addr)];
        own := own[addr := File(i, TopSlot(k))];
        assert own == own0[addr := File(i, TopSlot(k))];
      } else {
        NoSector(g, own, blocks, inodes[i]);
        GrewRefl(g, blocks, inodes, own, logged, i, {TopSlot(k)});
      }
      r := Some(addr);
    }

    /** Entry k of index block a, the block of slot t: read it, allocating if it is 0. */
    method Entry(i: nat, t: Slot, a: uint, k: nat) returns (r: Option<uint>)
      requires Inv() && i in inodes && t.Table() && k < NINDIRECT
      requires a == Addr(blocks, inodes[i], t) != 0 && a !in held
      modifies `blocks, `inodes, `held, `logged, `tooBig, `own
      ensures Inv() && (|logged| < LOGMAX ==> tooBig == old(tooBig))
      ensures inodes.Keys == old(inodes).Keys && old(logged) <= logged
      ensures r.None? ==>
                && UsedBelow(g, blocks, g.size) && Addr(blocks, inodes[i], ChildSlot(t, k)) == 0
                && blocks == old(blocks) && inodes == old(inodes) && own == old(own)
      ensures r.Some? ==>
                && held == old(held)
                && Grew(g, old(blocks), old(inodes), old(own), old(logged), blocks, inodes, own, logged, i,
                   {t, ChildSlot(t, k)})
                && r.value == Addr(blocks, inodes[i], ChildSlot(t, k)) != 0
                && logged == old(logged) + NewSectors(g, old(own), own, blocks, inodes[i])
      ensures old(Addr(blocks, inodes[i], ChildSlot(t, k))) != 0 ==>
                r.Some? && blocks == old(blocks) && inodes == old(inodes) && own == old(own) && logged == old(logged)
    {
      hide Owned, Grew, Used, BBlock, Word, WithWords, NewSectors, Taken, UsedBelow, Extends, InodesKept, OnlyLogged;
      ghost var blocks0, inodes0, own0, logged0 := blocks, inodes, own, logged;
      OwnedAt(g, blocks, inodes, own, i, t);
      ChildEnt(blocks, inodes[i], t, k);
      var d := Bread(a);
      var addr := Word(d, k);
      if addr == 0 {
        r := Balloc();
        if r.None? { return; }
        addr := r.value;
        GrowEntry(g, blocks0, inodes0, own0, i, t, k, a, addr);
        CardLe(logged, logged + {a as nat});
        TakenLogged(g, blocks0, addr, logged);
        OneLogged(blocks0, blocks, logged, a, WithWords(d, k, [addr]));
        LogWrite(a, WithWords(d, k, [addr]));
        own := own[addr := File(i, ChildSlot(t, k))];
        assert own == own0[addr := File(i, ChildSlot(t, k))];
        LoggedEntry(g, blocks0, blocks, inodes0, inodes[i], own0, own, i, t, k, logged0, logged, addr);
        EntrySectors(g, blocks0, blocks, inodes0, inodes[i], own0, i, t, k, addr);
      } else {
        NoSector(g, own, blocks, inodes[i]);
        GrewRefl(g, blocks, inodes, own, logged, i, {t, ChildSlot(t, k)});
      }
      Brelse(a);
      r := Some(addr);
    }

    /** The block of a file's block number, allocated with its index blocks if necessary.  None
        is a panic: out of range, or out of blocks. */
    method Bmap(i: nat, bn0: nat) returns (r: Option<uint>)
      requires Inv() && i in inodes && held == {}
      modifies `blocks, `inodes, `held, `logged, `tooBig, `own
      ensures Inv() && (|logged| < LOGMAX ==> tooBig == old(tooBig))
      ensures inodes.Keys == old(inodes).Keys && old(logged) <= logged
      ensures r.None? && bn0 < MAXFILE ==>
                && UsedBelow(g, blocks, g.size)
                && Stopped(g, Image(old(blocks), old(inodes), old(own)), Image(blocks, inodes, own), i, Path(bn0))
      ensures r.Some? ==>
                && held == {} && bn0 < MAXFILE
                && Grew(g, old(blocks), old(inodes), old(own), old(logged), blocks, inodes, own, logged, i, Path(bn0))
                && r.value == Addr(blocks, inodes[i], SlotOf(bn0)) != 0
                && logged == old(logged) + NewSectors(g, old(own), own, blocks, inodes[i])
      ensures bn0 < MAXFILE && old(Addr(blocks, inodes[i], SlotOf(bn0))) != 0 ==>
                r.Some? && blocks == old(blocks) && inodes == old(inodes) && own == old(own) && logged == old(logged)
    {
      hide Owned, Grew, Used, BBlock, NewSectors, UsedBelow, Stopped;
      ghost var blocks0, inodes0, own0, logged0 := blocks, inodes, own, logged;
      ghost var d0 := Image(blocks, inodes, own);
      var bn := bn0;
      if bn < NDIRECT {
        r := Top(i, bn);
        if r.None? { StoppedHere(g, d0, i, Direct(bn), Path(bn0)); }
        return;
      }
      bn := bn - NDIRECT;
      if bn < NINDIRECT {
        r := Top(i, NDIRECT);
        if r.None? {
          StoppedHere(g, d0, i, Ind, Path(bn0));
          return;
        }
        ghost var blocks1, inodes1, own1, logged1 := blocks, inodes, own, logged;
        r := Entry(i, Ind, r.value, bn);
        CardLe(logged1, logged);
        if r.None? {
          StoppedThen(g, d0, logged0, Image(blocks1, inodes1, own1), logged1, i, {Ind}, IndEntry(bn), Path(bn0));
          return;
        }
        GrewTrans(g, blocks0, inodes0, own0, logged0, blocks1, inodes1, own1, logged1, blocks, inodes, own, logged, i,
          {Ind}, {Ind, IndEntry(bn)});
        GrewOwn(g, blocks0, inodes0, own0, logged0, blocks1, inodes1, own1, logged1, i, {Ind});
        GrewSectors(g, own0, Image(blocks1, inodes1, own1), logged1, Image(blocks, inodes, own), logged, i,
                    {Ind, IndEntry(bn)});
        assert {Ind} + {Ind, IndEntry(bn)} == Path(bn0);
        return;
      }
      bn := bn - NINDIRECT;
      if bn < DINDIRECT {
        r := Double(i, bn);
        assert {Dind, DindTable(bn / NINDIRECT), DindEntry(bn / NINDIRECT, bn % NINDIRECT)} == Path(bn0);
        return;
      }
      return None;
    }

    /** The double-indirect part of `bmap`, bn counted from the first double-indirect block. */
    method Double(i: nat, bn: nat) returns (r: Option<uint>)
      requires Inv() && i in inodes && held == {} && bn < DINDIRECT
      modifies `blocks, `inodes, `held, `logged, `tooBig, `own
      ensures Inv() && (|logged| < LOGMAX ==> tooBig == old(tooBig))
      ensures inodes.Keys == old(inodes).Keys && old(logged) <= logged
      ensures r.None? ==>
                && UsedBelow(g, blocks, g.size)
                && Stopped(g, Image(old(blocks), old(inodes), old(own)), Image(blocks, inodes, own), i,
                           {Dind, DindTable(bn / NINDIRECT), DindEntry(bn / NINDIRECT, bn % NINDIRECT)})
      ensures var j, k := bn / NINDIRECT, bn % NINDIRECT;
              && (r.Some? ==>
                  && held == {}
                  && Grew(g, old(blocks), old(inodes), old(own), old(logged), blocks, inodes, own, logged, i,
                     {Dind, DindTable(j), DindEntry(j, k)})
                  && r.value == Addr(blocks, inodes[i], DindEntry(j, k)) != 0
                  && logged == old(logged) + NewSectors(g, old(own), own, blocks, inodes[i]))
              && (old(Addr(blocks, inodes[i], DindEntry(j, k))) != 0 ==>
                  r.Some? && blocks == old(blocks) && inodes == old(inodes) && own == old(own) && logged == old(logged))
    {
      hide Owned, Grew, Used, BBlock, NewSectors, UsedBelow, Path, Word, Stopped;
      ghost var j, k := bn / NINDIRECT, bn % NINDIRECT;
      ghost var path := {Dind, DindTable(j), DindEntry(j, k)};
      ghost var blocks0, inodes0, own0, logged0 := blocks, inodes, own, logged;
      ghost var d0 := Image(blocks, inodes, own);
      r := Top(i, NDIRECT + 1);
      if r.None? {
        StoppedHere(g, d0, i, Dind, path);
        return;
      }
      ghost var blocks1, inodes1, own1, logged1 := blocks, inodes, own, logged;
      r := Entry(i, Dind, r.value, bn / NINDIRECT);
      CardLe(logged1, logged);
      if r.None? {
        StoppedThen(g, d0, logged0, Image(blocks1, inodes1, own1), logged1, i, {Dind}, DindTable(j), path);
        return;
      }
      ghost var blocks2, inodes2, own2, logged2 := blocks, inodes, own, logged;
      GrewTrans(g, blocks0, inodes0, own0, logged0, blocks1, inodes1, own1, logged1, blocks, inodes, own, logged, i,
        {Dind}, {Dind, DindTable(j)});
      GrewOwn(g, blocks0, inodes0, own0, logged0, blocks1, inodes1, own1, logged1, i, {Dind});
      GrewSectors(g, own0, Image(blocks1, inodes1, own1), logged1, Image(blocks, inodes, own), logged, i,
                  {Dind, DindTable(j)});
      r := Entry(i, DindTable(bn / NINDIRECT), r.value, bn % NINDIRECT);
      CardLe(logged2, logged);
      if r.None? {
        StoppedThen(g, d0, logged0, Image(blocks2, inodes2, own2), logged2, i, {Dind} + {Dind, DindTable(j)},
                    DindEntry(j, k), path);
        return;
      }
      GrewTrans(g, blocks0, inodes0, own0, logged0, blocks2, inodes2, own2, logged2, blocks, inodes, own, logged, i,
                {Dind} + {Dind, DindTable(j)}, {DindTable(j), DindEntry(j, k)});
      GrewOwn(g, blocks0, inodes0, own0, logged0, blocks2, inodes2, own2, logged2, i, {Dind} + {Dind, DindTable(j)});
      GrewSectors(g, own0, Image(blocks2, inodes2, own2), logged2, Image(blocks, inodes, own), logged, i,
                  {DindTable(j), DindEntry(j, k)});
      assert {Dind} + {Dind, DindTable(j)} + {DindTable(j), DindEntry(j, k)} == {Dind, DindTable(j), DindEntry(j, k)};
    }

    // ---------- inode contents ----------

    /** Copy the in-memory inode to its place on disk. */
    method IUpdate(i: nat)
      requires Owned(g, blocks, inodes, own) && i in inodes && i < g.ninodes && IBlock(i) !in held
      modifies `blocks, `held, `logged, `tooBig
      ensures Owned(g, blocks, inodes, own) && held == old(held)
      ensures IBlock(i) < |old(blocks)| && blocks == Updated(old(blocks), i, inodes[i])
      ensures logged == old(logged) + {IBlock(i)}
      ensures tooBig == (old(tooBig) || |old(logged)| >= LOGMAX)
    {
      hide Owned, Encode, WithWords;
      UpdateOwned(g, blocks, inodes, own, i, inodes[i]);
      var d := Bread(IBlock(i));
      LogWrite(IBlock(i), WithWords(d, DSTRIDE * (i % IPB), Encode(inodes[i])));
      Brelse(IBlock(i));
    }

    /** Read n bytes at off: the slice of the contents, shortened at the end of the file. */
    method Readi(i: nat, off: uint, n0: uint) returns (r: Option<seq<byte>>)
      requires FsInv() && i in inodes
      modifies `blocks, `inodes, `held, `logged, `tooBig, `own
      ensures FsInv() && blocks == old(blocks) && inodes == old(inodes) && own == old(own) && logged == old(logged)
      ensures r.None? <==> off > inodes[i].size || off + n0 >= LIMIT
      ensures r.Some? ==> var end := if off + n0 > inodes[i].size then inodes[i].size else off + n0;
                          r.value == Content(blocks, inodes[i])[off..end]
    {
      hide Owned, Addr, Word, Content, Whole, AllSynced, SlotOf, Grew, NewSectors, UsedBelow,
        Path, MappedTo, IBlock;
      var size := inodes[i].size;
      if off > size || (off + n0) % LIMIT < off { return None; }
      var n := if off + n0 > size then size - off else n0;
      var dst: seq<byte> := [];
      var tot := 0;
      while tot < n
        invariant FsInv() && blocks == old(blocks) && inodes == old(inodes) && own == old(own) && logged == old(logged)
        invariant 0 <= tot <= n && dst == Content(blocks, inodes[i])[off..off + tot]
      {
        var o := off + tot;
        ReadBlock(g, blocks, inodes, own, i, o);
        var a := Bmap(i, o / BSIZE);
        var d := Bread(a.value);
        var m := if n - tot < BSIZE - o % BSIZE then n - tot else BSIZE - o % BSIZE;
        ReadSlice(blocks, inodes[i], off, tot, m);
        dst := dst + d[o % BSIZE..o % BSIZE + m];
        Brelse(a.value);
        tot := tot + m;
      }
      return Some(dst);
    }

    /** One iteration of `writei`: m bytes of src at offset cur, all within one block.  The ghost
        arguments are the state when the write began. */
    method WriteBlock(i: nat, off: nat, cur: nat, m: nat, src: seq<byte>, ghost blocks0: seq<Sector>,
                      ghost inodes0: map<nat, Inode>, ghost own0: map<nat, Owner>, ghost logged0: set<nat>,
                        ghost slots: set<Slot>)
        returns (ok: bool)
      requires Inv() && i in inodes && held == {} && cur / BSIZE < MAXFILE
      requires Owned(g, blocks0, inodes0, own0)
      requires Wrote(g, blocks0, inodes0, own0, logged0, blocks, inodes, own, logged, i, off, cur, src, slots)
      requires MappedTo(blocks, inodes[i], cur)
      requires off <= cur && cur % BSIZE + m <= BSIZE && cur - off + m <= |src|
      requires logged == logged0 + WriteSectors(g, own0, own, blocks, inodes[i], off / BSIZE, cur / BSIZE)
      modifies `blocks, `inodes, `held, `logged, `tooBig, `own
      ensures Inv() && inodes.Keys == old(inodes).Keys && old(logged) <= logged
        && (|logged| < LOGMAX ==> tooBig == old(tooBig))
      ensures !ok ==>
                && UsedBelow(g, blocks, g.size)
                && Stopped(g, Image(blocks0, inodes0, own0), Image(blocks, inodes, own), i, slots + Path(cur / BSIZE))
      ensures ok ==>
                && held == {}
                && Wrote(g, blocks0, inodes0, own0, logged0, blocks, inodes, own, logged, i, off, cur + m, src,
                   slots + Path(cur / BSIZE))
                && MappedTo(blocks, inodes[i], cur + m)
                && logged == logged0 + WriteSectors(g, own0, own, blocks, inodes[i], off / BSIZE, cur / BSIZE + 1)
    {
      hide Owned, Wrote, Grew, MappedTo, Addr, WriteSectors, NewSectors, OwnStep, Stopped, UsedBelow;
      ghost var blocks1, inodes1, own1, logged1 := blocks, inodes, own, logged;
      var a := Bmap(i, cur / BSIZE);
      CardLe(logged1, logged);
      if a.None? {
        WrotePartly(g, Image(blocks0, inodes0, own0), logged0, Image(blocks1, inodes1, own1), logged1, i, off, cur, src,
                    slots);
        StoppedAfter(g, Image(blocks0, inodes0, own0), Image(blocks1, inodes1, own1), Image(blocks, inodes, own), i,
                     slots, Path(cur / BSIZE), slots + Path(cur / BSIZE));
        return false;
      }
      OwnedAt(g, blocks, inodes, own, i, SlotOf(cur / BSIZE));
      WroteOwn(g, blocks0, inodes0, own0, logged0, blocks1, inodes1, own1, logged1, i, off, cur, src, slots);
      WroteMore(g, blocks0, inodes0, own0, logged0, blocks1, inodes1, own1, logged1, blocks, inodes, own, logged,
                a.value, blocks[a.value := Patch(blocks[a.value], cur % BSIZE, src[cur - off..cur - off + m])],
                i, off, cur, m, src, slots);
      var d := Bread(a.value);
      CardLe(logged, logged + {a.value as nat});
      MoreSectors(g, own0, Image(blocks1, inodes1, own1), logged1, Image(blocks, inodes, own), logged, i,
                  Patch(d, cur % BSIZE, src[cur - off..cur - off + m]), off, cur);
      LogWrite(a.value, Patch(d, cur % BSIZE, src[cur - off..cur - off + m]));
      Brelse(a.value);
      return true;
    }

    /** The loop of `writei`, from offset off. */
    method WriteLoop(i: nat, off: nat, src: seq<byte>) returns (ok: bool)
      requires Inv() && i in inodes && held == {} && off <= inodes[i].size
        && MappedTo(blocks, inodes[i], inodes[i].size)
      requires off + |src| <= MAXFILE * BSIZE
      modifies `blocks, `inodes, `held, `logged, `tooBig, `own
      ensures Inv() && inodes.Keys == old(inodes).Keys && old(logged) <= logged
        && (|logged| < LOGMAX ==> tooBig == old(tooBig))
      ensures !ok ==>
                && UsedBelow(g, blocks, g.size)
                && Stopped(g, Image(old(blocks), old(inodes), old(own)), Image(blocks, inodes, own), i,
                           Paths(off / BSIZE, BlockEnd(off, |src|)))
      ensures ok ==>
                && held == {}
                && Wrote(g, old(blocks), old(inodes), old(own), old(logged), blocks, inodes, own, logged, i, off,
                         off + |src|, src, Paths(off / BSIZE, BlockEnd(off, |src|)))
                && MappedTo(blocks, inodes[i], off + |src|)
                && logged == old(logged)
                   + WriteSectors(g, old(own), own, blocks, inodes[i], off / BSIZE, BlockEnd(off, |src|))
    {
      hide Owned, Wrote, Grew, MappedTo, Addr, WriteSectors, Paths, UsedBelow, Path, Stopped;
      ghost var blocks0, inodes0, own0, logged0 := blocks, inodes, own, logged;
      WroteNothing(g, blocks, inodes, own, logged, i, off, src);
      MappedLess(blocks, inodes[i], off, inodes[i].size);
      WriteNothing(g, own, blocks, inodes[i], off / BSIZE);
      NoPaths(off / BSIZE);
      ghost var e := off / BSIZE;
      var tot, cur := 0, off;
      while tot < |src|
        invariant Inv() && inodes.Keys == inodes0.Keys && held == {} && logged0 <= logged
        invariant |logged| < LOGMAX ==> tooBig == old(tooBig)
        invariant 0 <= tot <= |src| && cur == off + tot
        invariant e == BlockEnd(off, tot) && (tot < |src| ==> e == cur / BSIZE)
        invariant Wrote(g, blocks0, inodes0, own0, logged0, blocks, inodes, own, logged, i, off, cur, src,
          Paths(off / BSIZE, e))
        invariant MappedTo(blocks, inodes[i], cur)
        invariant logged == logged0 + WriteSectors(g, own0, own, blocks, inodes[i], off / BSIZE, e)
      {
        var m := if |src| - tot < BSIZE - cur % BSIZE then |src| - tot else BSIZE - cur % BSIZE;
        ghost var logged1 := logged;
        ok := WriteBlock(i, off, cur, m, src, blocks0, inodes0, own0, logged0, Paths(off / BSIZE, e));
        CardLe(logged1, logged);
        NextBlock(off, tot, m, |src|);
        if !ok {
          PathsJoin(off, tot + m, |src| - tot - m);
          StoppedWider(g, Image(blocks0, inodes0, own0), Image(blocks, inodes, own), i,
                       Paths(off / BSIZE, e) + Path(cur / BSIZE), Paths(off / BSIZE, BlockEnd(off, |src|)));
          return;
        }
        e := e + 1;
        tot, cur := tot + m, cur + m;
      }
      return true;
    }

    /** Write src at off, extending the file if it reaches past the end. */
    method Writei(i: nat, src: seq<byte>, off: uint) returns (r: IoResult)
      requires FsInv() && i in inodes && |src| < LIMIT
      modifies `blocks, `inodes, `held, `logged, `tooBig, `own
      ensures r == Fail <==> off > old(inodes[i]).size || off + |src| > MAXFILE * BSIZE
      ensures r == Fail ==> unchanged(this)
      ensures r == Panic ==> UsedBelow(g, blocks, g.size)
      // out of blocks exactly when fewer are free than slots on the way have none
      ensures r != Fail ==>
        (r == Panic <==> |Free(g, old(blocks))| < |EmptySlots(old(blocks), old(inodes[i]), off, |src|)|)
      ensures r.Bytes? ==>
                && FsInv() && r.n == |src| && inodes.Keys == old(inodes).Keys
                && Content(blocks, inodes[i]) == Splice(Content(old(blocks), old(inodes[i])), off, src)
                && OthersSame(old(blocks), old(inodes), blocks, inodes, i)
      // what was allocated and what was logged
      ensures r.Bytes? ==> OnlyLogged(old(blocks), blocks, logged)
      ensures r.Bytes? ==>
                && OwnStep(g, old(own), own, i)
                && own.Keys - old(own).Keys <= Addrs(blocks, inodes[i], Paths(off / BSIZE, BlockEnd(off, |src|)))
                && old(logged) <= logged <= WriteSet(g, old(own), own, old(logged), blocks, inodes[i], off,
                   |src|) + {IBlock(i)}
                && (|WriteSet(g, old(own), own, old(logged), blocks, inodes[i], off, |src|)| < LOGMAX ==>
                   tooBig == old(tooBig))
      // exactly what was taken and what was logged, and exactly when logging the inode of a longer file is too much
      ensures r.Bytes? ==> Made(g, Image(old(blocks), old(inodes), old(own)), Image(blocks, inodes, own), i, off, |src|)
      ensures r.Bytes? ==>
                var grows := |src| > 0 && off + |src| > old(inodes[i]).size;
                && inodes[i].size == (if grows then off + |src| else old(inodes[i]).size)
                && logged == old(logged) + WriteSectors(g, old(own), own, blocks, inodes[i], off / BSIZE,
                   BlockEnd(off, |src|))
                             + (if grows then {IBlock(i)} else {})
                && (grows && old(logged) == {} ==>
                     (tooBig <==> old(tooBig) || Trips(g, old(blocks), old(inodes[i]), off, 0, |src|)))
      ensures r.Bytes? && |src| > 0 && off + |src| > old(inodes[i]).size && |logged - {IBlock(i)}| >= LOGMAX ==> tooBig
    {
      hide Owned, Wrote, Addr, Addrs, Paths, OwnStep, MappedTo, Synced, Content, Splice, WriteSet, IBlock, Whole,
        AllSynced, WriteSectors, Made, Trips, OnlyLogged, OthersSame, UsedBelow, Stopped, Free, EmptySlots, Took;
      if off > inodes[i].size || (off + |src|) % LIMIT < off { return Fail; }
      if (off + |src|) % LIMIT > MAXFILE * BSIZE { return Fail; }
      ghost var d0, logged0 := Image(blocks, inodes, own), logged;
      WholeAt(blocks, inodes, i);
      var ok := WriteLoop(i, off, src);
      if !ok {
        NoneFree(g, blocks);
        StoppedCount(g, d0, Image(blocks, inodes, own), i, off, |src|);
        return Panic;
      }
      ghost var d1, logged1 := Image(blocks, inodes, own), logged;
      WriteEnds(g, d0, logged0, d1, logged, i, off, src);
      if |src| > 0 && off + |src| > inodes[i].size {
        ResizeOwned(g, blocks, inodes, own, i, off + |src|);
        inodes := inodes[i := inodes[i].(size := off + |src|)];
        IUpdate(i);
        assert Image(blocks, inodes, own) == Sized(d1, i, off + |src|);
        CardLe(logged - {IBlock(i)}, logged1);
      }
      CardLe(logged1, WriteSet(g, d0.own, own, logged0, blocks, inodes[i], off, |src|));
      EnoughFree(g, d0, Image(blocks, inodes, own), i, off, |src|);
      return Bytes(|src|);
    }

    /** A whole chunk that takes a file from the single- into the double-indirect range takes five
        blocks and logs seven; it trips log_write's capacity check exactly if m, the first bitmap
        block with a free bit, has fewer than five. */
    method CrossingWrite(i: nat, src: seq<byte>, ghost m: nat) returns (r: IoResult)
      requires FsInv() && i in inodes && |src| == CHUNK && 138 * BSIZE < inodes[i].size < 139 * BSIZE
      requires Addr(blocks, inodes[i], IndEntry(127)) == 0 && Addr(blocks, inodes[i], Dind) == 0
      modifies `blocks, `inodes, `held, `logged, `tooBig, `own
      ensures r != Fail && (r == Panic ==> UsedBelow(g, blocks, g.size))
      ensures r.Bytes? && |NewMaps(g, old(own), own)| >= 2 ==> tooBig
      ensures r.Bytes? && old(logged) == {} && FirstRoom(g, old(blocks), m) ==>
                (tooBig <==> old(tooBig) || |FreeIn(g, old(blocks), m)| < 5)
    {
      hide Owned, Addr, Addrs, Paths, OwnStep, Content, Splice, WriteSet, IBlock, Whole, AllSynced, Used, NewMaps,
        OthersSame, Made, Trips, WriteSectors, FirstRoom, FreeIn, UsedBelow;
      var off := inodes[i].size;
      ghost var d0 := Image(blocks, inodes, own);
      InodeBelow(g, blocks, inodes, own, i);
      WholeAt(blocks, inodes, i);
      r := Writei(i, src, off);
      if r.Bytes? {
        CrossingCount(g, d0, Image(blocks, inodes, own), i, off);
        CardLe(WriteSectors(g, d0.own, own, blocks, inodes[i], off / BSIZE, BlockEnd(off, |src|)),
          logged - {IBlock(i)});
        if FirstRoom(g, d0.blocks, m) { CrossingTrips(g, d0, Image(blocks, inodes, own), i, off, m); }
      }
    }

    // ---------- truncation ----------

    /** Clear the bit of block b, which must be set: else panic("freeing free block"). */
    method Bfree(b: uint)
      requires BBlock(g, b) < |blocks| && BBlock(g, b) !in held && Used(g, blocks, b)
      modifies `blocks, `held, `logged, `tooBig
      ensures blocks == WithUsed(g, old(blocks), b, false) && held == old(held)
      ensures logged == old(logged) + {BBlock(g, b)}
    {
      hide Bit, WithBit;
      var bb := BBlock(g, b);
      var d := Bread(bb);
      LogWrite(bb, WithBit(d, b % BPB, false));
      Brelse(bb);
    }

    /** Free every block recorded in index block d, the block of slot t. */
    method FreeEntries(i: nat, t: Slot, d: Sector, ghost blocks0: seq<Sector>, ghost inodes0: map<nat, Inode>,
                       ghost own0: map<nat, Owner>)
      requires Owned(g, blocks0, inodes0, own0) && i in inodes0 && (t == Ind || (t.DindTable? && t.j < NINDIRECT))
      requires IsBlock(blocks0, inodes0[i], t, d)
      requires Freeing(g, blocks0, blocks, Below(own0, i, Rank(ChildSlot(t, 0)))) && forall b ::
        b in held ==> b >= DataStart(g)
      modifies `blocks, `held, `logged, `tooBig
      ensures Freeing(g, blocks0, blocks, Below(own0, i, Rank(ChildSlot(t, 0)) + NINDIRECT)) && held == old(held)
    {
      hide Owned, Freeing, Addr, Used, BBlock, Rank, WithBit, IsBlock, Word;
      var j := 0;
      while j < NINDIRECT
        invariant 0 <= j <= NINDIRECT && held == old(held)
        invariant Freeing(g, blocks0, blocks, Below(own0, i, Rank(ChildSlot(t, 0)) + j))
      {
        ChildRank(blocks0, inodes0[i], t, d, j);
        FreeSlot(g, blocks0, inodes0, own0, blocks, i, ChildSlot(t, j));
        if Word(d, j) != 0 {
          Bfree(Word(d, j));
        }
        j := j + 1;
      }
    }

    /** The first loop of `itrunc`. */
    method FreeDirect(i: nat, ghost own0: map<nat, Owner>)
      requires Owned(g, blocks, inodes, own0) && i in inodes && held == {}
      modifies `blocks, `inodes, `held, `logged, `tooBig
      ensures Freeing(g, old(blocks), blocks, Below(own0, i, NDIRECT)) && held == {}
      ensures inodes == old(inodes)[i := Cleared(old(inodes)[i], NDIRECT)]
    {
      hide Owned, Freeing, Used, BBlock, WithBit, Word, Below, Cleared;
      ghost var blocks0, inodes0 := blocks, inodes;
      FreeingNothing(g, blocks, inodes, own0, i);
      ClearedFacts(inodes[i], 0);
      assert inodes == inodes[i := inodes[i]];
      var k := 0;
      while k < NDIRECT
        invariant 0 <= k <= NDIRECT && held == {}
        invariant Freeing(g, blocks0, blocks, Below(own0, i, k))
        invariant inodes == inodes0[i := Cleared(inodes0[i], k)]
      {
        FreeSlot(g, blocks0, inodes0, own0, blocks, i, Direct(k));
        ClearedFacts(inodes0[i], k);
        var a := inodes[i].addrs[k];
        if a != 0 {
          Bfree(a);
          inodes := inodes[i := WithAddr(inodes[i], k, 0)];
        }
        k := k + 1;
      }
    }

    /** The indirect block and what it lists. */
    method FreeIndirect(i: nat, ghost blocks0: seq<Sector>, ghost inodes0: map<nat, Inode>, ghost own0: map<nat, Owner>)
      requires Owned(g, blocks0, inodes0, own0) && i in inodes0 && i in inodes && held == {}
      requires inodes[i].addrs[NDIRECT] == inodes0[i].addrs[NDIRECT]
      requires Freeing(g, blocks0, blocks, Below(own0, i, NDIRECT))
      modifies `blocks, `inodes, `held, `logged, `tooBig
      ensures Freeing(g, blocks0, blocks, Below(own0, i, 141)) && held == {}
      ensures inodes == old(inodes)[i := WithAddr(old(inodes)[i], NDIRECT, 0)]
    {
      hide Owned, Freeing, Used, BBlock, WithBit, Word;
      var a := inodes[i].addrs[NDIRECT];
      if a != 0 {
        TableBlock(g, blocks0, inodes0, own0, blocks, Below(own0, i, NDIRECT), i, Ind);
        var d := Bread(a);
        FreeEntries(i, Ind, d, blocks0, inodes0, own0);
        Brelse(a);
        FreeSlot(g, blocks0, inodes0, own0, blocks, i, Ind);
        Bfree(a);
        inodes := inodes[i := WithAddr(inodes[i], NDIRECT, 0)];
      } else {
        forall s | 12 <= Rank(s) < 141 ensures Addr(blocks0, inodes0[i], s) == 0 {
          NoIndirect(blocks0, inodes0[i], s);
        }
        SkipRanks(g, blocks0, inodes0, own0, blocks, i, 12, 141);
        assert inodes[i].addrs[NDIRECT := 0] == inodes[i].addrs;
        assert WithAddr(inodes[i], NDIRECT, 0) == inodes[i];
        assert inodes == inodes[i := inodes[i]];
      }
    }

    /** Second-level table j and what it lists; d is the double-indirect block. */
    method FreeTable(i: nat, j: nat, d: Sector, ghost blocks0: seq<Sector>, ghost inodes0: map<nat, Inode>,
                     ghost own0: map<nat, Owner>)
      requires Owned(g, blocks0, inodes0, own0) && i in inodes0 && j < NINDIRECT
        && IsBlock(blocks0, inodes0[i], Dind, d)
      requires Freeing(g, blocks0, blocks, Below(own0, i, 141 + 129 * j))
        && held == {inodes0[i].addrs[NDIRECT + 1] as nat}
      modifies `blocks, `held, `logged, `tooBig
      ensures Freeing(g, blocks0, blocks, Below(own0, i, 141 + 129 * (j + 1))) && held == old(held)
    {
      hide Owned, Freeing, Used, BBlock, WithBit, Word;
      var a := Word(d, j);
      assert a == Addr(blocks0, inodes0[i], DindTable(j));
      if a != 0 {
        TableBlock(g, blocks0, inodes0, own0, blocks, Below(own0, i, 141 + 129 * j), i, DindTable(j));
        DistinctTables(g, blocks0, inodes0, own0, i, j);
        var d2 := Bread(a);
        FreeEntries(i, DindTable(j), d2, blocks0, inodes0, own0);
        Brelse(a);
        FreeSlot(g, blocks0, inodes0, own0, blocks, i, DindTable(j));
        Bfree(a);
      } else {
        forall s | 141 + 129 * j <= Rank(s) < 141 + 129 * (j + 1) ensures Addr(blocks0, inodes0[i], s) == 0 {
          NoTable(blocks0, inodes0[i], j, s);
        }
        SkipRanks(g, blocks0, inodes0, own0, blocks, i, 141 + 129 * j, 141 + 129 * (j + 1));
      }
    }

    /** The double-indirect block, its tables and what they list.  Its own buffer is read and,
        as in the source, never released. */
    method FreeDouble(i: nat, ghost blocks0: seq<Sector>, ghost inodes0: map<nat, Inode>, ghost own0: map<nat, Owner>)
      requires Owned(g, blocks0, inodes0, own0) && i in inodes0 && i in inodes && held == {}
      requires inodes[i].addrs[NDIRECT + 1] == inodes0[i].addrs[NDIRECT + 1]
      requires Freeing(g, blocks0, blocks, Below(own0, i, 141))
      modifies `blocks, `inodes, `held, `logged, `tooBig
      ensures Freeing(g, blocks0, blocks, Below(own0, i, LAST))
      ensures held == if inodes0[i].addrs[NDIRECT + 1] != 0 then {inodes0[i].addrs[NDIRECT + 1] as nat} else {}
      ensures inodes == old(inodes)[i := WithAddr(old(inodes)[i], NDIRECT + 1, 0)]
    {
      hide Owned, Freeing, Used, BBlock, WithBit, Word;
      var a := inodes[i].addrs[NDIRECT + 1];
      if a != 0 {
        TableBlock(g, blocks0, inodes0, own0, blocks, Below(own0, i, 141), i, Dind);
        var d := Bread(a);
        var j := 0;
        while j < NINDIRECT
          invariant 0 <= j <= NINDIRECT && held == {a as nat} && inodes == old(inodes)
          invariant Freeing(g, blocks0, blocks, Below(own0, i, 141 + 129 * j))
        {
          FreeTable(i, j, d, blocks0, inodes0, own0);
          j := j + 1;
        }
        FreeSlot(g, blocks0, inodes0, own0, blocks, i, Dind);
        Bfree(a);
        inodes := inodes[i := WithAddr(inodes[i], NDIRECT + 1, 0)];
      } else {
        forall s | 141 <= Rank(s) < LAST ensures Addr(blocks0, inodes0[i], s) == 0 {
          NoDouble(blocks0, inodes0[i], s);
        }
        SkipRanks(g, blocks0, inodes0, own0, blocks, i, 141, LAST);
        assert inodes[i].addrs[NDIRECT + 1 := 0] == inodes[i].addrs;
        assert WithAddr(inodes[i], NDIRECT + 1, 0) == inodes[i];
        assert inodes == inodes[i := inodes[i]];
      }
    }

    /** Discard inode i's contents: exactly its index and data blocks become free, and no bit is
        found already clear.  The double-indirect block's buffer, if there is one, stays held. */
    method ITrunc(i: nat)
      requires FsInv() && i in inodes
      modifies `blocks, `inodes, `held, `logged, `tooBig, `own
      ensures Owned(g, blocks, inodes, own) && own == Truncated(old(own), i)
      ensures inodes == old(inodes)[i := Emptied(old(inodes)[i])]
      ensures Whole(blocks, inodes) && AllSynced(g, blocks, inodes)
      ensures OthersSame(old(blocks), old(inodes), blocks, inodes, i)
      ensures forall b: nat ::
        b < g.size ==> Used(g, blocks, b) == (Used(g, old(blocks), b) && b !in Below(old(own), i, LAST))
      ensures held == if old(inodes[i].addrs[NDIRECT + 1]) != 0 then {old(inodes[i].addrs[NDIRECT + 1]) as nat} else {}
    {
      hide Owned, Freeing, Used, BBlock, Word, Addr, Synced, AllSynced, Whole, MappedTo, IBlock, OthersSame, Below,
        Encode, WithWords;
      ghost var blocks0, inodes0, own0 := blocks, inodes, own;
      InodeBelow(g, blocks, inodes, own, i);
      FreeDirect(i, own0);
      FreeIndirect(i, blocks0, inodes0, own0);
      FreeDouble(i, blocks0, inodes0, own0);
      ZeroAddrs(inodes0[i], inodes[i]);
      inodes := inodes[i := inodes[i].(size := 0)];
      assert inodes == inodes0[i := Emptied(inodes0[i])];
      TruncatedOwned(g, blocks0, inodes0, own0, blocks, i);
      TruncFiles(g, blocks0, inodes0, own0, blocks, i);
      own := Truncated(own0, i);
      DoubleAbove(g, blocks0, inodes0, own0, i);     // the leaked buffer is not the inode's
      IUpdate(i);
    }

    // ---------- inodes ----------

    /** `ialloc`: the first inode that is free on disk, zeroed but for its type; None is
        panic("ialloc: no inodes").  Whatever was still recorded in it is lost. */
    method Ialloc(kind: ushort) returns (r: Option<nat>)
      requires FsInv()
      modifies `blocks, `inodes, `held, `logged, `tooBig, `own
      ensures FsInv()
      ensures r.None? ==> blocks == old(blocks) && inodes == old(inodes) && own == old(own) && logged == old(logged)
      ensures r.None? ==> forall i: nat :: 1 <= i < g.ninodes && IBlock(i) < |blocks| ==> KindOnDisk(blocks, i) != 0
      ensures r.Some? ==>
                && 1 <= r.value < g.ninodes && IBlock(r.value) < |old(blocks)| && KindOnDisk(old(blocks), r.value) == 0
                && (r.value in old(inodes) ==> old(inodes)[r.value].kind == 0)
                && (forall i: nat :: 1 <= i < r.value && IBlock(i) < |old(blocks)| ==> KindOnDisk(old(blocks), i) != 0)
                && inodes == old(inodes)[r.value := Fresh(kind)] && own == Abandoned(old(own), r.value)
                && (forall j ::
                   j in old(inodes) && j != r.value ==> SameFile(old(blocks), old(inodes), blocks, inodes, j))
      ensures r.Some? && NoOrphans(old(own)) ==>
                (NoOrphans(own) <==>
                  (r.value in old(inodes) ==> forall s :: Addr(old(blocks), old(inodes)[r.value], s) == 0))
    {
      hide Owned, Whole, AllSynced, Addr, Content, KindOnDisk, Fresh, NoOrphans, Abandoned;
      var inum := 1;
      while inum < g.ninodes
        invariant inum >= 1 && FsInv() && blocks == old(blocks) && inodes == old(inodes) && own == old(own)
        invariant logged == old(logged) && tooBig == old(tooBig)
        invariant forall i: nat :: 1 <= i < inum && IBlock(i) < |blocks| ==> KindOnDisk(blocks, i) != 0
      {
        ReuseFiles(g, blocks, inodes, own, inum, kind);
        var d := Bread(IBlock(inum));
        assert KindOnDisk(blocks, inum) == Word(d, DSTRIDE * (inum % IPB)) % 0x1_0000 by { KindIs(blocks, inum); }
        if Word(d, DSTRIDE * (inum % IPB)) % 0x1_0000 == 0 {
          if inum in inodes { KindHere(g, blocks, inodes, inum); }
          ReuseOwned(g, blocks, inodes, own, inum, Fresh(kind));
          inodes, own := inodes[inum := Fresh(kind)], Abandoned(own, inum);
          LogWrite(IBlock(inum), WithWords(d, DSTRIDE * (inum % IPB), Encode(Fresh(kind))));
          Brelse(IBlock(inum));
          return Some(inum);
        }
        Brelse(IBlock(inum));
        inum := inum + 1;
      }
      return None;
    }

    /** The half of `iput` that frees an inode without links: its contents are discarded, and it is
        free on disk.  Its tag block, if it has one, stays in use. */
    method Ifree(i: nat)
      requires FsInv() && i in inodes
      modifies `blocks, `inodes, `held, `logged, `tooBig, `own
      ensures Owned(g, blocks, inodes, own) && own == Truncated(old(own), i) && (NoOrphans(old(own)) ==> NoOrphans(own))
      ensures inodes == old(inodes)[i := Emptied(old(inodes)[i]).(kind := 0)] && Bare(inodes[i].(tags := 0))
      ensures Whole(blocks, inodes) && AllSynced(g, blocks, inodes)
      ensures OthersSame(old(blocks), old(inodes), blocks, inodes, i)
      ensures old(inodes[i].addrs[NDIRECT + 1]) == 0 ==> FsInv()
    {
      hide Owned, Whole, AllSynced, Content, Used, Below;
      DoubleAbove(g, blocks, inodes, own, i);
      ghost var i0 := inodes[i];
      InodeBelow(g, blocks, inodes, own, i);
      ITrunc(i);
      ghost var blocks1, inodes1 := blocks, inodes;
      Retyped(g, blocks, inodes, own, i);
      inodes := inodes[i := inodes[i].(kind := 0)];
      IUpdate(i);
      OthersTrans(old(blocks), old(inodes), blocks1, inodes1, blocks, inodes, i);
    }

    /** The first step of `fs_ftag`: a block for the first tag.  False is panic("balloc: out of blocks"). */
    method TagBlock(i: nat) returns (ok: bool)
      requires FsInv() && i in inodes && (inodes[i].tags == 0 ==> inodes[i].tagsCounter == 0)
      modifies `blocks, `inodes, `held, `logged, `tooBig, `own
      ensures !ok ==> UsedBelow(g, blocks, g.size)
      ensures ok ==> Owned(g, blocks, inodes, own) && Whole(blocks, inodes) && held == {}
      ensures ok ==>
        inodes.Keys == old(inodes).Keys && inodes == old(inodes)[i := old(inodes)[i].(tags := inodes[i].tags)]
      ensures ok ==>
        inodes[i].tags != 0 && (old(inodes)[i].tags != 0 ==> inodes[i].tags == old(inodes)[i].tags && own == old(own))
      ensures ok && old(inodes)[i].tags == 0 ==>
        inodes[i].tags !in old(own) && own == old(own)[inodes[i].tags as nat := File(i, Tags)]
      ensures ok ==> forall j :: j in inodes ==> Content(blocks, inodes[j]) == Content(old(blocks), old(inodes)[j])
      ensures ok ==> forall j :: j in inodes && j != i ==> j < g.ninodes && Synced(blocks, j, inodes[j])
    {
      hide Owned, Whole, Synced, Addr, Content, Used, BBlock, Taken;
      ghost var blocks0, inodes0, own0 := blocks, inodes, own;
      if inodes[i].tagsCounter == 0 && inodes[i].tags == 0 {
        var r := Balloc();
        if r.None? { return false; }
        TagAllocated(g, blocks0, inodes0, own0, i, r.value);
        inodes := inodes[i := inodes[i].(tags := r.value)];
        own := own[r.value as nat := File(i, Tags)];
        assert own == own0[r.value as nat := File(i, Tags)];
      } else {
        assert inodes == inodes[i := inodes[i].(tags := inodes[i].tags)];
      }
      ok := true;
    }

    /** What `fs_ftag` does to the disk: a block for the first tag, then new contents d of the tag
        block and a new counter. */
    method Tag(i: nat, d: Sector, counter: uint) returns (ok: bool)
      requires FsInv() && i in inodes && (inodes[i].tags == 0 ==> inodes[i].tagsCounter == 0)
      modifies `blocks, `inodes, `held, `logged, `tooBig, `own
      ensures !ok ==> UsedBelow(g, blocks, g.size)
      ensures ok ==> FsInv() && inodes.Keys == old(inodes).Keys
      ensures ok ==>
        inodes[i].tags != 0 && inodes == old(inodes)[i := old(inodes)[i].(tags := inodes[i].tags,
        tagsCounter := counter)]
      ensures ok ==> inodes[i].tags < |blocks| && blocks[inodes[i].tags] == d
      ensures ok && old(inodes)[i].tags != 0 ==> inodes[i].tags == old(inodes)[i].tags && own == old(own)
      ensures ok && old(inodes)[i].tags == 0 ==>
        inodes[i].tags !in old(own) && own == old(own)[inodes[i].tags as nat := File(i, Tags)]
      ensures ok ==> forall j :: j in inodes ==> Content(blocks, inodes[j]) == Content(old(blocks), old(inodes)[j])
    {
      hide Owned, Whole, Synced, AllSynced, Addr, Content, Used, Updated, IBlock, DataStart, InodesKept;
      InodeBelow(g, blocks, inodes, own, i);
      ok := TagBlock(i);
      if !ok { return; }
      TagStore(i, d, counter);
    }

    /** The end of `fs_ftag`: the tag block and the inode are logged. */
    method TagStore(i: nat, d: Sector, counter: uint)
      requires Owned(g, blocks, inodes, own) && Whole(blocks, inodes) && held == {}
      requires i in inodes && i < g.ninodes && IBlock(i) < DataStart(g) && inodes[i].tags != 0
      requires forall j :: j in inodes && j != i ==> j < g.ninodes && Synced(blocks, j, inodes[j])
      modifies `blocks, `inodes, `held, `logged, `tooBig
      ensures FsInv() && inodes == old(inodes)[i := old(inodes)[i].(tagsCounter := counter)]
      ensures inodes[i].tags < |blocks| && blocks[inodes[i].tags] == d
      ensures forall j :: j in inodes ==> Content(blocks, inodes[j]) == Content(old(blocks), old(inodes)[j])
    {
      hide Owned, Whole, Synced, AllSynced, Addr, Content, Updated, IBlock, DataStart, InodesKept;
      ghost var blocks1 := blocks;
      TagWritten(g, blocks, inodes, own, i, d);
      var b := inodes[i].tags;
      var _ := Bread(b);
      LogWrite(b, d);
      Brelse(b);
      TagStored(g, blocks1, blocks, inodes, own, i, counter);
      inodes := inodes[i := inodes[i].(tagsCounter := counter)];
      IUpdate(i);
    }

    lemma SizeOk(i: nat)
      requires FsInv() && i in inodes
      ensures inodes[i].size <= MAXFILE * BSIZE
    {
      hide Owned, AllSynced;
      WholeAt(blocks, inodes, i);
    }

    // ---------- file.c ----------

    /** `filewrite` on a regular file at offset off: whole chunks of at most three blocks, each
        its own transaction.  `done` bytes were written when it returns. */
    method FileWrite(i: nat, src: seq<byte>, off: uint, ghost m: nat) returns (r: IoResult, done: nat)
      requires FsInv() && i in inodes && |src| < LIMIT && off <= inodes[i].size
      modifies `blocks, `inodes, `held, `logged, `tooBig, `own
      ensures r == Panic ==> UsedBelow(g, blocks, g.size)
      ensures r != Panic ==> FsInv() && inodes.Keys == old(inodes).Keys && done <= |src|
      ensures r != Panic ==> Content(blocks, inodes[i]) == Splice(old(Content(blocks, inodes[i])), off, src[..done])
      ensures r != Panic ==> OthersSame(old(blocks), old(inodes), blocks, inodes, i)
      ensures r.Bytes? ==> r.n == done == |src|
      ensures r == Fail ==>
        done % CHUNK == 0 && off + done + (if |src| - done > CHUNK then CHUNK else |src| - done) > MAXFILE * BSIZE
      // it writes all of src exactly if that is in range and free blocks suffice
      ensures r.Bytes? <==>
        && off + |src| <= MAXFILE * BSIZE
        && |EmptySlots(old(blocks), old(inodes[i]), off, |src|)| <= |Free(g, old(blocks))|
      // exactly when a chunk trips log_write's capacity check
      ensures r != Panic ==> (tooBig <==> old(tooBig) || SomeTrips(g, old(blocks), old(inodes[i]), off, |src|, done))
      // none does when the first bitmap block with a free bit, m, has seven for every chunk, or all there are
      ensures r != Panic && RoomIn(g, old(blocks), m, 7 * Chunks(|src|)) ==> tooBig == old(tooBig)
    {
      hide Inv, FsInv, Content, Splice, OthersSame, RoomIn, UsedBelow, Chunks, Took, Trips, SomeTrips, Free, EmptySlots;
      SizeOk(i);
      ghost var blocks0, inodes0, f := blocks, inodes, Content(blocks, inodes[i]);
      ghost var room := RoomIn(g, blocks, m, 7 * Chunks(|src|));
      var k := 0;
      SpliceLen(f, off, src[..k]);
      OthersRefl(blocks, inodes, i);
      TookNothing(g, blocks, inodes[i], off);
      NoneTrips(g, blocks, inodes[i], off, |src|);
      while k < |src|
        invariant FsInv() && inodes.Keys == inodes0.Keys
        invariant 0 <= k <= |src| && (k < |src| ==> k % CHUNK == 0)
        invariant off + k <= MAXFILE * BSIZE
        invariant off <= |f| && off + k <= inodes[i].size && Content(blocks, inodes[i]) == Splice(f, off, src[..k])
        invariant OthersSame(blocks0, inodes0, blocks, inodes, i)
        invariant room ==> tooBig == old(tooBig) && RoomIn(g, blocks, m, 7 * Chunks(|src| - k))
        invariant Took(g, blocks0, inodes0[i], blocks, inodes[i], off, k)
        invariant inodes[i].size == if off + k > inodes0[i].size then off + k else inodes0[i].size
        invariant tooBig <==> old(tooBig) || SomeTrips(g, blocks0, inodes0[i], off, |src|, k)
      {
        var n1 := if |src| - k > CHUNK then CHUNK else |src| - k;
        ghost var blocks1, inodes1 := blocks, inodes;
        r := WriteChunk(i, src, off, k, n1, f, m);
        if r == Panic {
          TookShort(g, blocks0, inodes0[i], blocks1, inodes1[i], off, k, n1);
          EmptyLess(blocks0, inodes0[i], off, k + n1, |src|);
          return Panic, k;
        }
        if r == Fail { return Fail, k; }
        OthersTrans(blocks0, inodes0, blocks1, inodes1, blocks, inodes, i);
        TookTrans(g, blocks0, inodes0[i], blocks1, inodes1[i], blocks, inodes[i], off, k, n1);
        TripsShift(g, blocks0, inodes0[i], blocks1, inodes1[i], blocks, inodes[i], off, k, n1);
        NextTrips(g, blocks0, inodes0[i], off, |src|, k);
        k := k + n1;
      }
      assert src[..k] == src;
      TookFree(g, blocks0, inodes0[i], blocks, inodes[i], off, k);
      CardLe(Free(g, blocks0) - Free(g, blocks), Free(g, blocks0));
      return Bytes(|src|), |src|;
    }

    /** One chunk of `filewrite`, n bytes after the first k, as a transaction of its own. */
    method WriteChunk(i: nat, src: seq<byte>, off: uint, k: nat, n: nat, ghost f: seq<byte>,
                      ghost m: nat) returns (r: IoResult)
      requires FsInv() && i in inodes && |src| < LIMIT && k < |src| && n == if |src| - k > CHUNK then
        CHUNK else |src| - k
      requires off <= |f| && off + k <= inodes[i].size && Content(blocks, inodes[i]) == Splice(f, off, src[..k])
      modifies `blocks, `inodes, `held, `logged, `tooBig, `own
      ensures r == Panic ==> UsedBelow(g, blocks, g.size)
      ensures r == Panic ==> |Free(g, old(blocks))| < |EmptySlots(old(blocks), old(inodes[i]), off + k, n)|
      ensures r.Bytes? ==> off + k + n <= MAXFILE * BSIZE
      ensures r != Panic ==> FsInv() && inodes.Keys == old(inodes).Keys
      ensures r == Fail ==>
        blocks == old(blocks) && inodes == old(inodes) && tooBig == old(tooBig) && off + k + n > MAXFILE * BSIZE
      ensures r.Bytes? ==> Content(blocks, inodes[i]) == Splice(f, off, src[..k + n]) && off + k + n <= inodes[i].size
      ensures r.Bytes? ==> OthersSame(old(blocks), old(inodes), blocks, inodes, i)
      ensures r.Bytes? && RoomIn(g, old(blocks), m, 7 * Chunks(|src| - k)) ==>
                tooBig == old(tooBig) && RoomIn(g, blocks, m, 7 * Chunks(|src| - k - n))
      ensures r.Bytes? ==>
                && Took(g, old(blocks), old(inodes[i]), blocks, inodes[i], off + k, n)
                && inodes[i].size == (if off + k + n > old(inodes[i]).size then off + k + n else old(inodes[i]).size)
                && (tooBig <==> old(tooBig) || Trips(g, old(blocks), old(inodes[i]), off + k, 0, n))
    {
      hide Owned, Addr, Addrs, Paths, OwnStep, Content, Splice, WriteSet, Whole, AllSynced, IBlock, OthersSame,
        RoomIn, Chunks, UsedBelow, Made, Trips, Took, WriteSectors, Free, EmptySlots;
      logged := {};                                     // begin_trans
      ghost var blocks1, inodes1, own1 := blocks, inodes, own;
      SpliceLen(f, off, src[..k]);
      r := Writei(i, src[k..k + n], off + k);
      if !r.Bytes? { return; }
      MadeTook(g, Image(blocks1, inodes1, own1), Image(blocks, inodes, own), i, off + k, n);
      if off + k + n <= inodes1[i].size {
        WholeAt(blocks1, inodes1, i);
        InPlace(g, Image(blocks1, inodes1, own1), Image(blocks, inodes, own), i, off + k, n);
      }
      ChunkRoom(g, blocks1, inodes1, own1, blocks, inodes, own, i, m, off + k, n, |src| - k);
      SpliceTwice(f, off, src[..k], src[k..k + n]);
      SpliceLen(f, off, src[..k + n]);
      assert src[..k] + src[k..k + n] == src[..k + n];
      logged := {};                                     // commit_trans
    }
  }

  lemma StoppedThen(g: Super, d0: Image, logged0: set<nat>, d1: Image, logged1: set<nat>, i: nat, s1: set<Slot>,
                    s: Slot,
                    slots: set<Slot>)
    requires Owned(g, d0.blocks, d0.inodes, d0.own) && Owned(g, d1.blocks, d1.inodes, d1.own)
    requires Grew(g, d0.blocks, d0.inodes, d0.own, logged0, d1.blocks, d1.inodes, d1.own, logged1, i, s1)
    requires i in d1.inodes && s1 <= slots && s in slots && Addr(d1.blocks, d1.inodes[i], s) == 0
    ensures Stopped(g, d0, d1, i, slots)
  {
    hide Owned, Grew, Addr, Partly, Stopped;
    GrewPartly(g, d0, logged0, d1, logged1, i, s1);
    StoppedHere(g, d1, i, s, slots);
    StoppedAfter(g, d0, d1, d1, i, s1, slots, slots);
  }

  lemma StoppedWider(g: Super, d0: Image, d: Image, i: nat, s: set<Slot>, slots: set<Slot>)
    requires Stopped(g, d0, d, i, s) && s <= slots
    ensures Stopped(g, d0, d, i, slots)
  {
    hide Owned, OwnStep, Addr, Later;
    var e :| e in s && Addr(d.blocks, d.inodes[i], e) == 0;
    assert e in slots;
  }

  lemma NoneFree(g: Super, blocks: seq<Sector>)
    requires UsedBelow(g, blocks, g.size)
    ensures Free(g, blocks) == {}
  {
    hide Used;
  }

  lemma EnoughFree(g: Super, d0: Image, d1: Image, i: nat, off: nat, n: nat)
    requires Made(g, d0, d1, i, off, n)
    ensures i in d0.inodes && |EmptySlots(d0.blocks, d0.inodes[i], off, n)| <= |Free(g, d0.blocks)|
  {
    assert i in d0.inodes && i in d1.inodes by { hide Owned, OwnStep; }
    hide Made, Free, EmptySlots, Addr, Paths, LowerPart;
    MadeTook(g, d0, d1, i, off, n);
    CardLe(Free(g, d0.blocks) - Free(g, d1.blocks), Free(g, d0.blocks));
  }

  lemma KindIs(blocks: seq<Sector>, i: nat)
    requires IBlock(i) < |blocks|
    ensures KindOnDisk(blocks, i) == Word(blocks[IBlock(i)], DSTRIDE * (i % IPB)) % 0x1_0000
  {
  }

  lemma KindHere(g: Super, blocks: seq<Sector>, inodes: map<nat, Inode>, i: nat)
    requires AllSynced(g, blocks, inodes) && i in inodes
    ensures IBlock(i) < |blocks| && inodes[i].kind == KindOnDisk(blocks, i)
  {
    KindSynced(blocks, i, inodes[i]);
  }

  /** The inode's sector lies below every block that can be owned. */
  lemma InodeBelow(g: Super, blocks: seq<Sector>, inodes: map<nat, Inode>, own: map<nat, Owner>, i: nat)
    requires Owned(g, blocks, inodes, own) && AllSynced(g, blocks, inodes) && i in inodes
    ensures i < g.ninodes && IBlock(i) < DataStart(g)
  {
    InodesBelowBitmap(g, i);
  }

  /** Marking a truncated inode free. */
  lemma Retyped(g: Super, blocks: seq<Sector>, inodes: map<nat, Inode>, own: map<nat, Owner>, i: nat)
    requires Owned(g, blocks, inodes, own) && Whole(blocks, inodes) && AllSynced(g, blocks, inodes) && i in inodes
    ensures IBlock(i) < |blocks|
    ensures var ino' := inodes[i].(kind := 0);
            var blocks', inodes' := Updated(blocks, i, ino'), inodes[i := ino'];
            && Owned(g, blocks, inodes', own) && Owned(g, blocks', inodes', own)
            && Whole(blocks', inodes') && AllSynced(g, blocks', inodes')
               && OthersSame(blocks, inodes, blocks', inodes', i)
  {
    hide Owned, Whole, Content, Synced;
    RetypeFiles(g, blocks, inodes, own, i, inodes[i].(kind := 0));
  }

  /** The inode of a tagged file is stored with its new counter. */
  lemma TagStored(g: Super, blocks1: seq<Sector>, blocks: seq<Sector>, inodes: map<nat, Inode>, own: map<nat, Owner>,
                  i: nat, counter: uint)
    requires Owned(g, blocks, inodes, own) && Whole(blocks, inodes) && i in inodes && i < g.ninodes
      && InodesKept(g, blocks1, blocks)
    requires forall j :: j in inodes && j != i ==> j < g.ninodes && Synced(blocks1, j, inodes[j])
    ensures IBlock(i) < |blocks|
    ensures var ino' := inodes[i].(tagsCounter := counter);
            var blocks', inodes' := Updated(blocks, i, ino'), inodes[i := ino'];
            && Owned(g, blocks, inodes', own) && Owned(g, blocks', inodes', own)
            && Whole(blocks', inodes') && AllSynced(g, blocks', inodes')
            && (forall j :: j in inodes ==> Content(blocks', inodes'[j]) == Content(blocks, inodes[j]))
            && |blocks'| == |blocks| && (forall b :: DataStart(g) <= b < |blocks| ==> blocks'[b] == blocks[b])
  {
    hide Owned, Whole, Content, Synced, InodesKept;
    forall j | j in inodes && j != i ensures j < g.ninodes && Synced(blocks, j, inodes[j]) {
      KeptSynced(g, blocks1, blocks, j, inodes[j]); }
    RetypeFiles(g, blocks, inodes, own, i, inodes[i].(tagsCounter := counter));
    InodesBelowBitmap(g, i);
  }

  /** d is the index block at slot t. */
  ghost predicate IsBlock(blocks: seq<Sector>, ino: Inode, t: Slot, d: Sector)
  {
    var a := Addr(blocks, ino, t);
    0 < a < |blocks| && blocks[a] == d
  }

  lemma FreeingNothing(g: Super, blocks: seq<Sector>, inodes: map<nat, Inode>, own: map<nat, Owner>, i: nat)
    requires Owned(g, blocks, inodes, own)
    ensures Freeing(g, blocks, blocks, Below(own, i, 0))
  {
    hide Addr;
  }

  /** While blocks are being freed an index block still reads as before, and its buffer is not a bitmap's. */
  lemma TableBlock(g: Super, blocks0: seq<Sector>, inodes0: map<nat, Inode>, own0: map<nat, Owner>,
                   blocks: seq<Sector>, freed: set<nat>, i: nat, t: Slot)
    requires Owned(g, blocks0, inodes0, own0) && i in inodes0 && Addr(blocks0, inodes0[i], t) != 0
    requires Freeing(g, blocks0, blocks, freed)
    ensures var a := Addr(blocks0, inodes0[i], t);
            DataStart(g) <= a < |blocks| && blocks[a] == blocks0[a] && IsBlock(blocks0, inodes0[i], t, blocks[a])
  {
    hide Addr;
    OwnedAt(g, blocks0, inodes0, own0, i, t);
  }

  lemma DistinctTables(g: Super, blocks: seq<Sector>, inodes: map<nat, Inode>, own: map<nat, Owner>, i: nat, j: nat)
    requires Owned(g, blocks, inodes, own) && i in inodes && Addr(blocks, inodes[i], DindTable(j)) != 0
      && inodes[i].addrs[NDIRECT + 1] != 0
    ensures Addr(blocks, inodes[i], DindTable(j)) != inodes[i].addrs[NDIRECT + 1]
      && inodes[i].addrs[NDIRECT + 1] >= DataStart(g)
  {
    OwnedAt(g, blocks, inodes, own, i, DindTable(j));
    OwnedAt(g, blocks, inodes, own, i, Dind);
  }

  lemma DoubleAbove(g: Super, blocks: seq<Sector>, inodes: map<nat, Inode>, own: map<nat, Owner>, i: nat)
    requires Owned(g, blocks, inodes, own) && i in inodes
    ensures inodes[i].addrs[NDIRECT + 1] == 0 || inodes[i].addrs[NDIRECT + 1] >= DataStart(g)
  {
    FreshBlock(g, blocks, inodes, own, i, Dind);
  }

  /** The inode with its first k addresses cleared. */
  function Cleared(ino: Inode, k: nat): Inode
    requires k <= NDIRECT
  {
    ino.(addrs := seq(k, _ => 0) + ino.addrs[k..])
  }

  lemma ClearedFacts(ino: Inode, k: nat)
    requires k < NDIRECT
    ensures Cleared(ino, k).addrs[k] == ino.addrs[k]
    ensures k == 0 ==> Cleared(ino, k) == ino
    ensures WithAddr(Cleared(ino, k), k, 0) == Cleared(ino, k + 1)
    ensures ino.addrs[k] == 0 ==> Cleared(ino, k) == Cleared(ino, k + 1)
    ensures Cleared(ino, k + 1).addrs[NDIRECT..] == ino.addrs[NDIRECT..]
  {
    assert k == 0 ==> Cleared(ino, k).addrs == ino.addrs;
    assert WithAddr(Cleared(ino, k), k, 0).addrs == Cleared(ino, k + 1).addrs;
    assert ino.addrs[k] == 0 ==> Cleared(ino, k).addrs == Cleared(ino, k + 1).addrs;
  }

  lemma ZeroAddrs(ino0: Inode, ino: Inode)
    requires ino == WithAddr(WithAddr(Cleared(ino0, NDIRECT), NDIRECT, 0), NDIRECT + 1, 0)
    ensures ino.(size := 0) == Emptied(ino0)
  {
    assert ino.addrs == Emptied(ino0).addrs;
  }

  lemma ChildRank(blocks: seq<Sector>, ino: Inode, t: Slot, d: Sector, k: nat)
    requires (t == Ind || (t.DindTable? && t.j < NINDIRECT)) && k < NINDIRECT && IsBlock(blocks, ino, t, d)
    ensures Rank(ChildSlot(t, k)) == Rank(ChildSlot(t, 0)) + k && InRange(ChildSlot(t, k))
    ensures Addr(blocks, ino, ChildSlot(t, k)) == Word(d, k)
  {
    hide Word;
  }

  lemma OthersRefl(blocks: seq<Sector>, inodes: map<nat, Inode>, i: nat)
    ensures OthersSame(blocks, inodes, blocks, inodes, i)
  {
  }

  /** How many chunks n bytes take. */
  function Chunks(n: nat): nat { (n + CHUNK - 1) / CHUNK }

  /** With room for the remaining chunks, this one fits the log and leaves room for the rest. */
  lemma ChunkRoom(g: Super, blocks0: seq<Sector>, inodes0: map<nat, Inode>, own0: map<nat, Owner>,
                  blocks: seq<Sector>, inodes: map<nat, Inode>, own: map<nat, Owner>, i: nat, m: nat, off: nat,
                    n: nat, left: nat)
    requires Owned(g, blocks0, inodes0, own0) && Owned(g, blocks, inodes, own) && OwnStep(g, own0, own, i)
      && i in inodes
    requires own.Keys - own0.Keys <= Addrs(blocks, inodes[i], Paths(off / BSIZE, BlockEnd(off, n)))
    requires 0 < left && n == if left > CHUNK then CHUNK else left
    ensures RoomIn(g, blocks0, m, 7 * Chunks(left)) ==>
              && |WriteSet(g, own0, own, {}, blocks, inodes[i], off, n)| <= 8
              && RoomIn(g, blocks, m, 7 * Chunks(left - n))
  {
    hide Owned, OwnStep, Addrs, Paths, RoomIn, WriteSet;
    if RoomIn(g, blocks0, m, 7 * Chunks(left)) {
      ChunkAddrs(blocks, inodes[i], off, n);
      CardLe(own.Keys - own0.Keys, Addrs(blocks, inodes[i], Paths(off / BSIZE, BlockEnd(off, n))));
      assert Chunks(left) == Chunks(left - n) + 1;
      OneMap(g, blocks0, inodes0, own0, blocks, inodes, own, i, m, 7 * Chunks(left), 7 * Chunks(left - n));
      ChunkFits(g, own0, own, blocks, inodes[i], off, n, m);
    }
  }

  lemma SpliceLen(f: seq<byte>, off: nat, s: seq<byte>)
    requires off <= |f|
    ensures off + |s| <= |Splice(f, off, s)|
    ensures s == [] ==> Splice(f, off, s) == f
  {
  }

  lemma WroteOwn(g: Super, blocks0: seq<Sector>, inodes0: map<nat, Inode>, own0: map<nat, Owner>, logged0: set<nat>,
                 blocks: seq<Sector>, inodes: map<nat, Inode>, own: map<nat, Owner>, logged: set<nat>,
                 i: nat, off: nat, cur: nat, src: seq<byte>, slots: set<Slot>)
    requires Wrote(g, blocks0, inodes0, own0, logged0, blocks, inodes, own, logged, i, off, cur, src, slots)
    ensures OwnStep(g, own0, own, i) && i in inodes0 && OnlyLogged(blocks0, blocks, logged)
  {
  }

  lemma WholeAt(blocks: seq<Sector>, inodes: map<nat, Inode>, i: nat)
    requires Whole(blocks, inodes) && i in inodes
    ensures inodes[i].size <= MAXFILE * BSIZE && MappedTo(blocks, inodes[i], inodes[i].size)
  {
  }

  /** Neither the new size nor the inode block changes which sectors the write touched. */
  lemma WriteSetSame(g: Super, own0: map<nat, Owner>, own: map<nat, Owner>, logged0: set<nat>, blocks: seq<Sector>,
                     inodes: map<nat, Inode>, i: nat, z: uint, off: nat, n: nat)
    requires i in inodes && IBlock(i) < |blocks|
    requires forall slots: set<Slot> ::
      Addrs(Updated(blocks, i, inodes[i].(size := z)), inodes[i].(size := z), slots) == Addrs(blocks, inodes[i], slots)
    ensures WriteSet(g, own0, own, logged0, Updated(blocks, i, inodes[i].(size := z)), inodes[i].(size := z), off, n)
         == WriteSet(g, own0, own, logged0, blocks, inodes[i], off, n)
  {
    hide Addrs, NewMaps, Paths;
  }

  /** The block of an offset inside the file is present. */
  lemma ReadBlock(g: Super, blocks: seq<Sector>, inodes: map<nat, Inode>, own: map<nat, Owner>, i: nat, o: nat)
    requires Owned(g, blocks, inodes, own) && Whole(blocks, inodes) && i in inodes && o < inodes[i].size
    ensures o / BSIZE < MAXFILE && Mapped(blocks, inodes[i], o / BSIZE)
    ensures Addr(blocks, inodes[i], SlotOf(o / BSIZE)) < |blocks|
  {
    hide Addr;
    assert Mapped(blocks, inodes[i], o / BSIZE);
    OwnedAt(g, blocks, inodes, own, i, SlotOf(o / BSIZE));
  }

  lemma ReadSlice(blocks: seq<Sector>, ino: Inode, off: nat, tot: nat, m: nat)
    requires off + tot + m <= ino.size && (off + tot) % BSIZE + m <= BSIZE
    requires Addr(blocks, ino, SlotOf((off + tot) / BSIZE)) < |blocks|
    ensures var o := off + tot;
            Content(blocks, ino)[off..o] + blocks[Addr(blocks, ino, SlotOf(o / BSIZE))][o % BSIZE..o % BSIZE + m]
            == Content(blocks, ino)[off..o + m]
  {
    hide Addr, SlotOf;
    var o := off + tot;
    var d := blocks[Addr(blocks, ino, SlotOf(o / BSIZE))];
    forall p: nat | o <= p < o + m ensures Content(blocks, ino)[p] == d[p % BSIZE] && p % BSIZE == o % BSIZE + (p - o) {
      assert p / BSIZE == o / BSIZE;
    }
  }

  lemma OwnedAt(g: Super, blocks: seq<Sector>, inodes: map<nat, Inode>, own: map<nat, Owner>, i: nat, s: Slot)
    requires Owned(g, blocks, inodes, own) && i in inodes && Addr(blocks, inodes[i], s) != 0
    ensures var a := Addr(blocks, inodes[i], s);
            a in own && own[a] == File(i, s) && DataStart(g) <= a < |blocks| == g.size <= LIMIT
  {
  }

  lemma LoggedAlloc(g: Super, blocks0: seq<Sector>, inodes0: map<nat, Inode>, own0: map<nat, Owner>,
                    blocks: seq<Sector>, ino: Inode,
                    i: nat, s: Slot, logged0: set<nat>, logged: set<nat>, x: uint)
    requires Owned(g, blocks0, inodes0, own0) && UsedBelow(g, blocks0, x)
    requires x < g.size && !Used(g, blocks0, x) && logged == logged0 + {BBlock(g, x), x}
    requires Addr(blocks, ino, s) == x != 0
    ensures OwnStep(g, own0, own0[x := File(i, s)], i)
    ensures logged0 <= logged <= logged0 + NewMaps(g, own0, own0[x := File(i, s)]) + Addrs(blocks, ino, {s})
  {
    hide Owned, Used, BBlock, Addr;
    OwnStepOne(g, blocks0, inodes0, own0, i, s, x);
    assert x in Addrs(blocks, ino, {s});
  }

  /** `balloc` then record at `addrs[k]`, with what is logged. */
  lemma GrewTop(g: Super, blocks: seq<Sector>, inodes: map<nat, Inode>, own: map<nat, Owner>, logged: set<nat>,
                i: nat, k: nat, x: uint)
    requires Owned(g, blocks, inodes, own) && i in inodes && k < NDIRECT + 2 && inodes[i].addrs[k] == 0
    requires x < g.size && !Used(g, blocks, x) && UsedBelow(g, blocks, x)
    ensures BBlock(g, x) < |blocks| && x < |blocks| && x !in own
    ensures var blocks', inodes', own' := Taken(g, blocks, x), inodes[i := WithAddr(inodes[i], k, x)],
      own[x := File(i, TopSlot(k))];
            && Owned(g, blocks', inodes', own')
            && Grew(g, blocks, inodes, own, logged, blocks', inodes', own', logged + {BBlock(g, x), x}, i, {TopSlot(k)})
            && Addr(blocks', inodes'[i], TopSlot(k)) == x != 0
            && NewSectors(g, own, own', blocks', inodes'[i]) == {BBlock(g, x), x}
  {
    TakenOwned(g, blocks, inodes, own, x);
    hide Owned, Extends, Used, BBlock, Addr, UsedBelow;
    GrowTop(g, blocks, inodes, own, i, k, x);
    TakenLogged(g, blocks, x, logged + {BBlock(g, x), x});
    LoggedAlloc(g, blocks, inodes, own, Taken(g, blocks, x), WithAddr(inodes[i], k, x), i, TopSlot(k), logged,
      logged + {BBlock(g, x), x}, x);
    OneSector(g, own, i, TopSlot(k), x, Taken(g, blocks, x), WithAddr(inodes[i], k, x));
  }

  lemma GrewSectors(g: Super, own0: map<nat, Owner>, d1: Image, logged1: set<nat>, d2: Image, logged2: set<nat>, i: nat,
                    slots: set<Slot>)
    requires Grew(g, d1.blocks, d1.inodes, d1.own, logged1, d2.blocks, d2.inodes, d2.own, logged2, i, slots)
    requires Owned(g, d1.blocks, d1.inodes, d1.own) && OwnStep(g, own0, d1.own, i)
    ensures NewSectors(g, own0, d2.own, d2.blocks, d2.inodes[i])
         == NewSectors(g, own0, d1.own, d1.blocks, d1.inodes[i]) + NewSectors(g, d1.own, d2.own, d2.blocks,
           d2.inodes[i])
  {
    hide Addr, NewMaps, Addrs, SlotStep, NewSectors, DataKept, Owned;
    GrewLater(g, d1, logged1, d2, logged2, i, slots);
    SectorsTrans(g, own0, d1, d2, i);
  }

  lemma GrewOwn(g: Super, blocks: seq<Sector>, inodes: map<nat, Inode>, own: map<nat, Owner>, logged: set<nat>,
                blocks': seq<Sector>, inodes': map<nat, Inode>, own': map<nat, Owner>, logged': set<nat>, i: nat,
                slots: set<Slot>)
    requires Grew(g, blocks, inodes, own, logged, blocks', inodes', own', logged', i, slots)
    ensures OwnStep(g, own, own', i)
  {
  }

  lemma GrewLater(g: Super, d1: Image, logged1: set<nat>, d2: Image, logged2: set<nat>, i: nat, slots: set<Slot>)
    requires Grew(g, d1.blocks, d1.inodes, d1.own, logged1, d2.blocks, d2.inodes, d2.own, logged2, i, slots)
    ensures i in d1.inodes && i in d2.inodes && OwnStep(g, d1.own, d2.own, i)
    ensures Later(d1.blocks, d1.inodes[i], d2.blocks, d2.inodes[i])
  {
    hide Addr, NewMaps, Addrs, DataKept, OwnStep;
    forall s | Addr(d1.blocks, d1.inodes[i], s) != 0
      ensures Addr(d2.blocks, d2.inodes[i], s) == Addr(d1.blocks, d1.inodes[i], s)
    {
      assert SlotStep(d1.blocks, d1.inodes[i], d2.blocks, d2.inodes[i], s, i, i, slots);
    }
  }

  /** Block cur of the file has been found or made, and is now written and logged. */
  lemma MoreSectors(g: Super, own0: map<nat, Owner>, d1: Image, logged1: set<nat>, d2: Image, logged2: set<nat>,
                    i: nat, d: Sector, off: nat, cur: nat)
    requires Grew(g, d1.blocks, d1.inodes, d1.own, logged1, d2.blocks, d2.inodes, d2.own, logged2, i, Path(cur / BSIZE))
    requires Owned(g, d1.blocks, d1.inodes, d1.own) && Owned(g, d2.blocks, d2.inodes, d2.own)
    requires OwnStep(g, own0, d1.own, i) && off <= cur && MappedTo(d1.blocks, d1.inodes[i], cur)
    requires Mapped(d2.blocks, d2.inodes[i], cur / BSIZE)
    ensures var a: nat := Addr(d2.blocks, d2.inodes[i], SlotOf(cur / BSIZE));
            && a < |d2.blocks|
            && WriteSectors(g, own0, d2.own, d2.blocks[a := d], d2.inodes[i], off / BSIZE, cur / BSIZE + 1)
               == WriteSectors(g, own0, d1.own, d1.blocks, d1.inodes[i], off / BSIZE, cur / BSIZE)
                  + NewSectors(g, d1.own, d2.own, d2.blocks, d2.inodes[i]) + {a}
  {
    hide Addr, Grew, Owned, OwnStep, WriteSectors, NewSectors, SlotOf;
    var e := cur / BSIZE;
    GrewLater(g, d1, logged1, d2, logged2, i, Path(e));
    var a: nat := Addr(d2.blocks, d2.inodes[i], SlotOf(e));
    OwnedAt(g, d2.blocks, d2.inodes, d2.own, i, SlotOf(e));
    DataSlot(e);
    DataOwned(g, d2.blocks, d2.inodes, d2.own, a, d);
    forall k: nat | off / BSIZE <= k < e ensures Mapped(d1.blocks, d1.inodes[i], k) { assert k * BSIZE < cur; }
    SectorsMore(g, own0, d1, d2, d2.blocks[a := d], i, off / BSIZE, e);
  }

  /** The disk after `iupdate` of inode i with a new size. */
  function Sized(d: Image, i: nat, z: uint): Image
    requires i in d.inodes && IBlock(i) < |d.blocks|
  {
    var ino := d.inodes[i].(size := z);
    Image(Updated(d.blocks, i, ino), d.inodes[i := ino], d.own)
  }

  /** A write of src at off has been made, and the disk is current.  Logged before the inode: logged. */
  ghost predicate Written(g: Super, d0: Image, logged0: set<nat>, d: Image, logged: set<nat>, i: nat, off: nat,
                          src: seq<byte>)
  {
    && Owned(g, d.blocks, d.inodes, d.own) && Whole(d.blocks, d.inodes) && AllSynced(g, d.blocks, d.inodes)
    && d.inodes.Keys == d0.inodes.Keys && i in d.inodes && off <= d0.inodes[i].size
    && Content(d.blocks, d.inodes[i]) == Splice(Content(d0.blocks, d0.inodes[i]), off, src)
    && OthersSame(d0.blocks, d0.inodes, d.blocks, d.inodes, i)
    && OwnStep(g, d0.own, d.own, i) && Made(g, d0, d, i, off, |src|)
    && d.own.Keys - d0.own.Keys <= Addrs(d.blocks, d.inodes[i], Paths(off / BSIZE, BlockEnd(off, |src|)))
    && var sectors := WriteSectors(g, d0.own, d.own, d.blocks, d.inodes[i], off / BSIZE, BlockEnd(off, |src|));
       var grows := |src| > 0 && off + |src| > d0.inodes[i].size;
       && d.inodes[i].size == (if grows then off + |src| else d0.inodes[i].size)
       && OnlyLogged(d0.blocks, d.blocks, if grows then logged + {IBlock(i)} else logged)
       && logged == logged0 + sectors <= WriteSet(g, d0.own, d.own, logged0, d.blocks, d.inodes[i], off, |src|)
       && (grows ==> (|sectors| >= LOGMAX <==> Trips(g, d0.blocks, d0.inodes[i], off, 0, |src|)))
  }

  /** The loop of `writei` is done; if the file has grown, its inode is to be stored. */
  lemma WriteEnds(g: Super, d0: Image, logged0: set<nat>, d1: Image, logged1: set<nat>, i: nat, off: nat,
                  src: seq<byte>)
    requires Owned(g, d0.blocks, d0.inodes, d0.own) && Owned(g, d1.blocks, d1.inodes, d1.own)
    requires Whole(d0.blocks, d0.inodes) && AllSynced(g, d0.blocks, d0.inodes) && i in d0.inodes
    requires off <= d0.inodes[i].size && off + |src| <= MAXFILE * BSIZE
    requires Wrote(g, d0.blocks, d0.inodes, d0.own, logged0, d1.blocks, d1.inodes, d1.own, logged1, i, off, off + |src|,
                   src, Paths(off / BSIZE, BlockEnd(off, |src|)))
    requires MappedTo(d1.blocks, d1.inodes[i], off + |src|)
    requires logged1 == logged0 + WriteSectors(g, d0.own, d1.own, d1.blocks, d1.inodes[i], off / BSIZE,
      BlockEnd(off, |src|))
    ensures i in d1.inodes && i < g.ninodes && IBlock(i) < |d1.blocks| && d1.inodes[i].size == d0.inodes[i].size
    ensures if |src| > 0 && off + |src| > d0.inodes[i].size
            then Written(g, d0, logged0, Sized(d1, i, off + |src|), logged1, i, off, src)
            else Written(g, d0, logged0, d1, logged1, i, off, src)
  {
    hide Owned, Wrote, Addr, Addrs, Paths, OwnStep, MappedTo, Synced, Content, Splice, WriteSet, IBlock, Whole,
      AllSynced, WriteSectors, Made, Trips, OnlyLogged, OthersSame, OthersSynced, Updated, BlockEnd;
    var z: uint := if off + |src| > d0.inodes[i].size then off + |src| else d0.inodes[i].size;
    WholeAt(d0.blocks, d0.inodes, i);
    WroteFiles(g, d0.blocks, d0.inodes, d0.own, logged0, d1.blocks, d1.inodes, d1.own, logged1, i, off, src, z);
    WroteOwn(g, d0.blocks, d0.inodes, d0.own, logged0, d1.blocks, d1.inodes, d1.own, logged1, i, off, off + |src|, src,
             Paths(off / BSIZE, BlockEnd(off, |src|)));
    NewBlocks(g, d0.blocks, d0.inodes, d0.own, logged0, d1.blocks, d1.inodes, d1.own, logged1, i, off, off + |src|, src,
              Paths(off / BSIZE, BlockEnd(off, |src|)));
    WroteMade(g, d0, logged0, d1, logged1, i, off, src);
    UpdateOwned(g, d1.blocks, d1.inodes, d1.own, i, d1.inodes[i]);
    if |src| > 0 && off + |src| > d0.inodes[i].size {
      SizeEnds(g, d0, logged0, d1, logged1, i, off, src);
    }
  }

  lemma SizeEnds(g: Super, d0: Image, logged0: set<nat>, d1: Image, logged1: set<nat>, i: nat, off: nat, src: seq<byte>)
    requires i in d0.inodes && |src| > 0 && d0.inodes[i].size < off + |src| <= MAXFILE * BSIZE
    requires LoopDone(g, d0.blocks, d0.inodes, d0.own, logged0, d1.blocks, d1.inodes, d1.own, logged1, i, off, src,
                      off + |src|)
    requires Owned(g, d1.blocks, d1.inodes, d1.own) && Made(g, d0, d1, i, off, |src|) && IBlock(i) < |d1.blocks|
    requires OwnStep(g, d0.own, d1.own, i) && OnlyLogged(d0.blocks, d1.blocks, logged1)
    requires d1.own.Keys - d0.own.Keys <= Addrs(d1.blocks, d1.inodes[i], Paths(off / BSIZE, BlockEnd(off, |src|)))
    requires MappedTo(d1.blocks, d1.inodes[i], off + |src|)
    requires logged1 == logged0 + WriteSectors(g, d0.own, d1.own, d1.blocks, d1.inodes[i], off / BSIZE,
      BlockEnd(off, |src|))
    ensures Written(g, d0, logged0, Sized(d1, i, off + |src|), logged1, i, off, src)
  {
    hide Owned, Addr, Addrs, Paths, OwnStep, MappedTo, Synced, Content, Splice, WriteSet, IBlock, Whole,
      AllSynced, WriteSectors, Made, Trips, OnlyLogged, OthersSame, OthersSynced, BlockEnd, WithWords, Encode;
    var z: uint := off + |src|;
    var d := Sized(d1, i, z);
    UpdateOwned(g, d1.blocks, d.inodes, d1.own, i, d.inodes[i]) by {
      ResizeOwned(g, d1.blocks, d1.inodes, d1.own, i, z); }
    UpdateFiles(g, d1.blocks, d1.inodes, d1.own, i, z);
    WriteSetSame(g, d0.own, d1.own, logged0, d1.blocks, d1.inodes, i, z, off, |src|);
    MadeTrips(g, d0, d1, i, off, |src|);
    MadeStored(g, d0, d1, i, off, |src|, z);
    SectorsStored(g, d0.own, d1.own, d1.blocks, d1.inodes[i], d.blocks, d.inodes[i], off / BSIZE, BlockEnd(off, |src|));
    OthersTrans(d0.blocks, d0.inodes, d1.blocks, d1.inodes, d.blocks, d.inodes, i);
    OneLogged(d0.blocks, d1.blocks, logged1, IBlock(i), d.blocks[IBlock(i)]);
  }

  /** The loop of `writei` is done. */
  lemma WroteMade(g: Super, d0: Image, logged0: set<nat>, d1: Image, logged: set<nat>, i: nat, off: nat, src: seq<byte>)
    requires Owned(g, d0.blocks, d0.inodes, d0.own) && Owned(g, d1.blocks, d1.inodes, d1.own)
    requires Wrote(g, d0.blocks, d0.inodes, d0.own, logged0, d1.blocks, d1.inodes, d1.own, logged, i, off, off + |src|,
                   src, Paths(off / BSIZE, BlockEnd(off, |src|)))
    requires MappedTo(d1.blocks, d1.inodes[i], off + |src|)
    ensures Made(g, d0, d1, i, off, |src|)
  {
    hide Addr, Owned, OwnStep, NewMaps, ByteStep, Path, Paths;
    var path := Paths(off / BSIZE, BlockEnd(off, |src|));
    NewBlocks(g, d0.blocks, d0.inodes, d0.own, logged0, d1.blocks, d1.inodes, d1.own, logged, i, off, off + |src|,
      src, path);
    forall s | Addr(d0.blocks, d0.inodes[i], s) != 0
      ensures Addr(d1.blocks, d1.inodes[i], s) == Addr(d0.blocks, d0.inodes[i], s)
    {
      assert AddrStep(d0.blocks, d0.inodes[i], d1.blocks, d1.inodes[i], s, i, i, path);
    }
    forall s | s in path ensures Addr(d1.blocks, d1.inodes[i], s) != 0 {
      InEnd(off, |src|);
      PathsMapped(d1.blocks, d1.inodes[i], off / BSIZE, BlockEnd(off, |src|), s);
    }
  }

  lemma SectorsStored(g: Super, own0: map<nat, Owner>, own: map<nat, Owner>, blocks: seq<Sector>, ino: Inode,
                      blocks': seq<Sector>, ino': Inode, a: nat, e: nat)
    requires forall slots: set<Slot> :: Addrs(blocks', ino', slots) == Addrs(blocks, ino, slots)
    ensures WriteSectors(g, own0, own, blocks', ino', a, e) == WriteSectors(g, own0, own, blocks, ino, a, e)
  {
    hide Addrs, NewMaps, NewSlots, WithParents, DataSlots;
  }

  /** A chunk that does not make the file longer fits the log. */
  lemma InPlace(g: Super, d0: Image, d1: Image, i: nat, off: nat, n: nat)
    requires Made(g, d0, d1, i, off, n) && n <= CHUNK && off + n <= d0.inodes[i].size
    requires MappedTo(d0.blocks, d0.inodes[i], d0.inodes[i].size)
    ensures |WriteSet(g, d0.own, d1.own, {}, d1.blocks, d1.inodes[i], off, n)| < LOGMAX
    ensures !Trips(g, d0.blocks, d0.inodes[i], off, 0, n)
  {
    NewSlotsEmpty(g, d0, d1, i, off, n);
    InEnd(off, n);
    hide Addr, Owned, OwnStep, WriteSet, Paths, BlockEnd;
    var empty := EmptySlots(d0.blocks, d0.inodes[i], off, n);
    forall s | s in empty ensures false {
      assert forall k: nat :: off / BSIZE <= k < BlockEnd(off, n) ==> Mapped(d0.blocks, d0.inodes[i], k);
      PathsMapped(d0.blocks, d0.inodes[i], off / BSIZE, BlockEnd(off, n), s);
    }
    assert d1.own.Keys - d0.own.Keys == {};
    MapsAre(g, d0, d1);
    ChunkFits(g, d0.own, d1.own, d1.blocks, d1.inodes[i], off, n, 0);
  }

  /** One of the chunks up to byte k of a write of len bytes at off trips the check. */
  ghost predicate SomeTrips(g: Super, blocks: seq<Sector>, ino: Inode, off: nat, len: nat, k: nat)
  {
    exists j: nat :: j < k && j < len && j % CHUNK == 0 && Trips(g, blocks, ino, off, j, ChunkAt(len, j))
  }

  function ChunkAt(len: nat, k: nat): nat
    requires k <= len
  {
    if len - k > CHUNK then CHUNK else len - k
  }

  lemma NoneTrips(g: Super, blocks: seq<Sector>, ino: Inode, off: nat, len: nat)
    ensures !SomeTrips(g, blocks, ino, off, len, 0)
  {
  }

  lemma NextTrips(g: Super, blocks: seq<Sector>, ino: Inode, off: nat, len: nat, k: nat)
    requires k < len && k % CHUNK == 0
    ensures SomeTrips(g, blocks, ino, off, len, k + ChunkAt(len, k))
            <==> SomeTrips(g, blocks, ino, off, len, k) || Trips(g, blocks, ino, off, k, ChunkAt(len, k))
  {
    hide Trips;
    forall j: nat | k <= j < k + ChunkAt(len, k) && j % CHUNK == 0 ensures j == k { Multiple(k, j); }
  }

  lemma Multiple(k: nat, j: nat)
    requires k % CHUNK == 0 && j % CHUNK == 0 && k <= j < k + CHUNK
    ensures j == k
  {
  }

  lemma TookNothing(g: Super, blocks: seq<Sector>, ino: Inode, off: nat)
    ensures Took(g, blocks, ino, blocks, ino, off, 0)
  {
    NoSlots(blocks, ino, off);
    NoPaths(off / BSIZE);
    hide Addr, Free, Paths;
    assert Free(g, blocks) - Free(g, blocks) == {};
  }

  lemma CrossingCount(g: Super, d0: Image, d1: Image, i: nat, off: nat)
    requires Made(g, d0, d1, i, off, CHUNK) && i < g.ninodes && 138 * BSIZE < off < 139 * BSIZE
    requires MappedTo(d0.blocks, d0.inodes[i], off)
    requires Addr(d0.blocks, d0.inodes[i], IndEntry(127)) == 0 && Addr(d0.blocks, d0.inodes[i], Dind) == 0
    ensures var sectors := WriteSectors(g, d0.own, d1.own, d1.blocks, d1.inodes[i], off / BSIZE, BlockEnd(off, CHUNK));
            IBlock(i) !in sectors && |sectors| == 7 + |NewMaps(g, d0.own, d1.own)|
  {
    CrossingSlots(d0.blocks, d0.inodes[i], off);
    MadeCount(g, d0, d1, i, off, CHUNK);
    MadeSectors(g, d0, d1, i, off, CHUNK);
    MadeTook(g, d0, d1, i, off, CHUNK);
    NotInode(g, d0, d1, i, off, CHUNK);
    hide Addr, Made, Owned, Paths, WriteSectors, LoggedSlots, EmptySlots, BlockEnd, Free, LowerPart, Lowest, NewMaps,
      MapsOf, IBlock;
    LowestIs(Free(g, d0.blocks), d1.own.Keys - d0.own.Keys);
    MapsAre(g, d0, d1);
  }

  /** A write logs no inode before its own. */
  lemma NotInode(g: Super, d0: Image, d1: Image, i: nat, off: nat, n: nat)
    requires Made(g, d0, d1, i, off, n) && i < g.ninodes
    ensures IBlock(i) !in WriteSectors(g, d0.own, d1.own, d1.blocks, d1.inodes[i], off / BSIZE, BlockEnd(off, n))
  {
    MadeSectors(g, d0, d1, i, off, n);
    InodesBelowBitmap(g, i);
    assert Owned(g, d1.blocks, d1.inodes, d1.own) by { hide Owned, OwnStep; }
    hide Addr, Made, Owned, WriteSectors, LoggedSlots, EmptySlots, BlockEnd, Used;
    var empty := EmptySlots(d0.blocks, d0.inodes[i], off, n);
    forall b | b in MapsOf(g, Lowest(Free(g, d0.blocks), |empty|)) ensures b > IBlock(i) {
      var x :| x in Free(g, d0.blocks) && b == BBlock(g, x);
      BitmapBelowData(g, x);
    }
    var slots := LoggedSlots(empty, off, n);
    forall b | b in Addrs(d1.blocks, d1.inodes[i], slots) ensures b > IBlock(i) {
      var s :| s in slots && Addr(d1.blocks, d1.inodes[i], s) != 0 && b == Addr(d1.blocks, d1.inodes[i], s);
      FreshBlock(g, d1.blocks, d1.inodes, d1.own, i, s);
    }
  }

  lemma CrossingTrips(g: Super, d0: Image, d1: Image, i: nat, off: nat, m: nat)
    requires Made(g, d0, d1, i, off, CHUNK) && 138 * BSIZE < off < 139 * BSIZE && off == d0.inodes[i].size
    requires MappedTo(d0.blocks, d0.inodes[i], off) && FirstRoom(g, d0.blocks, m)
    requires Addr(d0.blocks, d0.inodes[i], IndEntry(127)) == 0 && Addr(d0.blocks, d0.inodes[i], Dind) == 0
    ensures Trips(g, d0.blocks, d0.inodes[i], off, 0, CHUNK) <==> |FreeIn(g, d0.blocks, m)| < 5
  {
    CrossingSlots(d0.blocks, d0.inodes[i], off);
    MadeTook(g, d0, d1, i, off, CHUNK);
    hide Addr, Made, Owned, Paths, LoggedSlots, EmptySlots, BlockEnd, Free, Lowest, MapsOf, FreeIn, FirstRoom;
    CardLe(Free(g, d0.blocks) - Free(g, d1.blocks), Free(g, d0.blocks));
    CrossingIf(g, d0.blocks, d0.inodes[i], off, m);
  }

  lemma InEnd(off: nat, n: nat)
    ensures forall k: nat :: off / BSIZE <= k < BlockEnd(off, n) ==> k * BSIZE < off + n
  {
  }

  /** Recording the new size and storing the inode changes no address. */
  lemma MadeStored(g: Super, d0: Image, d1: Image, i: nat, off: nat, n: nat, z: uint)
    requires Made(g, d0, d1, i, off, n) && i < g.ninodes
    ensures IBlock(i) < |d1.blocks|
    ensures var ino := d1.inodes[i].(size := z);
            Made(g, d0, Image(Updated(d1.blocks, i, ino), d1.inodes[i := ino], d1.own), i, off, n)
  {
    hide Addr, Updated, IBlock, OwnStep, Paths;
    ResizeOwned(g, d1.blocks, d1.inodes, d1.own, i, z);
    var ino := d1.inodes[i].(size := z);
    var inodes := d1.inodes[i := ino];
    UpdateOwned(g, d1.blocks, inodes, d1.own, i, ino);
    hide Owned;
    var path := Paths(off / BSIZE, BlockEnd(off, n));
    var blocks := Updated(d1.blocks, i, ino);
    forall s ensures Addr(blocks, ino, s) == Addr(d1.blocks, d1.inodes[i], s) {
      assert Addr(blocks, inodes[i], s) == Addr(d1.blocks, inodes[i], s);
    }
    assert Addrs(blocks, ino, path) == Addrs(d1.blocks, d1.inodes[i], path);
  }

  lemma NotOwned(g: Super, blocks: seq<Sector>, inodes: map<nat, Inode>, own: map<nat, Owner>, x: nat)
    requires Owned(g, blocks, inodes, own) && x < g.size && !Used(g, blocks, x)
    ensures x !in own
  {
  }

  lemma EntrySectors(g: Super, blocks0: seq<Sector>, blocks: seq<Sector>, inodes0: map<nat, Inode>, ino: Inode,
                     own0: map<nat, Owner>, i: nat, t: Slot, k: nat, x: uint)
    requires t.Table() && i in inodes0 && ino == inodes0[i]
    requires Owned(g, blocks0, inodes0, own0) && x < g.size && !Used(g, blocks0, x) && Addr(blocks0, ino, t) != 0
    requires Extends(blocks0, inodes0, own0, blocks, inodes0, own0[x := File(i, ChildSlot(t, k))], i, {ChildSlot(t, k)})
    requires Addr(blocks, ino, ChildSlot(t, k)) == x != 0
    ensures NewSectors(g, own0, own0[x := File(i, ChildSlot(t, k))], blocks, ino)
         == {BBlock(g, x), x} + {Addr(blocks0, ino, t) as nat}
  {
    NotOwned(g, blocks0, inodes0, own0, x);
    hide Owned, Addr, Used, BBlock, DataKept;
    assert SlotStep(blocks0, ino, blocks, ino, t, i, i, {ChildSlot(t, k)});
    hide Extends, SlotStep, NewSectors;
    OneSector(g, own0, i, ChildSlot(t, k), x, blocks, ino);
    assert ParentOf(ChildSlot(t, k)) == t;
    assert Addrs(blocks, ino, {t}) == {Addr(blocks0, ino, t) as nat};
  }

  lemma LoggedEntry(g: Super, blocks0: seq<Sector>, blocks: seq<Sector>, inodes0: map<nat, Inode>, ino: Inode,
                    own0: map<nat, Owner>, own: map<nat, Owner>, i: nat, t: Slot, k: nat, logged0: set<nat>,
                      logged: set<nat>, x: uint)
    requires t.Table() && i in inodes0 && ino == inodes0[i]
    requires Owned(g, blocks0, inodes0, own0) && UsedBelow(g, blocks0, x) && own == own0[x := File(i, ChildSlot(t, k))]
    requires x < g.size && !Used(g, blocks0, x) && Addr(blocks0, ino, t) != 0
    requires logged == logged0 + {BBlock(g, x), x} + {Addr(blocks0, ino, t) as nat}
    requires Extends(blocks0, inodes0, own0, blocks, inodes0, own, i, {ChildSlot(t, k)})
      && InodesKept(g, blocks0, blocks) && OnlyLogged(blocks0, blocks, logged)
    requires Addr(blocks, ino, ChildSlot(t, k)) == x != 0
    ensures Grew(g, blocks0, inodes0, own0, logged0, blocks, inodes0, own, logged, i, {t, ChildSlot(t, k)})
  {
    hide Owned, Addr, Used, BBlock, DataKept, OwnStep, OnlyLogged;
    OwnStepOne(g, blocks0, inodes0, own0, i, ChildSlot(t, k), x);
    forall j, s | j in inodes0
      ensures SlotStep(blocks0, inodes0[j], blocks, inodes0[j], s, j, i, {t, ChildSlot(t, k)}) {
      assert SlotStep(blocks0, inodes0[j], blocks, inodes0[j], s, j, i, {ChildSlot(t, k)});
    }
    assert SlotStep(blocks0, ino, blocks, ino, t, i, i, {ChildSlot(t, k)});
    assert x in Addrs(blocks, ino, {t, ChildSlot(t, k)})
      && Addr(blocks0, ino, t) in Addrs(blocks, ino, {t, ChildSlot(t, k)});
  }

  ghost predicate UsedBelow(g: Super, blocks: seq<Sector>, n: nat)
  {
    forall y: nat :: y < n && y < g.size ==> Used(g, blocks, y)
  }

  lemma ScanFacts(g: Super, blocks: seq<Sector>, inodes: map<nat, Inode>, own: map<nat, Owner>, b: nat)
    requires Owned(g, blocks, inodes, own) && b < g.size
    ensures BBlock(g, b) < |blocks| == g.size <= LIMIT && BBlock(g, b) !in own
  {
    BitmapBelowData(g, b);
  }

  /** Bits 0..bi of the bitmap block of b are set, so blocks b..b+bi are used; the next is what bit bi says. */
  lemma ScanStep(g: Super, blocks: seq<Sector>, b: nat, bi: nat, limit: nat)
    requires b % BPB == 0 && BBlock(g, b) < |blocks| && limit <= BPB && b + limit <= g.size
      && (limit == BPB || b + limit == g.size)
    requires bi <= limit && (forall j: nat :: j < bi ==> Bit(blocks[BBlock(g, b)], j))
    requires bi < limit ==> !Bit(blocks[BBlock(g, b)], bi)
    requires UsedBelow(g, blocks, b)
    ensures bi < limit ==> !Used(g, blocks, b + bi) && BBlock(g, b + bi) == BBlock(g, b) && (b + bi) % BPB == bi
    ensures UsedBelow(g, blocks, b + bi)
    ensures bi == limit ==> UsedBelow(g, blocks, b + BPB)
  {
    hide Bit;
    forall y: nat | b <= y < b + BPB ensures BBlock(g, y) == BBlock(g, b) && y % BPB == y - b {
    }
    forall y: nat | y < b + bi && y < g.size ensures Used(g, blocks, y) {
      if b <= y { assert Bit(blocks[BBlock(g, b)], y - b); }
    }
  }

  // ---------- allocation and the log area ----------

  /** `balloc` scans up to sb.size, so it stays out of the log exactly when some block below the
      log is still free. */
  lemma BallocAvoidsLog(g: Super, blocks: seq<Sector>, start: nat, x: nat)
    requires start <= g.size && x < g.size && !Used(g, blocks, x) && UsedBelow(g, blocks, x)
    ensures x < start <==> exists y: nat :: y < start && !Used(g, blocks, y)
  {
  }

  /** Such a disk: of the first 4096 blocks four are free, and a file of 138 blocks and a byte is next. */
  lemma CrossingHappens()
    ensures exists d: Image ::
              && AtRest(XV6(), d) && NoOrphans(d.own) && 1 in d.inodes && d.inodes[1].size == 138 * BSIZE + 1
              && FirstRoom(XV6(), d.blocks, 53) && |FreeIn(XV6(), d.blocks, 53)| == 4
              && Trips(XV6(), d.blocks, d.inodes[1], 138 * BSIZE + 1, 0, CHUNK)
  {
    hide AtRest, NoOrphans, FirstRoom, FreeIn, Free, MappedTo, Addr, Trips;
    var d := CrossingDisk();
    CrossingIf(XV6(), d.blocks, d.inodes[1], 138 * BSIZE + 1, 53);
    assert |FreeIn(XV6(), d.blocks, 53)| == 4;
  }

  lemma CrossingDisk() returns (d: Image)
    ensures AtRest(XV6(), d) && NoOrphans(d.own) && 1 in d.inodes && d.inodes[1].size == 138 * BSIZE + 1
    ensures FirstRoom(XV6(), d.blocks, 53) && |FreeIn(XV6(), d.blocks, 53)| == 4 && |Free(XV6(), d.blocks)| >= 5
    ensures MappedTo(d.blocks, d.inodes[1], 138 * BSIZE + 1)
    ensures Addr(d.blocks, d.inodes[1], IndEntry(127)) == 0 && Addr(d.blocks, d.inodes[1], Dind) == 0
  {
    hide Addr, AtRest, Holds, Filled, DataFor, NoOrphans, FreeIn, FirstRoom, Free, MappedTo;
    SomeSizes();
    var e := Fill(140, 3890);
    d := Store(e, 140, 3890, 138 * BSIZE + 1, 3858 * BSIZE);
    FourFree(d);
    HoldsFacts(d, 140, 3890);
    FilledMapped(d.blocks, d.inodes[1], 140, 138 * BSIZE + 1);
    NotFilled(d.blocks, d.inodes[1], 140, IndEntry(127));
    NotFilled(d.blocks, d.inodes[1], 140, Dind);
  }

  lemma SomeSizes()
    ensures DataFor(140) == 139 && DataFor(3890) == 3858
  {
  }

  lemma FourFree(d: Image)
    requires Holds(d, 140, 3890)
    ensures FirstRoom(XV6(), d.blocks, 53) && |FreeIn(XV6(), d.blocks, 53)| == 4
    ensures |Free(XV6(), d.blocks)| >= 5
  {
    hide Holds, Used;
    forall b: nat | b < 32768 ensures Used(XV6(), d.blocks, b) <==> b < 4092 { UsedUpTo(d, 140, 3890, b); }
    assert FreeIn(XV6(), d.blocks, 53) == {4092, 4093, 4094, 4095};
    CardLe({4092, 4093, 4094, 4095, 4096}, Free(XV6(), d.blocks));
  }

  /** mkfs makes 32768 blocks, the last ten for the log, and leaves the log's bits clear.  Two files
      can fill such a disk up to the log, and then the first free block is the log header. */
  lemma BallocCanTakeLogHeader()
    ensures exists d: Image ::
              && AtRest(XV6(), d) && NoOrphans(d.own)
              && UsedBelow(XV6(), d.blocks, 32758) && !Used(XV6(), d.blocks, 32758)
  {
    hide AtRest, Used;
    FullDisk();
  }
}
