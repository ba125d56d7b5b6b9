/** The running machine (bio.c, log.c, memide.c): disk, buffer cache and log, with
    every operation as the source performs it.  `trail` records the disk after each
    sector write, so every element of it is a possible crash point. */
module LogSystem {
  import opened Sectors
  import opened DiskLog
  import opened BufferCache

  datatype BgetResult =
    | Ready(b: nat)
    | MustSleep(b: nat)   // the sector is cached in a buffer someone else holds
    | NoBuffers           // panic("bget: no buffers")

  datatype LogResult =
    | Done
    | TooBig              // panic("too big a transaction")
    | OutsideTrans        // panic("write outside of trans")
    | Blocked             // bread of the log block slept or panicked

  /** Whether `bread(s)` returns: not held by another, and found or recyclable. */
  predicate CanRead(bufs: seq<Buf>, s: nat)
  {
    if Cached(bufs, s) then forall i :: 0 <= i < |bufs| && Holds(bufs[i], s) ==> !bufs[i].busy
    else Spare(bufs)
  }

  /** Only buffer b differs; it was free to take and is again free to recycle. */
  predicate Touched(bufs: seq<Buf>, bufs': seq<Buf>, b: nat)
  {
    && |bufs| == |bufs'| && b < |bufs| && bufs' == bufs[b := bufs'[b]]
    && !bufs[b].busy && !bufs'[b].busy && !bufs'[b].dirty
  }

  /** Every buffer held was held before. */
  predicate NoneTaken(bufs: seq<Buf>, bufs': seq<Buf>)
  {
    |bufs'| == |bufs| && forall i :: 0 <= i < |bufs| && bufs'[i].busy ==> bufs[i].busy
  }

  /** Nobody holds a buffer of the log area or of a logged sector. */
  predicate LogFree(bufs: seq<Buf>, start: nat, lh: seq<uint>)
  {
    forall i :: 0 <= i < |bufs| && bufs[i].busy ==> bufs[i].sector < start && bufs[i].sector !in lh
  }

  /** During `install_trans`, with the first t entries installed: in a commit the rest are
      pinned; in recovery no buffer is dirty or held. */
  predicate InstallInv(bufs: seq<Buf>, disk: Disk, start: nat, lh: seq<uint>, t: nat, pinned: bool)
  {
    && t <= |lh|
    && Coherent(bufs, disk, start, lh, if pinned then t else |lh|)
    && LogFree(bufs, start, lh) && Spare(bufs)
    && (pinned || forall i :: 0 <= i < NBUF ==> !bufs[i].busy)
  }

  /** The loop of `write_head`: store n and the first n sector numbers in a header sector. */
  method FillHeader(h: Sector, n: nat, sector: seq<uint>) returns (hb: Sector)
    requires n <= |sector| == LOGSIZE
    ensures hb == HeaderWith(h, sector[..n])
  {
    hb := WithWords(h, 0, [n]);
    var i := 0;
    while i < n
      invariant 0 <= i <= n
      invariant hb == WithWords(h, 0, [n] + sector[..i])
    {
      WithWordsAppend(h, 0, [n] + sector[..i], sector[i]);
      assert [n] + sector[..i] + [sector[i]] == [n] + sector[..i + 1];
      hb := WithWords(hb, 1 + i, [sector[i]]);
      i := i + 1;
    }
  }

  /** Log block t can be read. */
  lemma FirstRead(bufs: seq<Buf>, disk: Disk, start: nat, lh: seq<uint>, t: nat, pinned: bool)
    requires InstallInv(bufs, disk, start, lh, t, pinned) && t < |lh|
    ensures start + 1 + t < |disk| && CanRead(bufs, start + 1 + t) && OneEach(bufs)
    ensures forall i :: 0 <= i < NBUF && bufs[i].dirty ==> bufs[i].valid
  {
  }

  /** With log block t read into buffer l, its home sector can be read as well: in a commit
      it is pinned in the cache; in recovery nine other buffers are free. */
  lemma SecondRead(bufs: seq<Buf>, bufs1: seq<Buf>, disk: Disk, start: nat, lh: seq<uint>, t: nat, pinned: bool, l: nat)
    requires InstallInv(bufs, disk, start, lh, t, pinned) && t < |lh|
    requires ReadStep(bufs, bufs1, disk, start + 1 + t, l)
    ensures lh[t] < |disk| && CanRead(bufs1, lh[t]) && OneEach(bufs1)
    ensures forall i :: 0 <= i < NBUF && bufs1[i].dirty ==> bufs1[i].valid
  {
    ReadKeeps(bufs, bufs1, disk, start, lh, if pinned then t else |lh|, start + 1 + t, l);
    if pinned {
      assert Pinned(bufs, lh[t]);
      var i :| 0 <= i < NBUF && Holds(bufs[i], lh[t]) && bufs[i].dirty;
      assert Holds(bufs1[i], lh[t]) && i != l;
    } else {
      NoneDirty(bufs, disk, start, lh);
      var i := if l == 0 then 1 else 0;
      assert !bufs1[i].busy && !bufs1[i].dirty;
    }
  }

  lemma InstallInvKeeps(bufs: seq<Buf>, bufs1: seq<Buf>, bufs2: seq<Buf>, disk: Disk, start: nat, lh: seq<uint>,
                        t: nat, pinned: bool, l: nat, d: nat)
    requires InstallInv(bufs, disk, start, lh, t, pinned) && t < |lh|
    requires ReadStep(bufs, bufs1, disk, start + 1 + t, l) && ReadStep(bufs1, bufs2, disk, lh[t], d)
    ensures l != d && bufs2[l].data == disk[start + 1 + t]
    ensures InstallInv(Installed(bufs2, l, d), disk[lh[t] := disk[start + 1 + t]], start, lh, t + 1, pinned)
  {
    InstallKeeps(bufs, bufs1, bufs2, disk, start, lh, if pinned then t else |lh|, t, l, d);
    var bufs3 := Installed(bufs2, l, d);
    assert !bufs3[d].busy && !bufs3[d].dirty;
    assert forall i :: 0 <= i < NBUF ==> bufs3[i].busy == bufs[i].busy && (bufs3[i].busy ==> bufs3[i] == bufs[i]);
  }

  /** The loop of `read_head`: take n and the first n sector numbers from a header sector. */
  method TakeHeader(h: Sector, sector: seq<uint>) returns (n: nat, sector': seq<uint>)
    requires |sector| == LOGSIZE && Count(h) <= LOGSIZE
    ensures n == Count(h) && |sector'| == LOGSIZE
    ensures forall i :: 0 <= i < n ==> sector'[i] == Entry(h, i)
    ensures forall i :: n <= i < LOGSIZE ==> sector'[i] == sector[i]
  {
    n, sector' := Count(h), sector;
    var i := 0;
    while i < n
      invariant 0 <= i <= n && |sector'| == LOGSIZE
      invariant forall j :: 0 <= j < i ==> sector'[j] == Entry(h, j)
      invariant forall j :: i <= j < LOGSIZE ==> sector'[j] == sector[j]
    {
      sector' := sector'[i := Word(h, 1 + i)];
      i := i + 1;
    }
  }

  lemma InstallDone(bufs: seq<Buf>, disk: Disk, start: nat, lh: seq<uint>, pinned: bool)
    requires InstallInv(bufs, disk, start, lh, |lh|, pinned)
    ensures Coherent(bufs, disk, start, [], 0) && CanRead(bufs, start)
  {
    ForgetKeeps(bufs, disk, start, lh);
  }

  lemma ColdReadable(bufs: seq<Buf>, disk: Disk, start: nat)
    requires Coherent(bufs, disk, start, [], 0) && forall i :: 0 <= i < NBUF ==> !bufs[i].busy
    ensures CanRead(bufs, start)
  {
    NoneDirty(bufs, disk, start, []);
    assert !bufs[0].busy && !bufs[0].dirty;
  }

  lemma AdoptInstall(bufs: seq<Buf>, bufs': seq<Buf>, disk: Disk, start: nat, lh: seq<uint>, b: nat)
    requires Touched(bufs, bufs', b) && forall i :: 0 <= i < |bufs| ==> !bufs[i].busy
    requires WellFormed(disk, start) && |lh| == Count(disk[start])
    requires forall i :: 0 <= i < |lh| ==> lh[i] == Entry(disk[start], i)
    requires Coherent(bufs', disk, start, [], 0)
    ensures InstallInv(bufs', disk, start, lh, 0, false)
  {
    AdoptKeeps(bufs', disk, start, lh);
    assert !bufs'[b].busy && !bufs'[b].dirty;
  }

  /** The search of `log_write`: the slot of sector s, or the next free one. */
  method FindSlot(n: nat, sector: seq<uint>, s: uint) returns (i: nat)
    requires n < |sector|
    ensures i <= n && (i < n ==> sector[i] == s) && s !in sector[..i]
  {
    i := 0;
    while i < n && sector[i] != s
      invariant i <= n && s !in sector[..i]
    {
      i := i + 1;
    }
  }

  /** `log_write(b)` used buffer l for the log block; b became dirty, nothing else changed. */
  predicate LogTouched(bufs: seq<Buf>, bufs': seq<Buf>, b: nat, l: nat)
  {
    && |bufs'| == |bufs| && b < |bufs| && l < |bufs| && b != l
    && Touched(bufs, bufs'[b := bufs[b]], l)
    && bufs'[b] == bufs[b].(dirty := true)
  }

  lemma LogCanRead(bufs: seq<Buf>, start: nat, i: nat)
    requires forall j :: 0 <= j < |bufs| && bufs[j].busy ==> bufs[j].sector < start
    ensures Spare(bufs) ==> CanRead(bufs, start + i + 1)
  {
  }

  /** `log_write` of buffer b goes to log block i: its own if already logged, else the next. */
  predicate SlotFor(bufs: seq<Buf>, disk: Disk, start: nat, lh: seq<uint>, b: nat, i: nat)
  {
    && Coherent(bufs, disk, start, lh, 0)
    && b < NBUF && bufs[b].busy && bufs[b].valid && bufs[b].sector < start
    && i <= |lh| && start + 1 + i < |disk|
    && if i < |lh| then lh[i] == bufs[b].sector else bufs[b].sector !in lh
  }

  /** The logged list after `log_write` of sector s to slot i. */
  function LhAfter(lh: seq<uint>, i: nat, s: uint): seq<uint>
  {
    if i < |lh| then lh else lh + [s]
  }

  /** The buffers after `log_write(b)` through the log-block buffer l. */
  function BufsAfter(bufs1: seq<Buf>, b: nat, l: nat): seq<Buf>
    requires b < |bufs1| && l < |bufs1|
  {
    Stored(bufs1, l, bufs1[b].data)[b := bufs1[b].(dirty := true)]
  }

  /** Cache and log after `log_write(b)` to slot i: b is dirty, settled and otherwise as before. */
  predicate LogWritten(bufs: seq<Buf>, bufs': seq<Buf>, disk': Disk, start: nat, lh': seq<uint>, b: nat, l: nat)
  {
    && Coherent(bufs', disk', start, lh', 0)
    && b < |bufs| == |bufs'| && bufs'[b] == bufs[b].(dirty := true)
    && bufs'[b].sector < |disk'| && Settled(bufs'[b], disk', start, lh', 0)
    && LogTouched(bufs, bufs', b, l)
  }

  lemma LogStepCache(bufs: seq<Buf>, bufs1: seq<Buf>, disk: Disk, start: nat, lh: seq<uint>, b: nat, l: nat, i: nat)
    requires SlotFor(bufs, disk, start, lh, b, i)
    requires ReadStep(bufs, bufs1, disk, start + 1 + i, l)
    ensures b != l && bufs1[b] == bufs[b]
    ensures LogWritten(bufs, BufsAfter(bufs1, b, l), disk[start + 1 + i := bufs[b].data], start,
                       LhAfter(lh, i, bufs[b].sector), b, l)
  {
    hide Coherent, Settled, LogFits;
    Basics(bufs, disk, start, lh, 0);
    LogSlotHeld(bufs, disk, start, lh, b, i);
    StoreKeeps(bufs, bufs1, disk, start, lh, 0, start + 1 + i, l, bufs[b].data);
    var bufs2, disk' := Stored(bufs1, l, bufs[b].data), disk[start + 1 + i := bufs[b].data];
    assert bufs2[b] == bufs[b];
    if i < |lh| {
      RepinKeeps(bufs2, disk', start, lh, b, i);
      assert BufsAfter(bufs1, b, l) == bufs2;
    } else {
      PinKeeps(bufs2, disk', start, lh, b);
    }
    assert BufsAfter(bufs1, b, l)[b := bufs[b]] == bufs[l := bufs2[l]];
  }

  lemma LogSlotHeld(bufs: seq<Buf>, disk: Disk, start: nat, lh: seq<uint>, b: nat, i: nat)
    requires SlotFor(bufs, disk, start, lh, b, i)
    ensures forall j, k :: (0 <= j < NBUF && 0 <= k < |lh| && start + 1 + i == start + 1 + k
                            && Holds(bufs[j], lh[k])) ==> bufs[j].busy
  {
  }

  /** Logging overrides one sector of the logged contents and no crash point notices. */
  lemma LogStepMeaning(bufs: seq<Buf>, disk: Disk, start: nat, lh: seq<uint>, b: nat, i: nat)
    requires SlotFor(bufs, disk, start, lh, b, i) && Count(disk[start]) == 0
    ensures var disk' := disk[start + 1 + i := bufs[b].data];
            && start + |LhAfter(lh, i, bufs[b].sector)| < |disk'|
            && Logged(disk', start, LhAfter(lh, i, bufs[b].sector)) == Logged(disk, start,
               lh)[bufs[b].sector := bufs[b].data]
            && RecoversTo(disk', start, Home(disk, start)) && Home(disk', start) == Home(disk, start)
  {
    var disk' := disk[start + 1 + i := bufs[b].data];
    assert Home(disk', start) == Home(disk, start);
    ClearHeaderRecovers(disk', start);
    if i < |lh| {
      LoggedRewrite(disk, start, lh, i, bufs[b].data);
    } else {
      LoggedAppend(disk, start, lh, bufs[b].sector, bufs[b].data);
    }
  }

  lemma EmptyCommit(disk: Disk, start: nat, lh: seq<uint>)
    requires start + |lh| < |disk|
    ensures lh == [] ==> Overlay(Home(disk, start), Logged(disk, start, lh)) == Home(disk, start)
  {
  }

  lemma CommitReadable(bufs: seq<Buf>, start: nat, lh: seq<uint>)
    requires LogFree(bufs, start, lh) && Spare(bufs)
    ensures CanRead(bufs, start)
  {
  }

  lemma HeaderBlocks(bufs: seq<Buf>, disk: Disk, start: nat, lh: seq<uint>)
    requires Coherent(bufs, disk, start, lh, 0)
    ensures start + |lh| < |disk| && Distinct(lh) && forall i :: 0 <= i < |lh| ==> lh[i] < start
  {
  }

  lemma HeaderReads(disk: Disk, disk1: Disk, start: nat, lh: seq<uint>)
    requires start < |disk| && |lh| <= LOGSIZE && disk1 == disk[start := HeaderWith(disk[start], lh)]
    ensures Count(disk1[start]) == |lh| && forall i :: 0 <= i < |lh| ==> Entry(disk1[start], i) == lh[i]
  {
  }

  lemma CommitInstall(bufs: seq<Buf>, bufs': seq<Buf>, disk: Disk, start: nat, lh: seq<uint>, b: nat)
    requires Coherent(bufs', disk, start, lh, 0) && LogFree(bufs, start, lh) && Touched(bufs, bufs', b)
    ensures InstallInv(bufs', disk, start, lh, 0, true)
  {
    assert !bufs'[b].busy && !bufs'[b].dirty;
  }

  lemma ColdCache(bufs: seq<Buf>, disk: Disk, start: nat)
    requires |bufs| == NBUF && start < |disk|
    requires forall i :: 0 <= i < NBUF ==> bufs[i].dev != ROOTDEV && !bufs[i].busy && !bufs[i].valid && !bufs[i].dirty
    ensures Coherent(bufs, disk, start, [], 0)
  {
  }

  /** What a reader sees of a sector nobody holds: its logged contents if it was logged in
      this transaction, else the disk's. */
  lemma ViewIsLogged(bufs: seq<Buf>, disk: Disk, start: nat, lh: seq<uint>, s: nat)
    requires Coherent(bufs, disk, start, lh, 0) && s < start
    requires forall i :: 0 <= i < NBUF && Holds(bufs[i], s) ==> !bufs[i].busy
    ensures View(bufs, disk, s) == Overlay(Home(disk, start), Logged(disk, start, lh))[s]
  {
    hide Logged, Settled, OneEach, Pinned, View;
    LoggedKeys(disk, start, lh, s);
    if s in lh {
      var k: nat :| k < |lh| && lh[k] == s;
      LoggedAt(disk, start, lh, k);
      ViewLogged(bufs, disk, start, lh, k);
    } else {
      ViewUnlogged(bufs, disk, start, lh, s);
    }
  }

  lemma ViewLogged(bufs: seq<Buf>, disk: Disk, start: nat, lh: seq<uint>, k: nat)
    requires Coherent(bufs, disk, start, lh, 0) && k < |lh|
    requires forall i :: 0 <= i < NBUF && Holds(bufs[i], lh[k]) ==> !bufs[i].busy
    ensures lh[k] < |disk| && start + 1 + k < |disk| && View(bufs, disk, lh[k]) == disk[start + 1 + k]
  {
    var i := PinnedHolder(bufs, disk, start, lh, k);
    SettledAt(bufs, disk, start, lh, i);
    hide Coherent;
  }

  lemma SettledAt(bufs: seq<Buf>, disk: Disk, start: nat, lh: seq<uint>, i: nat)
    requires Coherent(bufs, disk, start, lh, 0) && i < NBUF && bufs[i].valid && !bufs[i].busy
    ensures Settled(bufs[i], disk, start, lh, 0)
  {
  }

  lemma ViewUnlogged(bufs: seq<Buf>, disk: Disk, start: nat, lh: seq<uint>, s: nat)
    requires Coherent(bufs, disk, start, lh, 0) && s < start && s !in lh
    requires forall i :: 0 <= i < NBUF && Holds(bufs[i], s) ==> !bufs[i].busy
    ensures s < |disk| && View(bufs, disk, s) == disk[s]
  {
    assert lh[0..] == lh;
  }

  lemma PinnedHolder(bufs: seq<Buf>, disk: Disk, start: nat, lh: seq<uint>, k: nat) returns (i: nat)
    requires Coherent(bufs, disk, start, lh, 0) && k < |lh|
    ensures i < NBUF && Holds(bufs[i], lh[k]) && bufs[i].dirty && bufs[i].valid
    ensures forall j :: 0 <= j < NBUF && Holds(bufs[j], lh[k]) ==> j == i
  {
    assert Pinned(bufs, lh[k]);
    i :| i < NBUF && Holds(bufs[i], lh[k]) && bufs[i].dirty;
  }

  /** From any crash point that recovers to `home`, any number of interrupted recoveries
      followed by a completed one produce exactly `home`. */
  lemma AtomicAcrossCrashes(d: Disk, start: nat, home: Disk, ds: seq<Disk>)
    requires RecoversTo(d, start, home)
    requires ds != [] && ds[0] == d && CrashChain(ds, start)
    ensures Home(Recover(ds[|ds| - 1], start), start) == home
  {
    RepeatedCrashes(ds, start);
  }

  class System {
    const start: nat              // log.start
    var disk: Disk
    var bufs: seq<Buf>            // bcache.buf
    var next: seq<nat>            // buf.next and buf.prev by index, HEAD for bcache.head
    var prev: seq<nat>
    var n: nat                    // log.lh.n
    var sector: seq<uint>         // log.lh.sector
    var busy: bool                // log.busy
    ghost var order: seq<nat>     // the list the pointers form, most recent first
    ghost var trail: seq<Disk>    // the disk after every sector write
    ghost var mark: nat           // index in trail where the transaction began

    ghost predicate Shape()
      reads this
    {
      && start < |disk| <= 0x1_0000_0000
      && |bufs| == NBUF && Ring(next, prev, order) && All(order)
      && |sector| == LOGSIZE && n <= LOGSIZE
      && trail != [] && trail[|trail| - 1] == disk
    }

    ghost function Lh(): seq<uint>
      reads this
      requires n <= |sector|
    {
      sector[..n]
    }

    /** Between operations of a transaction. */
    ghost predicate Valid()
      reads this
    {
      && Shape()
      && Coherent(bufs, disk, start, Lh(), 0)
      && Count(disk[start]) == 0
      && (!busy ==> n == 0)
      && mark < |trail|
      && (forall k :: mark <= k < |trail| ==> RecoversTo(trail[k], start, Home(disk, start)))
    }

    /** What this transaction has logged so far, by sector. */
    ghost function Pending(): map<uint, Sector>
      reads this
      requires Valid()
    {
      Logged(disk, start, Lh())
    }

    /** Boot with a disk image and an empty cache (`binit`). */
    constructor (d: Disk, start': nat)
      requires start' < |d| <= 0x1_0000_0000
      ensures Shape() && disk == d && start == start' && n == 0 && !busy && trail == [d] && mark == 0
      ensures forall i :: 0 <= i < NBUF ==> bufs[i].dev != ROOTDEV && !bufs[i].busy && !bufs[i].valid && !bufs[i].dirty
    {
      start, disk, trail, mark := start', d, [d], 0;
      n, sector, busy := 0, seq(LOGSIZE, _ => 0), false;
      var nx: seq<nat>, pv: seq<nat> := seq(NBUF + 1, _ => HEAD), seq(NBUF + 1, _ => HEAD);
      ghost var o: seq<nat> := [];
      var b := 0;
      while b < NBUF
        invariant b <= NBUF && |o| == b
        invariant Ring(nx, pv, o)
        invariant forall i: nat :: i in o <==> i < b
      {
        PushRing(nx, pv, o, b);
        var h := nx[HEAD];
        nx := nx[b := h];
        pv := pv[b := HEAD];
        pv := pv[h := b];
        nx := nx[HEAD := b];
        o := [b] + o;
        b := b + 1;
      }
      next, prev, order := nx, pv, o;
      bufs := seq(NBUF, _ => Buf(-1, 0, false, false, false, Zero()));
    }

    // ---------- bio.c ----------

    method Bget(s: uint) returns (r: BgetResult)
      requires Shape() && OneEach(bufs)
      modifies `bufs
      ensures Shape()
      ensures r.Ready? <==> old(CanRead(bufs, s))
      ensures !r.Ready? ==> bufs == old(bufs)
      ensures r.MustSleep? ==> r.b < NBUF && Holds(bufs[r.b], s) && bufs[r.b].busy
      ensures r.NoBuffers? ==> !Cached(bufs, s) && !Spare(bufs)
      ensures r.Ready? ==> r.b < NBUF && bufs == old(bufs)[r.b := bufs[r.b]] && !old(bufs[r.b]).busy
      ensures r.Ready? && old(Cached(bufs, s)) ==>
                old(Holds(bufs[r.b], s)) && bufs[r.b] == old(bufs[r.b]).(busy := true)
      // recycled: the least recently used buffer that is neither busy nor dirty
      ensures r.Ready? && !old(Cached(bufs, s)) ==>
                && bufs[r.b] == Buf(ROOTDEV, s, true, false, false, old(bufs[r.b]).data)
                && !old(bufs[r.b]).dirty
                && exists k :: 0 <= k < NBUF && order[k] == r.b &&
                     forall j :: k < j < NBUF ==> old(bufs)[order[j]].busy || old(bufs)[order[j]].dirty
    {
      assert At(order, 0) == HEAD;
      var b := next[HEAD];
      ghost var k := 0;
      while b != HEAD
        invariant 0 <= k <= NBUF && b == At(order, k + 1)
        invariant forall j :: 0 <= j < k ==> !Holds(bufs[order[j]], s)
        decreases NBUF - k
      {
        if Holds(bufs[b], s) {
          if !bufs[b].busy {
            bufs := bufs[b := bufs[b].(busy := true)];
            return Ready(b);
          }
          return MustSleep(b);
        }
        b := next[b];
        k := k + 1;
      }
      forall i: nat | i < NBUF ensures !Holds(bufs[i], s) { assert i in order; }
      assert At(order, NBUF + 1) == HEAD;
      b := prev[HEAD];
      k := NBUF;
      while b != HEAD
        invariant 0 <= k <= NBUF && b == At(order, k)
        invariant forall j :: k <= j < NBUF ==> bufs[order[j]].busy || bufs[order[j]].dirty
        decreases k
      {
        if !bufs[b].busy && !bufs[b].dirty {
          assert order[k - 1] == b;
          bufs := bufs[b := Buf(ROOTDEV, s, true, false, false, bufs[b].data)];
          return Ready(b);
        }
        b := prev[b];
        k := k - 1;
      }
      forall i: nat | i < NBUF ensures bufs[i].busy || bufs[i].dirty { assert i in order; }
      return NoBuffers;
    }

    /** One disk request (memide.c); its panics are the preconditions. */
    method Iderw(b: nat)
      requires Shape() && b < NBUF && bufs[b].busy && bufs[b].dev == ROOTDEV && bufs[b].sector < |disk|
      requires !(bufs[b].valid && !bufs[b].dirty)
      modifies `bufs, `disk, `trail
      ensures Shape()
      ensures old(bufs[b].dirty) ==>
                && disk == old(disk[bufs[b].sector := bufs[b].data]) && trail == old(trail) + [disk]
                && bufs == Written(old(bufs), b)
      ensures !old(bufs[b].dirty) ==>
                && disk == old(disk) && trail == old(trail)
                && bufs == old(bufs[b := bufs[b].(data := disk[bufs[b].sector], valid := true)])
    {
      var x := bufs[b];
      if x.dirty {
        disk := disk[x.sector := x.data];
        trail := trail + [disk];
        bufs := bufs[b := x.(dirty := false, valid := true)];
      } else {
        bufs := bufs[b := x.(data := disk[x.sector], valid := true)];
      }
    }

    method Bread(s: uint) returns (r: BgetResult)
      requires Shape() && OneEach(bufs) && s < |disk|
      requires forall i :: 0 <= i < NBUF && bufs[i].dirty ==> bufs[i].valid
      modifies `bufs, `disk, `trail
      ensures Shape() && disk == old(disk) && trail == old(trail)
      ensures r.Ready? <==> old(CanRead(bufs, s))
      ensures !r.Ready? ==> bufs == old(bufs)
      ensures r.Ready? ==> ReadStep(old(bufs), bufs, disk, s, r.b)
    {
      r := Bget(s);
      if r.Ready? && !bufs[r.b].valid {
        Iderw(r.b);
      }
    }

    method Bwrite(b: nat)
      requires Shape() && b < NBUF && bufs[b].busy && bufs[b].dev == ROOTDEV && bufs[b].sector < |disk|
      modifies `bufs, `disk, `trail
      ensures Shape()
      ensures disk == old(disk[bufs[b].sector := bufs[b].data]) && trail == old(trail) + [disk]
      ensures bufs == Written(old(bufs), b)
    {
      bufs := bufs[b := bufs[b].(dirty := true)];
      Iderw(b);
    }

    /** Release: move to the front of the list. */
    method Brelse(b: nat)
      requires Shape() && b < NBUF && bufs[b].busy
      modifies `bufs, `next, `prev, `order
      ensures Shape()
      ensures bufs == old(bufs[b := bufs[b].(busy := false)])
      ensures exists k :: 0 <= k < NBUF && old(order)[k] == b && order == ToFront(old(order), k)
    {
      hide Ring, All, Without;
      ghost var k: nat := PlaceOf(order, b);
      RingSize(next, prev, order);
      GoneFrom(next, prev, order, k);
      UnlinkRing(next, prev, order, k);
      prev := prev[next[b] := prev[b]];
      next := next[prev[b] := next[b]];
      PushRing(next, prev, Without(order, k), b);
      next := next[b := next[HEAD]];
      prev := prev[b := HEAD];
      prev := prev[next[HEAD] := b];
      next := next[HEAD := b];
      ToFrontAll(order, k);
      order := ToFront(order, k);
      bufs := bufs[b := bufs[b].(busy := false)];
    }

    // ---------- log.c ----------

    /** Write the in-memory header to disk. */
    method WriteHead(ghost from: nat) returns (ghost b: nat)
      requires Shape() && Coherent(bufs, disk, start, Lh(), from)
      requires CanRead(bufs, start)
      modifies `bufs, `disk, `trail, `next, `prev, `order
      ensures Shape() && Coherent(bufs, disk, start, Lh(), from)
      ensures disk == old(disk)[start := HeaderWith(old(disk)[start], Lh())]
      ensures trail == old(trail) + [disk]
      ensures Touched(old(bufs), bufs, b)
    {
      hide Coherent, Ring, All;
      ghost var bufs0 := bufs;
      Basics(bufs, disk, start, Lh(), from);
      var r := Bread(start);
      var hb := FillHeader(bufs[r.b].data, n, sector);
      StoreKeeps(bufs0, bufs, disk, start, Lh(), from, start, r.b, hb);
      ghost var bufs1 := bufs;
      bufs := bufs[r.b := bufs[r.b].(data := hb)];
      Bwrite(r.b);
      Brelse(r.b);
      assert bufs == Stored(bufs1, r.b, hb);
      b := r.b;
    }

    /** Copy buffer l to buffer d, write d and release both. */
    method CopyBlock(l: nat, d: nat)
      requires Shape() && l < NBUF && d < NBUF && l != d && bufs[l].busy
      requires bufs[d].busy && bufs[d].dev == ROOTDEV && bufs[d].sector < |disk|
      modifies `bufs, `disk, `trail, `next, `prev, `order
      ensures Shape() && disk == old(disk)[old(bufs)[d].sector := old(bufs)[l].data]
      ensures trail == old(trail) + [disk]
      ensures bufs == Installed(old(bufs), l, d)
    {
      bufs := bufs[d := bufs[d].(data := bufs[l].data)];
      Bwrite(d);
      Brelse(l);
      Brelse(d);
    }

    /** Copy log block `tail` to its home sector. */
    method InstallOne(tail: nat, ghost pinned: bool)
      requires Shape() && tail < n && InstallInv(bufs, disk, start, Lh(), tail, pinned)
      modifies `bufs, `disk, `trail, `next, `prev, `order
      ensures Shape() && InstallInv(bufs, disk, start, Lh(), tail + 1, pinned)
      ensures disk == old(disk)[sector[tail] := old(disk)[start + 1 + tail]]
      ensures trail == old(trail) + [disk] && NoneTaken(old(bufs), bufs)
    {
      hide Ring, All, Coherent, InstallInv;
      ghost var bufs0, disk0, lh := bufs, disk, Lh();
      FirstRead(bufs0, disk0, start, lh, tail, pinned);
      var l := Bread(start + 1 + tail);
      ghost var bufs1 := bufs;
      SecondRead(bufs0, bufs1, disk0, start, lh, tail, pinned, l.b);
      var d := Bread(sector[tail]);
      InstallInvKeeps(bufs0, bufs1, bufs, disk0, start, lh, tail, pinned, l.b, d.b);
      CopyBlock(l.b, d.b);
    }

    /** Copy every logged block to its home sector: from a commit (the home buffers are
        pinned) or from recovery (nothing is). */
    method InstallTrans(ghost pinned: bool)
      requires Shape() && WellFormed(disk, start) && Count(disk[start]) == n
      requires forall i :: 0 <= i < n ==> Entry(disk[start], i) == sector[i]
      requires InstallInv(bufs, disk, start, Lh(), 0, pinned)
      modifies `bufs, `disk, `trail, `next, `prev, `order
      ensures Shape() && disk == Install(old(disk), start, n)
      ensures trail == old(trail) + InstallStates(old(disk), start, n)
      ensures InstallInv(bufs, disk, start, Lh(), n, pinned) && NoneTaken(old(bufs), bufs)
    {
      hide Ring, All, InstallInv;
      ghost var disk0, lh := disk, Lh();
      var tail := 0;
      while tail < n
        invariant Shape() && tail <= n && Lh() == lh
        invariant disk == Install(disk0, start, tail)
        invariant trail == old(trail) + InstallStates(disk0, start, tail)
        invariant InstallInv(bufs, disk, start, lh, tail, pinned) && NoneTaken(old(bufs), bufs)
      {
        InstallOne(tail, pinned);
        tail := tail + 1;
      }
    }

    /** Read the log header from disk into memory. */
    method ReadHead() returns (ghost b: nat)
      requires Shape() && WellFormed(disk, start)
      requires Coherent(bufs, disk, start, [], 0) && CanRead(bufs, start)
      modifies `bufs, `disk, `trail, `next, `prev, `order, `n, `sector
      ensures Shape() && disk == old(disk) && trail == old(trail)
      ensures n == Count(disk[start]) && forall i :: 0 <= i < n ==> sector[i] == Entry(disk[start], i)
      ensures Coherent(bufs, disk, start, [], 0) && Touched(old(bufs), bufs, b)
    {
      hide Ring, All, Coherent;
      ghost var bufs0 := bufs;
      Basics(bufs, disk, start, [], 0);
      var r := Bread(start);
      PeekKeeps(bufs0, bufs, disk, start, [], 0, start, r.b);
      n, sector := TakeHeader(bufs[r.b].data, sector);
      Brelse(r.b);
      b := r.b;
    }

    /** The three statements that end both a commit and a recovery: install, forget, clear. */
    method InstallAndClear(ghost pinned: bool)
      requires Shape() && WellFormed(disk, start) && Count(disk[start]) == n
      requires forall i :: 0 <= i < n ==> Entry(disk[start], i) == sector[i]
      requires InstallInv(bufs, disk, start, Lh(), 0, pinned)
      modifies `bufs, `disk, `trail, `next, `prev, `order, `n
      ensures Shape() && n == 0 && Coherent(bufs, disk, start, [], 0) && NoneTaken(old(bufs), bufs)
      ensures disk == Recover(old(disk), start)
      ensures trail == old(trail) + RecoveryStates(old(disk), start)
    {
      hide Ring, All, Coherent, InstallInv;
      ghost var lh := Lh();
      InstallTrans(pinned);
      InstallDone(bufs, disk, start, lh, pinned);
      n := 0;
      assert Lh() == [];
      ghost var b := WriteHead(0);
    }

    /** Install whatever transaction the log holds, then clear it. */
    method RecoverFromLog()
      requires Shape() && WellFormed(disk, start)
      requires Coherent(bufs, disk, start, [], 0) && forall i :: 0 <= i < NBUF ==> !bufs[i].busy
      modifies `bufs, `disk, `trail, `next, `prev, `order, `n, `sector
      ensures Shape() && n == 0 && Coherent(bufs, disk, start, [], 0) && NoneTaken(old(bufs), bufs)
      ensures disk == Recover(old(disk), start)
      ensures trail == old(trail) + RecoveryStates(old(disk), start)
    {
      hide Ring, All, Coherent, InstallInv, Recover;
      ColdReadable(bufs, disk, start);
      ghost var bufs0 := bufs;
      ghost var b := ReadHead();
      AdoptInstall(bufs0, bufs, disk, start, Lh(), b);
      InstallAndClear(false);
    }

    /** `initlog` at boot: recover, after which transactions may begin. */
    method InitLog()
      requires Shape() && WellFormed(disk, start)
      requires forall i :: 0 <= i < NBUF ==> bufs[i].dev != ROOTDEV && !bufs[i].busy && !bufs[i].valid && !bufs[i].dirty
      modifies this
      ensures Valid() && !busy && n == 0 && NoneTaken(old(bufs), bufs)
      ensures disk == Recover(old(disk), start) && trail == old(trail) + RecoveryStates(old(disk), start)
      ensures forall k :: |old(trail)| <= k < |trail| ==> CrashedRecovery(old(disk), trail[k], start)
    {
      hide Ring, All, Coherent;
      ghost var disk0 := disk;
      ColdCache(bufs, disk, start);
      RecoveryTrail(disk, start, Home(Recover(disk, start), start));
      RecoverFromLog();
      busy, mark := false, |trail| - 1;
      ClearHeaderRecovers(disk, start);
    }

    /** `bread` between log operations: the latest contents, logged or not. */
    method Read(s: uint) returns (r: BgetResult)
      requires Valid() && s < |disk|
      modifies `bufs, `disk, `trail
      ensures Valid() && disk == old(disk) && trail == old(trail) && Pending() == old(Pending())
      ensures r.Ready? <==> old(CanRead(bufs, s))
      ensures !r.Ready? ==> bufs == old(bufs)
      ensures r.Ready? ==> ReadStep(old(bufs), bufs, disk, s, r.b) && bufs[r.b].data == View(old(bufs), disk, s)
    {
      hide Coherent, Ring, All, Recover, WellFormed, Logged;
      ghost var bufs0 := bufs;
      Basics(bufs, disk, start, Lh(), 0);
      r := Bread(s);
      if r.Ready? {
        ReadKeeps(bufs0, bufs, disk, start, Lh(), 0, s, r.b);
      }
    }

    /** `brelse` of a buffer its holder has logged, written or left alone. */
    method Release(b: nat)
      requires Valid() && b < NBUF && bufs[b].busy && bufs[b].dev == ROOTDEV
      requires Settled(bufs[b], disk, start, Lh(), 0)
      modifies `bufs, `next, `prev, `order
      ensures Valid() && bufs == old(bufs[b := bufs[b].(busy := false)]) && Pending() == old(Pending())
    {
      hide Coherent, Ring, All, Recover, WellFormed, Logged;
      ReleaseKeeps(bufs, disk, start, Lh(), 0, b);
      Brelse(b);
    }

    /** The holder of a buffer changes its data. */
    method Modify(b: nat, x: Sector)
      requires Valid() && b < NBUF && bufs[b].busy
      modifies `bufs
      ensures Valid() && bufs == old(bufs)[b := old(bufs)[b].(data := x)]
      ensures Pending() == old(Pending())
    {
      hide Coherent, Ring, All, Recover, WellFormed, Logged;
      ModifyKeeps(bufs, disk, start, Lh(), 0, b, x);
      bufs := bufs[b := bufs[b].(data := x)];
    }

    method BeginTrans() returns (ok: bool)
      requires Valid()
      modifies `busy, `mark
      ensures Valid() && ok == !old(busy) && busy
      ensures ok ==> mark == |trail| - 1 && Pending() == map[]
    {
      if busy { return false; }
      busy := true;
      mark := |trail| - 1;
      return true;
    }

    /** Append b's data to the log in memory and on disk, absorbing a repeated sector. */
    method LogWrite(b: nat) returns (r: LogResult, ghost l: nat)
      requires Valid() && b < NBUF && bufs[b].busy && bufs[b].valid && bufs[b].sector < start
      requires forall i :: 0 <= i < NBUF && bufs[i].busy ==> bufs[i].sector < start
      modifies `bufs, `disk, `trail, `next, `prev, `order, `n, `sector
      ensures Valid()
      ensures r == TooBig <==> old(n) >= LOGSIZE || old(n) >= |old(disk)| - start - 1
      ensures r == OutsideTrans <==> r != TooBig && !old(busy)
      ensures r == Blocked ==> !old(Spare(bufs))
      // with at most eight sectors logged, and nothing held but b and logged buffers, there is a buffer
      ensures old(n <= NBUF - 2 && OnlyPinned(bufs, {b})) ==> r != Blocked
      ensures |disk| == |old(disk)| && Home(disk, start) == old(Home(disk, start))
      ensures r != Done ==> Pending() == old(Pending()) && bufs == old(bufs) && trail == old(trail)
      ensures r == Done ==> Pending() == old(Pending()[bufs[b].sector := bufs[b].data])
      ensures r == Done ==> trail == old(trail) + [disk]
      ensures r == Done ==> LogWritten(old(bufs), bufs, disk, start, Lh(), b, l)
    {
      hide Coherent, Ring, All, Logged, Recover, WellFormed;
      if n >= LOGSIZE || n >= |disk| - start - 1 { return TooBig, 0; }
      if !busy { return OutsideTrans, 0; }
      if n <= NBUF - 2 && OnlyPinned(bufs, {b}) { PinningFits(bufs, disk, start, Lh(), {b}); }
      var i := FindSlot(n, sector, bufs[b].sector);
      ghost var lh := Lh();
      assert i == n ==> lh[..i] == lh;
      LogStepMeaning(bufs, disk, start, lh, b, i);
      r, l := LogBlock(b, i);
    }

    /** The part of `log_write` after the search: write log block i, grow the list, pin b. */
    method LogBlock(b: nat, i: nat) returns (r: LogResult, ghost l: nat)
      requires Shape() && n < LOGSIZE && SlotFor(bufs, disk, start, Lh(), b, i)
      requires forall i :: 0 <= i < NBUF && bufs[i].busy ==> bufs[i].sector < start
      modifies `bufs, `disk, `trail, `next, `prev, `order, `n, `sector
      ensures Shape() && (r == Done || r == Blocked)
      ensures r == Blocked ==>
        !old(Spare(bufs)) && bufs == old(bufs) && disk == old(disk) && trail == old(trail) && Lh() == old(Lh())
      ensures r == Done ==> disk == old(disk)[start + 1 + i := old(bufs)[b].data] && trail == old(trail) + [disk]
      ensures r == Done ==> Lh() == LhAfter(old(Lh()), i, old(bufs)[b].sector)
      ensures r == Done ==> LogWritten(old(bufs), bufs, disk, start, Lh(), b, l)
    {
      hide Coherent, Ring, All, Settled;
      ghost var bufs0, disk0, lh := bufs, disk, Lh();
      sector := sector[i := bufs[b].sector];
      LogCanRead(bufs, start, i);
      Basics(bufs, disk, start, lh, 0);
      var lbuf := Bread(start + i + 1);
      if !lbuf.Ready? { return Blocked, 0; }
      LogStepCache(bufs0, bufs, disk0, start, lh, b, lbuf.b, i);
      FlushLogBlock(b, lbuf.b);
      if i == n { n := n + 1; }
      assert Lh() == LhAfter(lh, i, bufs0[b].sector);
      return Done, lbuf.b;
    }

    method FlushLogBlock(b: nat, l: nat)
      requires Shape() && b < NBUF && l < NBUF && b != l
      requires bufs[l].busy && bufs[l].dev == ROOTDEV && bufs[l].sector < |disk|
      modifies `bufs, `disk, `trail, `next, `prev, `order
      ensures Shape() && disk == old(disk)[old(bufs)[l].sector := old(bufs)[b].data]
      ensures trail == old(trail) + [disk]
      ensures bufs == BufsAfter(old(bufs), b, l)
    {
      bufs := bufs[l := bufs[l].(data := bufs[b].data)];
      Bwrite(l);
      Brelse(l);
      bufs := bufs[b := bufs[b].(dirty := true)];
    }

    /** Commit: write the header, install, clear the header.  Every crash point up to now
        recovers to the old home area; every one from the header write on recovers to it
        with all logged sectors replaced.  Needs one buffer to recycle, which there is if the logged
        sectors and the buffers held are fewer than all buffers. */
    method CommitTrans()
      requires Valid()
      requires n > 0 ==> LogFree(bufs, start, Lh()) && (Spare(bufs) || n + |BusySet(bufs)| < NBUF)
      modifies this
      ensures Valid() && !busy && n == 0 && |disk| == |old(disk)| && NoneTaken(old(bufs), bufs)
      ensures Home(disk, start) == Overlay(old(Home(disk, start)), old(Pending()))
      ensures old(trail) <= trail && (old(n) == 0 ==> trail == old(trail))
      ensures forall k :: old(mark) <= k < |old(trail)| ==> RecoversTo(trail[k], start, old(Home(disk, start)))
      ensures forall k :: |old(trail)| <= k < |trail| ==> RecoversTo(trail[k], start, Home(disk, start))
    {
      hide Coherent, Ring, All, Recover, WellFormed, Logged, InstallInv, HeaderWith;
      ghost var home', disk0, lh, trail0 := Overlay(Home(disk, start), Pending()), disk, Lh(), trail;
      HeaderBlocks(bufs, disk, start, lh);
      EmptyCommit(disk, start, lh);
      if n > 0 {
        if !Spare(bufs) { PinningFits(bufs, disk, start, lh, BusySet(bufs)); }
        CommitReadable(bufs, start, lh);
        ghost var bufs0 := bufs;
        ghost var b := WriteHead(0);
        HeaderCommits(disk0, start, lh);
        ghost var disk1 := disk;
        CommitInstall(bufs0, bufs, disk1, start, lh, b);
        HeaderReads(disk0, disk1, start, lh);
        RecoveryTrail(disk1, start, home');
        InstallAndClear(true);
        assert trail == trail0 + [disk1] + RecoveryStates(disk1, start);
        assert Lh() == [];
        mark := |trail| - 1;
      }
      busy := false;
    }
  }
}
