/** The buffer cache's data (bio.c): buffers, the circular most-recently-used
    list threaded through them, and what the cache owes the disk. */
module BufferCache {
  import opened Sectors
  import opened DiskLog

  const NBUF := 10
  const HEAD := NBUF          // bcache.head, as an index beside the buffers
  const ROOTDEV := 1

  datatype Buf = Buf(dev: int, sector: uint, busy: bool, valid: bool, dirty: bool, data: Sector)

  // ---------- the doubly linked list ----------

  /** The k-th node of the ring: the head, then the buffers, then the head again. */
  function At(order: seq<nat>, k: nat): nat
    requires k <= |order| + 1
  {
    if k == 0 || k == |order| + 1 then HEAD else order[k - 1]
  }

  /** `next` and `prev` link the head through `order` (most recently used first) and back. */
  predicate Ring(next: seq<nat>, prev: seq<nat>, order: seq<nat>)
  {
    && |next| == |prev| == NBUF + 1
    && (forall k :: 0 <= k < |order| ==> order[k] < NBUF)
    && (forall j, k :: 0 <= j < k < |order| ==> order[j] != order[k])
    && (forall k: nat :: k <= |order| ==> next[At(order, k)] == At(order, k + 1))
    && (forall k: nat :: k <= |order| ==> prev[At(order, k + 1)] == At(order, k))
  }

  /** All NBUF buffers are on the list; with distinctness, it is a permutation of them. */
  predicate All(order: seq<nat>)
  {
    |order| == NBUF && forall i: nat :: i < NBUF ==> i in order
  }

  /** The list without its k-th buffer. */
  function Without(order: seq<nat>, k: nat): seq<nat>
    requires k < |order|
  {
    order[..k] + order[k + 1..]
  }

  lemma UnlinkRing(next: seq<nat>, prev: seq<nat>, order: seq<nat>, k: nat)
    requires Ring(next, prev, order) && k < |order|
    ensures var b := order[k];
            && next[b] <= NBUF && prev[b] <= NBUF
            && Ring(next[prev[b] := next[b]], prev[next[b] := prev[b]], Without(order, k))
  {
    var b := order[k];
    var o := Without(order, k);
    assert At(order, k + 1) == b;
    assert prev[b] == At(order, k) && next[b] == At(order, k + 2);
    var next', prev' := next[prev[b] := next[b]], prev[next[b] := prev[b]];
    forall j: nat | j <= |o| ensures next'[At(o, j)] == At(o, j + 1) && prev'[At(o, j + 1)] == At(o, j) {
      if j < k {
        assert At(o, j) == At(order, j) && At(o, j + 1) == At(order, j + 1);
      } else if j == k {
        assert At(o, j) == At(order, j) && At(o, j + 1) == At(order, j + 2);
      } else {
        assert At(o, j) == At(order, j + 1) && At(o, j + 1) == At(order, j + 2);
      }
    }
  }

  lemma PushRing(next: seq<nat>, prev: seq<nat>, order: seq<nat>, b: nat)
    requires Ring(next, prev, order) && b < NBUF && b !in order
    ensures next[HEAD] <= NBUF
    ensures Ring(next[b := next[HEAD]][HEAD := b], prev[b := HEAD][next[HEAD] := b], [b] + order)
  {
    var o := [b] + order;
    var h := next[HEAD];
    assert At(order, 0) == HEAD && h == At(order, 1);
    var next', prev' := next[b := h][HEAD := b], prev[b := HEAD][h := b];
    forall j: nat | j <= |o| ensures next'[At(o, j)] == At(o, j + 1) && prev'[At(o, j + 1)] == At(o, j) {
      if j > 0 {
        assert At(o, j + 1) == At(order, j);
        if j > 1 {
          assert At(o, j) == At(order, j - 1);
        }
      }
    }
  }

  lemma RingSize(next: seq<nat>, prev: seq<nat>, order: seq<nat>)
    requires Ring(next, prev, order)
    ensures |next| == |prev| == NBUF + 1
  {
  }

  lemma PlaceOf(order: seq<nat>, b: nat) returns (k: nat)
    requires All(order) && b < NBUF
    ensures k < |order| == NBUF && order[k] == b
  {
    assert b in order;
    k :| k < |order| && order[k] == b;
  }

  lemma GoneFrom(next: seq<nat>, prev: seq<nat>, order: seq<nat>, k: nat)
    requires Ring(next, prev, order) && k < |order|
    ensures order[k] !in Without(order, k)
  {
  }

  /** The list with its k-th buffer moved to the front. */
  function ToFront(order: seq<nat>, k: nat): seq<nat>
    requires k < |order|
  {
    [order[k]] + Without(order, k)
  }

  lemma ToFrontAll(order: seq<nat>, k: nat)
    requires All(order) && k < |order|
    ensures All(ToFront(order, k))
  {
    var o := ToFront(order, k);
    forall i: nat | i < NBUF ensures i in o {
      assert i in order;
      var j :| 0 <= j < |order| && order[j] == i;
      if j < k { assert o[j + 1] == i; } else if j == k { assert o[0] == i; } else { assert o[j] == i; }
    }
  }

  // ---------- agreement with the disk ----------

  predicate Holds(b: Buf, s: nat)
  {
    b.dev == ROOTDEV && b.sector == s
  }

  /** The sectors `lh` logged so far in this transaction; log block k is sector start+1+k. */
  predicate LogFits(disk: Disk, start: nat, lh: seq<uint>)
  {
    && start + |lh| < |disk|
    && Distinct(lh)
    && forall k :: 0 <= k < |lh| ==> lh[k] < start
  }

  /** A released buffer: clean and equal to its disk sector, or dirty and equal to the
      latest log block of a logged, not yet installed (index at least `from`) sector. */
  predicate Settled(b: Buf, disk: Disk, start: nat, lh: seq<uint>, from: nat)
    requires LogFits(disk, start, lh) && b.sector < |disk|
  {
    b.valid &&
    if b.dirty then exists k :: from <= k < |lh| && lh[k] == b.sector && b.data == disk[start + 1 + k]
    else b.data == disk[b.sector]
  }

  /** The cache agrees with the disk and the log; entries of `lh` below `from` are installed. */
  predicate Coherent(bufs: seq<Buf>, disk: Disk, start: nat, lh: seq<uint>, from: nat)
  {
    && |bufs| == NBUF && LogFits(disk, start, lh)
    // buffers not yet assigned
    && (forall i :: 0 <= i < NBUF && bufs[i].dev != ROOTDEV ==> !bufs[i].busy && !bufs[i].valid && !bufs[i].dirty)
    && (forall i :: 0 <= i < NBUF && bufs[i].dev == ROOTDEV ==> bufs[i].sector < |disk|)
    // one buffer per sector
    && OneEach(bufs)
    // released buffers
    && (forall i :: 0 <= i < NBUF && bufs[i].valid && !bufs[i].busy ==> Settled(bufs[i], disk, start, lh, from))
    // dirty exactly when logged and not yet installed
    && (forall i ::
       0 <= i < NBUF && bufs[i].dirty ==> bufs[i].valid && bufs[i].sector in lh[if from < |lh| then from else |lh|..])
    && (forall k :: from <= k < |lh| ==> Pinned(bufs, lh[k]))
  }

  /** No two assigned buffers hold the same sector. */
  predicate OneEach(bufs: seq<Buf>)
  {
    forall i, j :: 0 <= i < j < |bufs| && bufs[i].dev == bufs[j].dev == ROOTDEV ==> bufs[i].sector != bufs[j].sector
  }

  /** Some buffer keeps sector s in the cache, marked dirty. */
  predicate Pinned(bufs: seq<Buf>, s: nat)
  {
    exists i :: 0 <= i < |bufs| && Holds(bufs[i], s) && bufs[i].dirty
  }

  predicate Cached(bufs: seq<Buf>, s: nat)
  {
    exists i :: 0 <= i < |bufs| && Holds(bufs[i], s)
  }

  /** A buffer that `bget` may recycle. */
  predicate Spare(bufs: seq<Buf>)
  {
    exists i :: 0 <= i < |bufs| && !bufs[i].busy && !bufs[i].dirty
  }

  /** The contents of sector s as `bread` would deliver them. */
  ghost function View(bufs: seq<Buf>, disk: Disk, s: nat): Sector
    requires s < |disk|
  {
    if exists i :: 0 <= i < |bufs| && Holds(bufs[i], s) && bufs[i].valid then
      var i :| 0 <= i < |bufs| && Holds(bufs[i], s) && bufs[i].valid; bufs[i].data
    else disk[s]
  }

  // ---------- what each operation does to the buffers ----------

  /** `bread` of sector s delivered buffer b, found in the cache or recycled. */
  predicate ReadStep(bufs: seq<Buf>, bufs': seq<Buf>, disk: Disk, s: nat, b: nat)
    requires s < |disk|
  {
    && |bufs| == |bufs'| && b < |bufs|
    && bufs' == bufs[b := bufs'[b]]
    && Holds(bufs'[b], s) && bufs'[b].busy && bufs'[b].valid && bufs'[b].dirty == bufs[b].dirty
    && !bufs[b].busy
    && if Holds(bufs[b], s) && bufs[b].valid then bufs'[b].data == bufs[b].data
       else bufs'[b].data == disk[s] && (Holds(bufs[b], s) || (!Cached(bufs, s) && !bufs[b].dirty))
  }

  /** The consequences of coherence that the operations themselves rely on. */
  lemma Basics(bufs: seq<Buf>, disk: Disk, start: nat, lh: seq<uint>, from: nat)
    requires Coherent(bufs, disk, start, lh, from)
    ensures |bufs| == NBUF && OneEach(bufs) && start + |lh| < |disk|
    ensures forall i :: 0 <= i < NBUF && bufs[i].dirty ==> bufs[i].valid
    ensures forall i :: 0 <= i < NBUF && bufs[i].valid ==> bufs[i].dev == ROOTDEV && bufs[i].sector < |disk|
  {
  }

  lemma PinsKept(bufs: seq<Buf>, bufs': seq<Buf>, lh: seq<uint>, from: nat)
    requires |bufs| == |bufs'|
    requires forall i :: 0 <= i < |bufs| && bufs[i].dirty && bufs[i].sector in lh[if from < |lh| then from else |lh|..]
                         ==> bufs'[i].dirty && bufs'[i].dev == bufs[i].dev && bufs'[i].sector == bufs[i].sector
    requires forall k :: from <= k < |lh| ==> Pinned(bufs, lh[k])
    ensures forall k :: from <= k < |lh| ==> Pinned(bufs', lh[k])
  {
    forall k | from <= k < |lh| ensures Pinned(bufs', lh[k]) {
      var i :| 0 <= i < |bufs| && Holds(bufs[i], lh[k]) && bufs[i].dirty;
      assert lh[from..][k - from] == lh[k];
      assert Holds(bufs'[i], lh[k]) && bufs'[i].dirty;
    }
  }

  lemma ReadKeeps(bufs: seq<Buf>, bufs': seq<Buf>, disk: Disk, start: nat, lh: seq<uint>, from: nat, s: nat, b: nat)
    requires Coherent(bufs, disk, start, lh, from) && s < |disk| && ReadStep(bufs, bufs', disk, s, b)
    ensures Coherent(bufs', disk, start, lh, from)
    ensures Settled(bufs'[b], disk, start, lh, from)
    ensures bufs'[b].data == View(bufs, disk, s)
  {
    PinsKept(bufs, bufs', lh, from);
  }

  lemma ReleaseKeeps(bufs: seq<Buf>, disk: Disk, start: nat, lh: seq<uint>, from: nat, b: nat)
    requires Coherent(bufs, disk, start, lh, from) && b < NBUF && bufs[b].dev == ROOTDEV
    requires Settled(bufs[b], disk, start, lh, from)
    ensures Coherent(bufs[b := bufs[b].(busy := false)], disk, start, lh, from)
  {
    var bufs' := bufs[b := bufs[b].(busy := false)];
    PinsKept(bufs, bufs', lh, from);
  }

  /** The holder of a busy buffer may change its data. */
  lemma ModifyKeeps(bufs: seq<Buf>, disk: Disk, start: nat, lh: seq<uint>, from: nat, b: nat, x: Sector)
    requires Coherent(bufs, disk, start, lh, from) && b < NBUF && bufs[b].busy
    ensures Coherent(bufs[b := bufs[b].(data := x)], disk, start, lh, from)
  {
    var bufs' := bufs[b := bufs[b].(data := x)];
    PinsKept(bufs, bufs', lh, from);
  }

  /** The buffers after `bwrite(b)`. */
  function Written(bufs: seq<Buf>, b: nat): seq<Buf>
    requires b < |bufs|
  {
    bufs[b := bufs[b].(dirty := false, valid := true)]
  }

  /** Writing a clean buffer, unless it is the log block of a released dirty buffer. */
  lemma WriteCleanKeeps(bufs: seq<Buf>, disk: Disk, start: nat, lh: seq<uint>, from: nat, b: nat)
    requires Coherent(bufs, disk, start, lh, from) && b < NBUF && bufs[b].busy && !bufs[b].dirty
    requires forall i, k :: (0 <= i < NBUF && from <= k < |lh| && bufs[b].sector == start + 1 + k
                             && Holds(bufs[i], lh[k])) ==> bufs[i].busy
    ensures Coherent(Written(bufs, b), disk[bufs[b].sector := bufs[b].data], start, lh, from)
    ensures Settled(Written(bufs, b)[b], disk[bufs[b].sector := bufs[b].data], start, lh, from)
  {
    var bufs', disk' := Written(bufs, b), disk[bufs[b].sector := bufs[b].data];
    forall i | 0 <= i < NBUF && bufs'[i].valid && !bufs'[i].busy
      ensures Settled(bufs'[i], disk', start, lh, from)
    {
      assert Settled(bufs[i], disk, start, lh, from);
    }
    PinsKept(bufs, bufs', lh, from);
  }

  /** Buffer b after its holder stored x in it, wrote it and released it. */
  function Stored(bufs: seq<Buf>, b: nat, x: Sector): seq<Buf>
    requires b < |bufs|
  {
    bufs[b := bufs[b].(data := x, dirty := false, valid := true, busy := false)]
  }

  /** Read a log-area sector, overwrite it, write it back, release it. */
  lemma StoreKeeps(bufs: seq<Buf>, bufs': seq<Buf>, disk: Disk, start: nat, lh: seq<uint>, from: nat,
                   s: nat, b: nat, x: Sector)
    requires Coherent(bufs, disk, start, lh, from) && start <= s < |disk| && ReadStep(bufs, bufs', disk, s, b)
    requires forall i, k :: (0 <= i < NBUF && from <= k < |lh| && s == start + 1 + k
                             && Holds(bufs[i], lh[k])) ==> bufs[i].busy
    ensures bufs'[b].data == disk[s] && !bufs[b].dirty
    ensures Coherent(Stored(bufs', b, x), disk[s := x], start, lh, from)
  {
    ReadKeeps(bufs, bufs', disk, start, lh, from, s, b);
    var bufs2 := bufs'[b := bufs'[b].(data := x)];
    ModifyKeeps(bufs', disk, start, lh, from, b, x);
    assert !bufs2[b].dirty;
    WriteCleanKeeps(bufs2, disk, start, lh, from, b);
    ReleaseKeeps(Written(bufs2, b), disk[s := x], start, lh, from, b);
    assert Written(bufs2, b)[b := Written(bufs2, b)[b].(busy := false)] == Stored(bufs', b, x);
  }

  /** A released buffer of another sector is settled after entry `from` is installed. */
  lemma HomeSettled(c: Buf, disk: Disk, start: nat, lh: seq<uint>, from: nat, x: Sector)
    requires LogFits(disk, start, lh) && from < |lh| && c.sector < |disk| && c.sector != lh[from]
    requires Settled(c, disk, start, lh, from)
    ensures LogFits(disk[lh[from] := x], start, lh) && Settled(c, disk[lh[from] := x], start, lh, from + 1)
  {
  }

  /** Installing entry `from` unpins its buffer. */
  lemma WriteHomeKeeps(bufs: seq<Buf>, disk: Disk, start: nat, lh: seq<uint>, from: nat, b: nat)
    requires Coherent(bufs, disk, start, lh, from) && b < NBUF && bufs[b].busy
    requires from < |lh| && Holds(bufs[b], lh[from])
    ensures Coherent(Written(bufs, b), disk[bufs[b].sector := bufs[b].data], start, lh, from + 1)
    ensures Settled(Written(bufs, b)[b], disk[bufs[b].sector := bufs[b].data], start, lh, from + 1)
  {
    var bufs', disk' := Written(bufs, b), disk[bufs[b].sector := bufs[b].data];
    assert Settled(bufs'[b], disk', start, lh, from + 1);
    hide Settled;
    forall i | 0 <= i < NBUF && bufs'[i].dirty ensures bufs'[i].sector in lh[from + 1..] {
      assert bufs[i].sector in lh[from..];
      assert lh[from..] == [lh[from]] + lh[from + 1..];
      assert bufs[i].sector != lh[from];
    }
    forall i | 0 <= i < NBUF && bufs'[i].valid && !bufs'[i].busy
      ensures Settled(bufs'[i], disk', start, lh, from + 1)
    {
      HomeSettled(bufs[i], disk, start, lh, from, bufs[b].data);
    }
    PinsKept(bufs, bufs', lh, from + 1);
  }

  /** The buffers after one iteration of `install_trans` copied l's data to d. */
  function Installed(bufs: seq<Buf>, l: nat, d: nat): seq<Buf>
    requires l < |bufs| && d < |bufs|
  {
    Stored(bufs, d, bufs[l].data)[l := bufs[l].(busy := false)]
  }

  /** One iteration of `install_trans` on entry t, whose home buffer is either still pinned
      (commit) or, after a crash, clean like all others (recovery). */
  lemma InstallKeeps(bufs: seq<Buf>, bufs1: seq<Buf>, bufs2: seq<Buf>, disk: Disk, start: nat, lh: seq<uint>,
                     from: nat, t: nat, l: nat, d: nat)
    requires Coherent(bufs, disk, start, lh, from) && t < |lh| && (from == t || from == |lh|)
    requires ReadStep(bufs, bufs1, disk, start + 1 + t, l)
    requires ReadStep(bufs1, bufs2, disk, lh[t], d)
    ensures l != d && bufs2[l].data == disk[start + 1 + t]
    ensures Coherent(Installed(bufs2, l, d), disk[lh[t] := disk[start + 1 + t]], start, lh,
                     if from == t then from + 1 else from)
  {
    hide Settled, OneEach, Pinned;
    ReadKeeps(bufs, bufs1, disk, start, lh, from, start + 1 + t, l);
    ReadKeeps(bufs1, bufs2, disk, start, lh, from, lh[t], d);
    assert !bufs2[l].dirty;
    var bufs3 := bufs2[d := bufs2[d].(data := bufs2[l].data)];
    ModifyKeeps(bufs2, disk, start, lh, from, d, bufs2[l].data);
    var from' := if from == t then from + 1 else from;
    if from == t {
      WriteHomeKeeps(bufs3, disk, start, lh, from, d);
    } else {
      NoneDirty(bufs3, disk, start, lh);
      WriteCleanKeeps(bufs3, disk, start, lh, from, d);
    }
    var bufs4, disk' := Written(bufs3, d), disk[lh[t] := disk[start + 1 + t]];
    ReleaseKeeps(bufs4, disk', start, lh, from', d);
    var bufs5 := bufs4[d := bufs4[d].(busy := false)];
    ReleaseKeeps(bufs5, disk', start, lh, from', l);
    assert bufs5[l := bufs5[l].(busy := false)] == Installed(bufs2, l, d);
  }

  lemma NoneDirty(bufs: seq<Buf>, disk: Disk, start: nat, lh: seq<uint>)
    requires Coherent(bufs, disk, start, lh, |lh|)
    ensures forall i :: 0 <= i < NBUF ==> !bufs[i].dirty
  {
    assert lh[|lh|..] == [];
  }

  /** `log_write` has put b's data in log block k again; b stays dirty. */
  lemma RepinKeeps(bufs: seq<Buf>, disk: Disk, start: nat, lh: seq<uint>, b: nat, k: nat)
    requires Coherent(bufs, disk, start, lh, 0) && b < NBUF && bufs[b].busy && bufs[b].valid
    requires bufs[b].dev == ROOTDEV && k < |lh| && lh[k] == bufs[b].sector
    requires disk[start + 1 + k] == bufs[b].data
    ensures bufs[b].dirty
    ensures Settled(bufs[b], disk, start, lh, 0)
  {
    assert Pinned(bufs, lh[k]);
    var i :| 0 <= i < NBUF && Holds(bufs[i], lh[k]) && bufs[i].dirty;
    assert i == b;
  }

  /** `log_write` has put b's data in a new log block; marking b dirty pins it. */
  lemma PinKeeps(bufs: seq<Buf>, disk: Disk, start: nat, lh: seq<uint>, b: nat)
    requires Coherent(bufs, disk, start, lh, 0) && b < NBUF && bufs[b].busy && bufs[b].valid
    requires bufs[b].dev == ROOTDEV && bufs[b].sector < start && start + 1 + |lh| < |disk|
    requires bufs[b].sector !in lh
    requires disk[start + 1 + |lh|] == bufs[b].data
    ensures Coherent(bufs[b := bufs[b].(dirty := true)], disk, start, lh + [bufs[b].sector], 0)
    ensures Settled(bufs[b].(dirty := true), disk, start, lh + [bufs[b].sector], 0)
  {
    var lh', bufs' := lh + [bufs[b].sector], bufs[b := bufs[b].(dirty := true)];
    assert lh'[0..] == lh' && lh[0..] == lh;
    forall i | 0 <= i < NBUF && bufs'[i].valid && !bufs'[i].busy
      ensures Settled(bufs'[i], disk, start, lh', 0)
    {
      LonelySettled(bufs[i], disk, start, lh, bufs[b].sector);
    }
    PinsKept(bufs, bufs', lh, 0);
    forall j | 0 <= j < |lh'| ensures Pinned(bufs', lh'[j]) {
      if j < |lh| {
        assert Pinned(bufs', lh[j]);
      } else {
        assert Holds(bufs'[b], lh'[j]) && bufs'[b].dirty;
      }
    }
    assert lh'[|lh|] == bufs[b].sector;
  }

  lemma LonelySettled(b: Buf, disk: Disk, start: nat, lh: seq<uint>, s: uint)
    requires LogFits(disk, start, lh) && LogFits(disk, start, lh + [s]) && b.sector < |disk|
    requires Settled(b, disk, start, lh, 0)
    ensures Settled(b, disk, start, lh + [s], 0)
  {
    if b.dirty {
      var j :| 0 <= j < |lh| && lh[j] == b.sector && b.data == disk[start + 1 + j];
      assert (lh + [s])[j] == b.sector;
    }
  }

  /** With everything installed the logged list may be forgotten. */
  lemma ForgetKeeps(bufs: seq<Buf>, disk: Disk, start: nat, lh: seq<uint>)
    requires Coherent(bufs, disk, start, lh, |lh|)
    ensures Coherent(bufs, disk, start, [], 0)
  {
    NoneDirty(bufs, disk, start, lh);
    forall i | 0 <= i < NBUF && bufs[i].valid && !bufs[i].busy ensures Settled(bufs[i], disk, start, [], 0) {
      assert Settled(bufs[i], disk, start, lh, |lh|);
    }
  }

  /** With nothing dirty, a logged list read back from disk may be taken as installed. */
  lemma AdoptKeeps(bufs: seq<Buf>, disk: Disk, start: nat, lh: seq<uint>)
    requires Coherent(bufs, disk, start, [], 0) && LogFits(disk, start, lh)
    ensures Coherent(bufs, disk, start, lh, |lh|)
  {
    NoneDirty(bufs, disk, start, []);
    forall i | 0 <= i < NBUF && bufs[i].valid && !bufs[i].busy ensures Settled(bufs[i], disk, start, lh, |lh|) {
      assert Settled(bufs[i], disk, start, [], 0);
    }
  }

  /** `bread` then `brelse`, changing nothing. */
  lemma PeekKeeps(bufs: seq<Buf>, bufs': seq<Buf>, disk: Disk, start: nat, lh: seq<uint>, from: nat, s: nat, b: nat)
    requires Coherent(bufs, disk, start, lh, from) && s < |disk| && ReadStep(bufs, bufs', disk, s, b)
    ensures bufs'[b].data == View(bufs, disk, s)
    ensures Coherent(bufs'[b := bufs'[b].(busy := false)], disk, start, lh, from)
    ensures start <= s || from == |lh| ==> bufs'[b].data == disk[s] && !bufs'[b].dirty
  {
    ReadKeeps(bufs, bufs', disk, start, lh, from, s, b);
    ReleaseKeeps(bufs', disk, start, lh, from, b);
    if from == |lh| { NoneDirty(bufs, disk, start, lh); }
  }

  // ---------- pinning fits the cache ----------

  function DirtySet(bufs: seq<Buf>): set<nat>
  {
    set i: nat | i < |bufs| && bufs[i].dirty
  }

  function SectorsOf(bufs: seq<Buf>, ds: set<nat>): (r: set<nat>)
    requires forall i :: i in ds ==> i < |bufs|
  {
    set i | i in ds :: bufs[i].sector as nat
  }

  lemma {:induction false} DirtyInjects(bufs: seq<Buf>, ds: set<nat>)
    requires forall i :: i in ds ==> i < |bufs|
    requires forall i, j :: i in ds && j in ds && i != j ==> bufs[i].sector != bufs[j].sector
    ensures |SectorsOf(bufs, ds)| == |ds|
    decreases ds
  {
    if ds != {} {
      var i :| i in ds;
      DirtyInjects(bufs, ds - {i});
      assert SectorsOf(bufs, ds) == SectorsOf(bufs, ds - {i}) + {bufs[i].sector as nat};
    }
  }

  function Range(n: nat): (s: set<nat>)
    ensures |s| == n
    ensures forall i :: i in s <==> 0 <= i < n
  {
    if n == 0 then {} else Range(n - 1) + {n - 1}
  }

  lemma {:induction false} SeqSetSize(xs: seq<uint>, s: set<nat>)
    requires forall x :: x in s ==> x in xs
    ensures |s| <= |xs|
    decreases |xs|
  {
    if xs == [] {
      assert s == {};
    } else {
      var k := |xs| - 1;
      var t := s - {xs[k] as nat};
      forall x | x in t ensures x in xs[..k] { assert x in xs; }
      SeqSetSize(xs[..k], t);
      assert s <= t + {xs[k] as nat};
    }
  }

  /** Nobody holds a buffer that is neither pinned by the transaction nor in `held`. */
  predicate OnlyPinned(bufs: seq<Buf>, held: set<nat>)
  {
    forall i: nat :: i < |bufs| && bufs[i].busy ==> bufs[i].dirty || i in held
  }

  /** The buffers somebody holds. */
  function BusySet(bufs: seq<Buf>): set<nat> { set i: nat | i < |bufs| && bufs[i].busy }

  /** If the only unavailable buffers are those dirty in this transaction and those in
      `held`, and they are fewer than NBUF, then `bget` has something to recycle. */
  lemma PinningFits(bufs: seq<Buf>, disk: Disk, start: nat, lh: seq<uint>, held: set<nat>)
    requires Coherent(bufs, disk, start, lh, 0)
    requires OnlyPinned(bufs, held) && |lh| + |held| < NBUF
    ensures Spare(bufs)
  {
    var ds := DirtySet(bufs);
    DirtyInjects(bufs, ds);
    assert lh[0..] == lh;
    SeqSetSize(lh, SectorsOf(bufs, ds));
    if !Spare(bufs) {
      assert Range(NBUF) <= ds + held;
      CardLe(Range(NBUF), ds + held);
      assert false;
    }
  }
}
