/** The disk that mkfs.c starts from, and how full it can get. */
module Mkfs {
  import opened Sectors
  import opened FileIndex
  import opened FileBytes
  import opened Inodes

  /** A bitmap sector with the first n bits set: the loop of mkfs's `balloc`. */
  function Marked(n: nat): Sector
    requires n <= BPB
  {
    if n == 0 then Zero() else WithBit(Marked(n - 1), n - 1, true)
  }

  lemma {:induction false} NoBit(k: nat)
    ensures !BitOf(0, k)
  {
    if k > 0 { NoBit(k - 1); }
  }

  lemma {:induction false} MarkedBits(n: nat, k: nat)
    requires n <= BPB && k < BPB
    ensures Bit(Marked(n), k) <==> k < n
  {
    if n == 0 { NoBit(k % 8); } else { MarkedBits(n - 1, k); }
  }

  function Zeros(n: nat): (r: seq<Sector>)
    ensures |r| == n && forall b :: 0 <= b < n ==> r[b] == Zero()
  {
    if n == 0 then [] else Zeros(n - 1) + [Zero()]
  }

  /** The metadata fits the disk, and one bitmap sector, as mkfs asserts. */
  predicate Formattable(g: Super)
  {
    DataStart(g) < BPB && DataStart(g) <= g.size <= LIMIT
  }

  /** All zeros but for the bits of the metadata.  (The superblock is a constant of the model.) */
  function Formatted(g: Super): seq<Sector>
    requires Formattable(g)
  {
    Zeros(g.size)[BBlock(g, 0) := Marked(DataStart(g))]
  }

  lemma FormattedOwned(g: Super, inodes: map<nat, Inode>)
    requires Formattable(g) && forall i :: i in inodes ==> Bare(inodes[i])
    ensures Owned(g, Formatted(g), inodes, map[])
  {
    hide Addr, Bit, Zeros, Marked;
    var blocks := Formatted(g);
    forall i, s | i in inodes ensures Addr(blocks, inodes[i], s) == 0 { BareAddr(blocks, inodes[i], s); }
    forall b: nat | b < g.size ensures Used(g, blocks, b) <==> b < DataStart(g) {
      BitmapBelowData(g, b);
      MarkedBits(if b < BPB then DataStart(g) else 0, b % BPB);
      assert Zero() == Marked(0) by { MarkedZero(); }
    }
  }

  lemma MarkedZero()
    ensures Marked(0) == Zero()
  {
  }

  // ---------- filling the disk ----------

  const PLACES := 16654     // blocks of the longest file, index blocks included

  /** The slots of a file in the order in which a growing file fills them. */
  function Place(r: nat): Slot
    requires r < PLACES
  {
    if r < 12 then Direct(r)
    else if r == 12 then Ind
    else if r < 141 then IndEntry(r - 13)
    else if r == 141 then Dind
    else if (r - 142) % 129 == 0 then DindTable((r - 142) / 129)
    else DindEntry((r - 142) / 129, (r - 142) % 129 - 1)
  }

  function Order(s: Slot): nat
  {
    match s
    case Direct(k) => if k < 12 then k else PLACES
    case Ind => 12
    case IndEntry(k) => if k < 128 then 13 + k else PLACES
    case Dind => 141
    case DindTable(j) => if j < 128 then 142 + 129 * j else PLACES
    case DindEntry(j, k) => if j < 128 && k < 128 then 143 + 129 * j + k else PLACES
    case Tags => PLACES
  }

  lemma PlaceOrder(r: nat, s: Slot)
    requires r < PLACES
    ensures Order(s) == r <==> s == Place(r)
  {
    var q := r - 142;
    if r >= 142 {
      assert q == 129 * (q / 129) + q % 129;
      if s.DindTable? && s.j < 128 { Quotient(s.j, 0); }
      if s.DindEntry? && s.j < 128 && s.k < 128 { Quotient(s.j, s.k + 1); }
    }
  }

  lemma Quotient(j: nat, k: nat)
    requires k < 129
    ensures (129 * j + k) / 129 == j && (129 * j + k) % 129 == k
  {
  }

  /** The file has its first r places. */
  ghost predicate Filled(blocks: seq<Sector>, ino: Inode, r: nat)
  {
    forall s :: Addr(blocks, ino, s) != 0 <==> Order(s) < r
  }

  /** Inode i of d has its next place r filled with block x. */
  ghost predicate Extended(g: Super, d: Image, d': Image, i: nat, r: nat, x: nat)
    requires r < PLACES
  {
    && Owned(g, d'.blocks, d'.inodes, d'.own) && d'.own == d.own[x := File(i, Place(r))]
    && Extends(d.blocks, d.inodes, d.own, d'.blocks, d'.inodes, d'.own, i, {Place(r)})
    && i in d'.inodes && Addr(d'.blocks, d'.inodes[i], Place(r)) != 0
  }

  lemma OneMore(g: Super, d: Image, i: nat, r: nat, x: uint) returns (d': Image)
    requires Owned(g, d.blocks, d.inodes, d.own) && i in d.inodes && r < PLACES && Filled(d.blocks, d.inodes[i], r)
    requires x < g.size && !Used(g, d.blocks, x)
    ensures Extended(g, d, d', i, r, x)
  {
    hide Addr, Used, BBlock, Owned, Extends, Order;
    var s := Place(r);
    PlaceOrder(r, s);
    if r < 12 || r == 12 || r == 141 {
      var k := if r == 141 then 13 else r;
      TopAddr(d.blocks, d.inodes[i], k);
      GrowTop(g, d.blocks, d.inodes, d.own, i, k, x);
      d' := Image(Taken(g, d.blocks, x), d.inodes[i := WithAddr(d.inodes[i], k, x)], d.own[x := File(i, TopSlot(k))]);
    } else {
      var q := r - 142;
      var t := if r < 141 then Ind else if q % 129 == 0 then Dind else DindTable(q / 129);
      var k := if r < 141 then r - 13 else if q % 129 == 0 then q / 129 else q % 129 - 1;
      assert ChildSlot(t, k) == s;
      ParentFirst(r, t);
      var a := Addr(d.blocks, d.inodes[i], t);
      GrowEntry(g, d.blocks, d.inodes, d.own, i, t, k, a, x);
      d' := Image(Taken(g, d.blocks, x)[a := WithWords(d.blocks[a], k, [x])], d.inodes,
        d.own[x := File(i, ChildSlot(t, k))]);
    }
  }

  lemma TopAddr(blocks: seq<Sector>, ino: Inode, k: nat)
    requires k < NDIRECT + 2
    ensures Addr(blocks, ino, TopSlot(k)) == ino.addrs[k]
  {
  }

  /** The index block of place r has an earlier place. */
  lemma ParentFirst(r: nat, t: Slot)
    requires 12 < r < PLACES && r != 141
    requires t == if r < 141 then Ind else if (r - 142) % 129 == 0 then Dind else DindTable((r - 142) / 129)
    ensures Order(t) < r
  {
  }

  lemma FilledMore(g: Super, d: Image, d': Image, i: nat, r: nat, x: nat, j: nat, q: nat)
    requires r < PLACES && Extended(g, d, d', i, r, x) && j in d.inodes && Filled(d.blocks, d.inodes[j], q)
      && (j == i ==> q == r)
    ensures j in d'.inodes && Filled(d'.blocks, d'.inodes[j], if j == i then r + 1 else q)
  {
    hide Addr, Owned, Place, Order;
    forall s ensures Addr(d'.blocks, d'.inodes[j], s) != 0 <==> Order(s) < if j == i then r + 1 else q {
      assert SlotStep(d.blocks, d.inodes[j], d'.blocks, d'.inodes[j], s, j, i, {Place(r)});
      PlaceOrder(r, s);
    }
  }

  /** mkfs's disk: 32768 blocks, 200 inodes, data blocks from 62 on. */
  function XV6(): Super { Super(32768, 200) }

  /** Inodes 1 and 2 have their first r1 and r2 places, and the first data blocks are at them. */
  ghost predicate Holds(d: Image, r1: nat, r2: nat)
  {
    && Owned(XV6(), d.blocks, d.inodes, d.own) && d.inodes.Keys == {1, 2} && NoOrphans(d.own)
    && Filled(d.blocks, d.inodes[1], r1) && Filled(d.blocks, d.inodes[2], r2)
    && Spans(d.own, 62, 62 + r1 + r2)
  }

  ghost predicate Spans(own: map<nat, Owner>, a: nat, b: nat)
  {
    forall x :: x in own <==> a <= x < b
  }

  lemma SpansMore(own: map<nat, Owner>, a: nat, b: nat, i: nat, s: Slot)
    requires Spans(own, a, b) && NoOrphans(own) && a <= b
    ensures Spans(own[b := File(i, s)], a, b + 1) && NoOrphans(own[b := File(i, s)])
  {
  }

  lemma EmptyDisk() returns (d: Image)
    ensures Holds(d, 0, 0)
  {
    hide Addr, Used, BBlock, Owned;
    d := Image(Formatted(XV6()), map[1 := Fresh(2), 2 := Fresh(2)], map[]);
    FormattedOwned(XV6(), d.inodes);
    forall s ensures Addr(d.blocks, Fresh(2), s) == 0 { BareAddr(d.blocks, Fresh(2), s); }
  }

  lemma UsedUpTo(d: Image, r1: nat, r2: nat, b: nat)
    requires Holds(d, r1, r2) && b < 32768
    ensures Used(XV6(), d.blocks, b) <==> b < 62 + r1 + r2
  {
    hide Addr, Filled, Used;
    assert DataStart(XV6()) == 62;
  }

  lemma FillOne(e: Image, r1: nat, r2: nat, i: nat) returns (d: Image)
    requires Holds(e, r1, r2) && (i == 1 || i == 2) && 62 + r1 + r2 < 32768
    requires if i == 1 then r1 < PLACES else r2 < PLACES
    ensures Holds(d, if i == 1 then r1 + 1 else r1, if i == 1 then r2 else r2 + 1)
  {
    hide Addr, Used, BBlock, Owned, Extends, Order, Filled, Place, Spans, NoOrphans;
    var x: nat := 62 + r1 + r2;
    UsedUpTo(e, r1, r2, x);
    var r := if i == 1 then r1 else r2;
    d := OneMore(XV6(), e, i, r, x);
    FilledMore(XV6(), e, d, i, r, x, 1, r1);
    FilledMore(XV6(), e, d, i, r, x, 2, r2);
    KeysKept(XV6(), e, d, i, r, x);
    SpansMore(e.own, 62, x, i, Place(r));
  }

  lemma {:induction false} Fill(r1: nat, r2: nat) returns (d: Image)
    requires r1 <= PLACES && r2 <= PLACES && 62 + r1 + r2 <= 32768
    ensures Holds(d, r1, r2)
    decreases r1 + r2
  {
    hide Holds;
    if r2 > 0 {
      var e := Fill(r1, r2 - 1);
      d := FillOne(e, r1, r2 - 1, 2);
    } else if r1 > 0 {
      var e := Fill(r1 - 1, 0);
      d := FillOne(e, r1 - 1, 0, 1);
    } else {
      d := EmptyDisk();
    }
  }

  lemma KeysKept(g: Super, d: Image, d': Image, i: nat, r: nat, x: nat)
    requires r < PLACES && Extended(g, d, d', i, r, x)
    ensures d'.inodes.Keys == d.inodes.Keys
  {
  }

  // ---------- with sizes, and the inodes on disk ----------

  /** The file blocks among the first r places. */
  function DataFor(r: nat): nat
  {
    if r <= 12 then r
    else if r <= 141 then r - 1
    else if r == 142 then 140
    else 140 + (r - 142) / 129 * 128 + if (r - 142) % 129 == 0 then 0 else (r - 142) % 129 - 1
  }

  lemma DataPlaced(r: nat, k: nat)
    requires r <= PLACES && k < DataFor(r)
    ensures Order(SlotOf(k)) < r
  {
    if k >= 140 {
      var q := r - 142;
      assert q == 129 * (q / 129) + q % 129;
      assert k - 140 == 128 * ((k - 140) / 128) + (k - 140) % 128;
    }
  }

  lemma FilledMapped(blocks: seq<Sector>, ino: Inode, r: nat, z: nat)
    requires r <= PLACES && Filled(blocks, ino, r) && z <= DataFor(r) * BSIZE
    ensures MappedTo(blocks, ino, z)
  {
    hide Addr, Order, DataFor, SlotOf;
    forall k: nat | k * BSIZE < z ensures Mapped(blocks, ino, k) { DataPlaced(r, k); }
  }

  lemma HoldsFacts(d: Image, r1: nat, r2: nat)
    requires Holds(d, r1, r2)
    ensures NoOrphans(d.own) && 1 in d.inodes && 2 in d.inodes
    ensures Filled(d.blocks, d.inodes[1], r1) && Filled(d.blocks, d.inodes[2], r2)
  {
    hide Addr, Owned, Filled;
  }

  lemma NotFilled(blocks: seq<Sector>, ino: Inode, r: nat, s: Slot)
    requires Filled(blocks, ino, r) && Order(s) >= r
    ensures Addr(blocks, ino, s) == 0
  {
  }

  /** What the file system is at rest. */
  ghost predicate AtRest(g: Super, d: Image)
  {
    Owned(g, d.blocks, d.inodes, d.own) && Whole(d.blocks, d.inodes) && AllSynced(g, d.blocks, d.inodes)
  }

  /** The file of inode i gets a size, and the inode is stored. */
  function Stored(d: Image, i: nat, z: uint): Image
    requires i in d.inodes && IBlock(i) < |d.blocks|
  {
    var ino := d.inodes[i].(size := z);
    Image(Updated(d.blocks, i, ino), d.inodes[i := ino], d.own)
  }

  lemma StoreOne(d: Image, i: nat, z: uint, j: nat)
    requires Owned(XV6(), d.blocks, d.inodes, d.own) && i in d.inodes && j in d.inodes && i < 200
    ensures IBlock(i) < |d.blocks| && Owned(XV6(), Stored(d, i, z).blocks, Stored(d, i, z).inodes, d.own)
    ensures forall s :: Addr(Stored(d, i, z).blocks, Stored(d, i, z).inodes[j], s) == Addr(d.blocks, d.inodes[j], s)
    ensures j == i || Synced(d.blocks, j, d.inodes[j]) ==> Synced(Stored(d, i, z).blocks, j, Stored(d, i, z).inodes[j])
  {
    hide Addr, Used, BBlock, Encode, Word, WithWords, Synced, Updated;
    var ino := d.inodes[i].(size := z);
    var inodes := d.inodes[i := ino];
    ResizeOwned(XV6(), d.blocks, d.inodes, d.own, i, z);
    UpdateOwned(XV6(), d.blocks, inodes, d.own, i, ino);
    UpdateSyncs(d.blocks, i, ino);
    if j != i && Synced(d.blocks, j, d.inodes[j]) { UpdateSyncsOther(d.blocks, i, ino, j, d.inodes[j]); }
    hide Owned;
    forall s ensures Addr(Updated(d.blocks, i, ino), inodes[j], s) == Addr(d.blocks, d.inodes[j], s) {
      assert Addr(d.blocks, inodes[j], s) == Addr(d.blocks, d.inodes[j], s);
    }
  }

  lemma SameFilled(blocks: seq<Sector>, ino: Inode, blocks': seq<Sector>, ino': Inode, r: nat)
    requires Filled(blocks, ino, r) && forall s :: Addr(blocks', ino', s) == Addr(blocks, ino, s)
    ensures Filled(blocks', ino', r)
  {
    hide Addr, Order;
  }

  /** The same blocks at the same places, the sizes recorded and the inodes stored. */
  lemma Store(d: Image, r1: nat, r2: nat, z1: uint, z2: uint) returns (d': Image)
    requires Holds(d, r1, r2) && r1 <= PLACES && r2 <= PLACES && z1 <= DataFor(r1) * BSIZE && z2 <= DataFor(r2) * BSIZE
    ensures AtRest(XV6(), d') && Holds(d', r1, r2) && d'.inodes[1].size == z1 && d'.inodes[2].size == z2
  {
    hide Addr, Owned, Filled, Synced, Updated, Spans, NoOrphans, MappedTo, DataFor;
    StoreOne(d, 1, z1, 1);
    StoreOne(d, 1, z1, 2);
    var e := Stored(d, 1, z1);
    StoreOne(e, 2, z2, 1);
    StoreOne(e, 2, z2, 2);
    d' := Stored(e, 2, z2);
    SameFilled(d.blocks, d.inodes[1], d'.blocks, d'.inodes[1], r1);
    SameFilled(d.blocks, d.inodes[2], d'.blocks, d'.inodes[2], r2);
    FilledMapped(d'.blocks, d'.inodes[1], r1, z1);
    FilledMapped(d'.blocks, d'.inodes[2], r2, z2);
    DataBound(r1);
    DataBound(r2);
  }

  lemma DataBound(r: nat)
    requires r <= PLACES
    ensures DataFor(r) <= MAXFILE
  {
  }

  /** Two files can take every block below the log, which leaves its bits clear. */
  lemma FullDisk()
    ensures exists d: Image :: AtRest(XV6(), d) && NoOrphans(d.own)
              && forall b: nat :: b < 32768 ==> (Used(XV6(), d.blocks, b) <==> b < 32758)
  {
    var e := Fill(PLACES, 16042);
    hide Addr, Filled, Used, BBlock, AtRest, Owned;
    assert DataFor(PLACES) == 16524 && DataFor(16042) == 15916;
    var d := Store(e, PLACES, 16042, 16524 * BSIZE, 15916 * BSIZE);
    forall b: nat | b < 32768 ensures Used(XV6(), d.blocks, b) <==> b < 32758 { UsedUpTo(d, PLACES, 16042, b); }
  }
}
