/** The user-level allocator of umalloc.c (Kernighan and Ritchie, "The C Programming Language",
    2nd ed., section 8.7): headers in memory linked in a circle, relinked and resized in place. */
module Heap {
  import opened FreeList

  const HEADER := 8               // sizeof(Header)
  const UINT := 0x1_0000_0000
  const MINCORE := 4096
  const KERNBASE := 0x8000_0000   // bound of process sizes
  const MAXREQ := 0x7fff_fff0     // the largest request that works when the list has no block for it

  /** Node i of the list is in memory as the list says. */
  predicate Node(ptr: map<nat, nat>, sz: map<nat, nat>, l: seq<Block>, i: nat)
    requires i < |l|
  {
    && l[i].addr in ptr && l[i].addr in sz
    && ptr[l[i].addr] == l[Next(i, |l|)].addr && sz[l[i].addr] == l[i].size
  }

  /** Memory holds the circular list l. */
  predicate Linked(ptr: map<nat, nat>, sz: map<nat, nat>, l: seq<Block>)
  {
    forall i: nat :: i < |l| ==> Node(ptr, sz, l, i)
  }

  /** The same, but for the pointer of node j. */
  predicate LinkedBut(ptr: map<nat, nat>, sz: map<nat, nat>, l: seq<Block>, j: nat)
  {
    && j < |l| && l[j].addr in ptr && l[j].addr in sz && sz[l[j].addr] == l[j].size
    && forall i: nat :: i < |l| && i != j ==> Node(ptr, sz, l, i)
  }

  /** Block b's header is in memory and points where position j points. */
  predicate Loose(ptr: map<nat, nat>, sz: map<nat, nat>, l: seq<Block>, j: nat, b: Block)
    requires j < |l|
  {
    b.addr in ptr && b.addr in sz && ptr[b.addr] == l[Next(j, |l|)].addr && sz[b.addr] == b.size
  }

  lemma DistinctAddrs(l: seq<Block>, base: nat, i: nat, j: nat)
    requires Ordered(l, base) && i < |l| && j < |l|
    ensures l[i].addr == l[j].addr <==> i == j
    ensures l[i].addr < l[j].addr <==> i < j
  {
    if i < j { assert l[i].End() < l[j].addr; }
    if j < i { assert l[j].End() < l[i].addr; }
  }

  lemma SlotFresh(l: seq<Block>, base: nat, j: nat, a: nat, i: nat)
    requires Ordered(l, base) && Slot(l, j, a) && i < |l|
    ensures l[i].addr != a && base < a && (l[i].addr < a <==> i <= j)
  {
    DistinctAddrs(l, base, i, j);
    if j + 1 < |l| { DistinctAddrs(l, base, i, j + 1); }
    DistinctAddrs(l, base, 0, j);
  }

  /** What p's pointer is, and when b touches what it points to. */
  lemma AtSlot(ptr: map<nat, nat>, sz: map<nat, nat>, l: seq<Block>, base: nat, j: nat, b: Block)
    requires Ordered(l, base) && Linked(ptr, sz, l) && Slot(l, j, b.addr)
    ensures l[j].addr in ptr && l[j].addr in sz && ptr[l[j].addr] == l[Next(j, |l|)].addr
    ensures ptr[l[j].addr] in ptr && ptr[l[j].addr] in sz
    ensures b.End() == ptr[l[j].addr] <==> JoinsUp(l, j, b)
    ensures sz[l[j].addr] == l[j].size && sz[ptr[l[j].addr]] == l[Next(j, |l|)].size
  {
    assert Node(ptr, sz, l, j) && Node(ptr, sz, l, Next(j, |l|));
    SlotFresh(l, base, j, b.addr, 0);
  }

  /** First half of `free`, not touching the upper neighbour: point at it. */
  lemma UpApart(ptr: map<nat, nat>, sz: map<nat, nat>, l: seq<Block>, base: nat, j: nat, b: Block, ptr1: map<nat, nat>)
    requires Ordered(l, base) && Linked(ptr, sz, l) && Slot(l, j, b.addr) && b.addr in sz && sz[b.addr] == b.size
    requires ptr1 == ptr[b.addr := l[Next(j, |l|)].addr]
    ensures LinkedBut(ptr1, sz, l, j) && Loose(ptr1, sz, l, j, b)
  {
    assert Node(ptr, sz, l, j);
    forall i: nat | i < |l| && i != j ensures Node(ptr1, sz, l, i) {
      SlotFresh(l, base, j, b.addr, i);
      assert Node(ptr, sz, l, i);
    }
  }

  /** First half of `free`, touching the upper neighbour: absorb it. */
  lemma UpJoin(ptr: map<nat, nat>, sz: map<nat, nat>, l: seq<Block>, base: nat, j: nat, b: Block, ptr1: map<nat, nat>,
               sz1: map<nat, nat>)
    requires Ordered(l, base) && Linked(ptr, sz, l) && Slot(l, j, b.addr) && JoinsUp(l, j, b)
    requires l[j + 1].addr in ptr && ptr1 == ptr[b.addr := ptr[l[j + 1].addr]]
    requires sz1 == sz[b.addr := b.size + l[j + 1].size]
    ensures LinkedBut(ptr1, sz1, Del(l, j + 1), j)
    ensures Loose(ptr1, sz1, Del(l, j + 1), j, Block(b.addr, b.size + l[j + 1].size))
  {
    hide Del, Ordered;
    var l1 := Del(l, j + 1);
    assert Node(ptr, sz, l, j) && Node(ptr, sz, l, j + 1);
    SlotFresh(l, base, j, b.addr, j);
    forall i: nat | i < |l1| && i != j ensures Node(ptr1, sz1, l1, i) {
      UpJoinNode(ptr, sz, l, base, j, b, ptr1, sz1, i);
    }
    assert l1[Next(j, |l1|)] == l[Next(j + 1, |l|)];
  }

  lemma UpJoinNode(ptr: map<nat, nat>, sz: map<nat, nat>, l: seq<Block>, base: nat, j: nat, b: Block,
                   ptr1: map<nat, nat>, sz1: map<nat, nat>, i: nat)
    requires Ordered(l, base) && Linked(ptr, sz, l) && Slot(l, j, b.addr) && j + 1 < |l|
    requires l[j + 1].addr in ptr && ptr1 == ptr[b.addr := ptr[l[j + 1].addr]]
    requires sz1 == sz[b.addr := b.size + l[j + 1].size] && i < |l| - 1 && i != j
    ensures Node(ptr1, sz1, Del(l, j + 1), i)
  {
    hide Del, Ordered, Linked;
    var l1, i' := Del(l, j + 1), if i < j then i else i + 1;
    SlotFresh(l, base, j, b.addr, i');
    NodeOf(ptr, sz, l, i');
    assert l1[i] == l[i'];
    assert l1[Next(i, |l1|)] == l[Next(i', |l|)];
  }

  lemma NodeOf(ptr: map<nat, nat>, sz: map<nat, nat>, l: seq<Block>, i: nat)
    requires Linked(ptr, sz, l) && i < |l|
    ensures Node(ptr, sz, l, i)
  {
  }

  /** Second half of `free`, not touching the lower neighbour: link it to b. */
  lemma DownApart(ptr: map<nat, nat>, sz: map<nat, nat>, l: seq<Block>, base: nat, j: nat, b: Block, ptr1: map<nat,
                  nat>)
    requires Ordered(l, base) && LinkedBut(ptr, sz, l, j) && Slot(l, j, b.addr) && Loose(ptr, sz, l, j, b)
    requires ptr1 == ptr[l[j].addr := b.addr]
    ensures Linked(ptr1, sz, Put(l, j, b))
  {
    hide Put;
    var r := Put(l, j, b);
    forall i: nat | i < |r| ensures Node(ptr1, sz, r, i) {
      if i == j + 1 {
        SlotFresh(l, base, j, b.addr, j);
        assert r[Next(i, |r|)] == l[Next(j, |l|)];
      } else if i == j {
        assert r[Next(i, |r|)] == b;
      } else {
        var i' := if i < j then i else i - 1;
        assert Node(ptr, sz, l, i');
        DistinctAddrs(l, base, i', j);
        assert r[i] == l[i'] && r[Next(i, |r|)] == l[Next(i', |l|)];
      }
    }
  }

  /** Second half of `free`, touching the lower neighbour: grow it. */
  lemma DownJoin(ptr: map<nat, nat>, sz: map<nat, nat>, l: seq<Block>, base: nat, j: nat, b: Block, ptr1: map<nat,
                 nat>, sz1: map<nat, nat>)
    requires Ordered(l, base) && LinkedBut(ptr, sz, l, j) && j < |l| && Loose(ptr, sz, l, j, b)
    requires ptr1 == ptr[l[j].addr := ptr[b.addr]] && sz1 == sz[l[j].addr := l[j].size + b.size]
    ensures Linked(ptr1, sz1, l[j := Block(l[j].addr, l[j].size + b.size)])
  {
    var r := l[j := Block(l[j].addr, l[j].size + b.size)];
    forall i: nat | i < |r| ensures Node(ptr1, sz1, r, i) {
      DistinctAddrs(l, base, i, j);
      if i != j { assert Node(ptr, sz, l, i); }
      assert r[Next(i, |r|)].addr == l[Next(i, |l|)].addr;
    }
  }

  // ---------- accounting ----------

  predicate InAlloc(alloc: map<nat, nat>, u: nat)
  {
    exists a :: a in alloc && Covers(Block(a, alloc[a]), u)
  }

  predicate Apart(b: Block, c: Block) { b.End() <= c.addr || c.End() <= b.addr }

  /** Allocated blocks have their size in their header and overlap neither each other nor the free list. */
  predicate AllocOk(l: seq<Block>, base: nat, sz: map<nat, nat>, alloc: map<nat, nat>)
  {
    && (forall a ::
       a in alloc ==> base < a && alloc[a] > 0 && a in sz && sz[a] == alloc[a] && Clear(l, Block(a, alloc[a])))
    && (forall a, b :: a in alloc && b in alloc && a != b ==> Apart(Block(a, alloc[a]), Block(b, alloc[b])))
  }

  /** The units obtained from sbrk are exactly those of free and allocated blocks. */
  ghost predicate Exact(l: seq<Block>, alloc: map<nat, nat>, arena: set<nat>)
  {
    forall u: nat :: u in arena <==> InFree(l, u) || InAlloc(alloc, u)
  }

  lemma ClearNot(l: seq<Block>, c: Block, u: nat)
    requires Clear(l, c) && Covers(c, u)
    ensures !InFree(l, u)
  {
  }

  lemma ClearByUnits(l: seq<Block>, base: nat, c: Block)
    requires Ordered(l, base) && base < c.addr && c.size > 0
    requires forall u: nat :: Covers(c, u) ==> !InFree(l, u)
    ensures Clear(l, c)
  {
    forall i | 0 <= i < |l| ensures l[i].End() <= c.addr || c.End() <= l[i].addr {
      if i > 0 && l[i].End() > c.addr && c.End() > l[i].addr {
        var u := if c.addr < l[i].addr then l[i].addr else c.addr;
        assert Covers(c, u) && Covers(l[i], u);
        assert InFree(l, u);
        assert false;
      }
    }
  }

  /** Freeing block a moves its units from the allocated to the free ones and disturbs no other block. */
  lemma FreeAccount(l: seq<Block>, base: nat, sz: map<nat, nat>, alloc: map<nat, nat>, arena: set<nat>, j: nat,
                    a: nat, sz': map<nat, nat>)
    requires Ordered(l, base) && AllocOk(l, base, sz, alloc) && Exact(l, alloc, arena) && a in alloc && Slot(l, j, a)
    requires forall c :: c in alloc && c != a && c != l[j].addr ==> c in sz' && sz'[c] == sz[c]
    ensures var l', alloc' := Insert(l, j, Block(a, alloc[a])), alloc - {a};
            Ordered(l', base) && AllocOk(l', base, sz', alloc') && Exact(l', alloc', arena)
  {
    hide Insert;
    var b := Block(a, alloc[a]);
    var l', alloc' := Insert(l, j, b), alloc - {a};
    InsertOrdered(l, base, j, b);
    forall u: nat ensures InFree(l', u) <==> InFree(l, u) || Covers(b, u) {
      InsertUnits(l, j, b, u);
    }
    forall c | c in alloc' ensures c in sz' && sz'[c] == alloc[c] && Clear(l', Block(c, alloc[c])) {
      NotListed(l, base, j, Block(c, alloc[c]));
      forall u: nat | Covers(Block(c, alloc[c]), u) ensures !InFree(l', u) {
        ClearNot(l, Block(c, alloc[c]), u);
        assert Apart(Block(c, alloc[c]), b);
      }
      ClearByUnits(l', base, Block(c, alloc[c]));
    }
    forall c, d | c in alloc' && d in alloc' && c != d ensures Apart(Block(c, alloc'[c]), Block(d, alloc'[d])) {
      assert Apart(Block(c, alloc[c]), Block(d, alloc[d]));
    }
    forall u: nat ensures u in arena <==> InFree(l', u) || InAlloc(alloc', u) {
      FreedUnit(alloc, a, u);
    }
  }

  lemma NotListed(l: seq<Block>, base: nat, j: nat, c: Block)
    requires Ordered(l, base) && Clear(l, c) && c.size > 0 && base < c.addr && j < |l|
    ensures c.addr != l[j].addr
  {
  }

  lemma FreedUnit(alloc: map<nat, nat>, a: nat, u: nat)
    requires a in alloc
    ensures InAlloc(alloc, u) <==> InAlloc(alloc - {a}, u) || Covers(Block(a, alloc[a]), u)
  {
    var alloc' := alloc - {a};
    if InAlloc(alloc, u) {
      var c :| c in alloc && Covers(Block(c, alloc[c]), u);
      if c != a { assert c in alloc' && Covers(Block(c, alloc'[c]), u); }
    }
    if InAlloc(alloc', u) {
      var c :| c in alloc' && Covers(Block(c, alloc'[c]), u);
      assert c in alloc && Covers(Block(c, alloc[c]), u);
    }
  }

  // ---------- the search of free ----------

  lemma {:induction false} SlotExists(l: seq<Block>, base: nat, a: nat) returns (j: nat)
    requires Ordered(l, base) && base < a && forall i :: 0 <= i < |l| ==> l[i].addr != a
    ensures Slot(l, j, a)
    decreases |l|
  {
    var k := |l| - 1;
    if l[k].addr < a {
      j := k;
    } else {
      assert Ordered(l[..k], base);
      j := SlotExists(l[..k], base, a);
      assert j + 1 < |l| ==> a < l[j + 1].addr;
    }
  }

  /** The loop of `free` stops at the insertion point and nowhere else. */
  lemma StopTest(ptr: map<nat, nat>, sz: map<nat, nat>, l: seq<Block>, base: nat, j: nat, a: nat, k: nat)
    requires Ordered(l, base) && Linked(ptr, sz, l) && Slot(l, j, a) && k < |l|
    ensures l[k].addr in ptr && ptr[l[k].addr] == l[Next(k, |l|)].addr
    ensures var p, q := l[k].addr, ptr[l[k].addr];
            (a > p && a < q) || (p >= q && (a > p || a < q)) <==> k == j
  {
    assert Node(ptr, sz, l, k);
    var n := Next(k, |l|);
    SlotFresh(l, base, j, a, k);
    SlotFresh(l, base, j, a, n);
    DistinctAddrs(l, base, k, n);
  }

  // ---------- carving ----------

  /** `malloc` takes a whole block: the previous node points past it. */
  lemma LinkedDel(ptr: map<nat, nat>, sz: map<nat, nat>, l: seq<Block>, base: nat, q: nat, k: nat, ptr1: map<nat, nat>)
    requires Ordered(l, base) && Linked(ptr, sz, l) && 0 < k < |l| && q < |l| && k == Next(q, |l|)
    requires l[k].addr in ptr && ptr1 == ptr[l[q].addr := ptr[l[k].addr]]
    ensures Linked(ptr1, sz, Del(l, k))
  {
    hide Del;
    var r := Del(l, k);
    assert Node(ptr, sz, l, k);
    forall i: nat | i < |r| ensures Node(ptr1, sz, r, i) {
      var i' := if i < k then i else i + 1;
      assert Node(ptr, sz, l, i');
      DistinctAddrs(l, base, i', q);
      assert r[i] == l[i'];
      assert r[Next(i, |r|)] == if i' == q then l[Next(k, |l|)] else l[Next(i', |l|)];
    }
  }

  /** `malloc` takes the tail of a block: the block shrinks and a header appears at its new end. */
  lemma LinkedShrink(ptr: map<nat, nat>, sz: map<nat, nat>, l: seq<Block>, base: nat, k: nat, n: nat, sz1: map<nat,
                     nat>)
    requires Ordered(l, base) && Linked(ptr, sz, l) && k < |l| && 0 < n < l[k].size
    requires sz1 == sz[l[k].addr := l[k].size - n][l[k].End() - n := n]
    ensures Linked(ptr, sz1, l[k := Block(l[k].addr, l[k].size - n)])
  {
    var r := l[k := Block(l[k].addr, l[k].size - n)];
    forall i: nat | i < |r| ensures Node(ptr, sz1, r, i) {
      assert Node(ptr, sz, l, i);
      DistinctAddrs(l, base, i, k);
      if i < k { assert l[i].End() < l[k].addr; }
      if k < i { assert l[k].End() < l[i].addr; }
      assert r[Next(i, |r|)].addr == l[Next(i, |l|)].addr;
    }
  }

  /** Carving moves units from the free to the allocated ones and disturbs no other block. */
  /** Carving n units from block k gives them a header; allocated blocks keep theirs. */
  predicate SizesKept(l: seq<Block>, sz: map<nat, nat>, alloc: map<nat, nat>, k: nat, n: nat, sz': map<nat, nat>)
    requires k < |l| && n <= l[k].size
  {
    var c := Carved(l, k, n).addr;
    && c in sz' && sz'[c] == n
    && forall d :: d in alloc && d != c && d != l[k].addr ==> d in sz && d in sz' && sz'[d] == sz[d]
  }

  lemma CarveSizes(l: seq<Block>, base: nat, sz: map<nat, nat>, alloc: map<nat, nat>, k: nat, n: nat,
                   sz': map<nat, nat>)
    requires AllocOk(l, base, sz, alloc) && k < |l| && n <= l[k].size && l[k].addr in sz && sz[l[k].addr] == l[k].size
    requires sz' == if l[k].size == n then sz else sz[l[k].addr := l[k].size - n][l[k].End() - n := n]
    ensures SizesKept(l, sz, alloc, k, n, sz')
  {
    hide Clear, Apart;
  }

  lemma CarveAccount(l: seq<Block>, base: nat, sz: map<nat, nat>, alloc: map<nat, nat>, arena: set<nat>, k: nat,
                     n: nat, sz': map<nat, nat>)
    requires Ordered(l, base) && AllocOk(l, base, sz, alloc) && Exact(l, alloc, arena) && k < |l| && 0 < n <= l[k].size
    requires SizesKept(l, sz, alloc, k, n, sz')
    ensures var l', c := Carve(l, k, n), Carved(l, k, n);
            && Ordered(l', base) && c.addr !in alloc
            && AllocOk(l', base, sz', alloc[c.addr := n]) && Exact(l', alloc[c.addr := n], arena)
  {
    hide Carve;
    var l', c := Carve(l, k, n), Carved(l, k, n);
    CarveOrdered(l, base, k, n);
    assert base < l[k].addr by { DistinctAddrs(l, base, 0, k); }
    forall u: nat ensures InFree(l, u) <==> InFree(l', u) || Covers(c, u) {
      CarveUnits(l, k, n, u);
    }
    forall d | d in alloc ensures d != c.addr && d in sz' && sz'[d] == alloc[d] && Clear(l', Block(d, alloc[d]))
      && Apart(Block(d, alloc[d]), c) {
      NotListed(l, base, k, Block(d, alloc[d]));
      assert l[k].End() <= d || d + alloc[d] <= l[k].addr;
      forall u: nat | Covers(Block(d, alloc[d]), u) ensures !InFree(l', u) {
        ClearNot(l, Block(d, alloc[d]), u);
      }
      ClearByUnits(l', base, Block(d, alloc[d]));
    }
    var alloc' := alloc[c.addr := n];
    forall u: nat ensures u in arena <==> InFree(l', u) || InAlloc(alloc', u) {
      FreedUnit(alloc', c.addr, u);
      assert alloc' - {c.addr} == alloc;
    }
  }

  /** The whole invariant, once the list exists. */
  ghost predicate HeapOk(ptr: map<nat, nat>, sz: map<nat, nat>, l: seq<Block>, base: nat, alloc: map<nat, nat>,
                         arena: set<nat>)
  {
    Ordered(l, base) && Linked(ptr, sz, l) && AllocOk(l, base, sz, alloc) && Exact(l, alloc, arena)
  }

  predicate OnList(l: seq<Block>, p: nat)
  {
    exists i :: 0 <= i < |l| && l[i].addr == p
  }

  /** Units for a request of nbytes: `(nbytes + sizeof(Header) - 1)/sizeof(Header) + 1` in 32 bits. */
  function NUnits(nbytes: nat): (n: nat)
    requires nbytes < UINT
    ensures 1 <= n <= UINT / HEADER
  {
    (nbytes + HEADER - 1) % UINT / HEADER + 1
  }

  /** The block is big enough for the request exactly when the addition does not wrap. */
  lemma NUnitsHoldRequest(nbytes: nat)
    requires nbytes < UINT
    ensures (NUnits(nbytes) - 1) * HEADER >= nbytes <==> nbytes <= UINT - HEADER
  {
  }

  /** The largest request is answered with an empty payload. */
  lemma WrappedRequest()
    ensures NUnits(0xffff_ffff) == 1
  {
  }

  // ---------- sbrk ----------

  function CoreUnits(nu: nat): nat { if nu < MINCORE then MINCORE else nu }

  /** The units a request needs. */
  function UnitsFor(nbytes: nat): nat { (nbytes + HEADER - 1) / HEADER + 1 }

  /** A 32-bit word as an `int`. */
  function Signed(w: nat): int
    requires w < UINT
  {
    if w < UINT / 2 then w else w - UINT
  }

  /** What `sbrk(nu * sizeof(Header))` receives: its parameter is an `int`. */
  function SbrkArg(nu: nat): int { Signed(nu * HEADER % UINT) }

  /** The answer of sbrk, and after it the recorded size of the process and the end of what is mapped. */
  datatype Brk = Brk(ok: bool, size: nat, mapped: nat)

  function Whole(ok: bool, size: nat): Brk { Brk(ok, size, size) }

  /** `sys_sbrk` and `growproc` for a process of the given size; room says that allocuvm finds the
      pages.  A size that would be negative wraps, and deallocuvm takes it for no change.  Shrinking
      to nothing is taken for a failure after the pages are gone. */
  function Sbrk(size: nat, n: int, room: bool): Brk
  {
    if n > 0 then
      if room && size + n < KERNBASE then Whole(true, size + n) else Whole(false, size)
    else if n == 0 || -n > size then Whole(n == 0 || size > 0, size)
    else if -n < size then Whole(true, size + n)
    else Brk(false, size, 0)
  }

  /** malloc asks for the memory a request needs exactly up to 0x7fff_fff0 bytes.  Above, sbrk is
      asked for nothing or to shrink the process, until the request itself wraps. */
  lemma AsksEnough(nbytes: nat)
    requires nbytes < UINT
    ensures SbrkArg(CoreUnits(NUnits(nbytes))) == HEADER * CoreUnits(UnitsFor(nbytes)) <==> nbytes <= MAXREQ
    ensures SbrkArg(CoreUnits(NUnits(nbytes))) <= 0 <==> MAXREQ < nbytes <= UINT - HEADER
    ensures NUnits(nbytes) == UnitsFor(nbytes) <==> nbytes <= UINT - HEADER
    ensures SbrkArg(CoreUnits(NUnits(nbytes))) > 0 ==>
      SbrkArg(CoreUnits(NUnits(nbytes))) == HEADER * CoreUnits(NUnits(nbytes))
  {
    if nbytes <= UINT - HEADER {
      assert NUnits(nbytes) == UnitsFor(nbytes);
      assert nbytes <= MAXREQ <==> UnitsFor(nbytes) < 0x1000_0000;
    }
  }

  /** A request for half the address space: sbrk is asked for -2^31 bytes, and reports success
      without having changed anything.  For one of 2^32 - 8 bytes it is asked for none. */
  lemma HalfOfMemory(size: nat, room: bool)
    requires 0 < size < KERNBASE
    ensures NUnits(0x7fff_fff8) == 0x1000_0000 && SbrkArg(CoreUnits(NUnits(0x7fff_fff8))) == -0x8000_0000
    ensures Sbrk(size, SbrkArg(CoreUnits(NUnits(0x7fff_fff8))), room) == Whole(true, size)
    ensures Sbrk(size, SbrkArg(CoreUnits(NUnits(0xffff_fff8))), room) == Whole(true, size)
  {
    assert SbrkArg(CoreUnits(NUnits(0xffff_fff8))) == 0;
  }

  /** sbrk obtains what the request needs, or fails and changes nothing. */
  predicate Met(nbytes: nat, size: nat, b: Brk)
  {
    b == Whole(b.ok, size + if b.ok then HEADER * CoreUnits(UnitsFor(nbytes)) else 0)
  }

  lemma RequestMet(nbytes: nat, size: nat, room: bool)
    requires nbytes < UINT && 0 < size < KERNBASE
    ensures var b := Sbrk(size, SbrkArg(CoreUnits(NUnits(nbytes))), room);
            Met(nbytes, size, b) <==> nbytes <= MAXREQ || (nbytes > UINT - HEADER && !b.ok)
  {
    hide SbrkArg, NUnits, CoreUnits, UnitsFor;
    AsksEnough(nbytes);
    CoreSome(UnitsFor(nbytes));
  }

  /** The bytes by which malloc makes the process grow for a request: eight for each unit, with one
      unit for the header, and 32768 at least. */
  function Growth(nbytes: nat): nat
  {
    var units := (nbytes + 7) / 8 + 1;
    if units < 4096 then 32768 else 8 * units
  }

  /** A request that works is granted exactly if pages are found and the process stays below KERNBASE. */
  lemma SbrkGrants(nbytes: nat, size: nat, room: bool)
    requires nbytes <= MAXREQ
    ensures var b := Sbrk(size, SbrkArg(CoreUnits(NUnits(nbytes))), room);
            && (b.ok <==> room && size + Growth(nbytes) < 0x8000_0000)
            && b.size == b.mapped == if b.ok then size + Growth(nbytes) else size
  {
    AsksEnough(nbytes);
    assert CoreUnits(UnitsFor(nbytes)) * HEADER == Growth(nbytes);
  }

  /** sbrk asked for more and successful: the process has grown by the units asked for. */
  lemma SbrkGot(nu: nat, size: nat, room: bool, brk: nat)
    requires nu <= UINT / HEADER && SbrkArg(nu) > 0 && Sbrk(size, SbrkArg(nu), room).ok && size % HEADER == 0
      && brk * HEADER <= size
    ensures Sbrk(size, SbrkArg(nu), room).size / HEADER == size / HEADER + nu && brk <= size / HEADER
  {
    assert SbrkArg(nu) == nu * HEADER;
  }

  lemma CoreSome(nu: nat)
    ensures CoreUnits(nu) > 0
  {
  }

  /** malloc's answer: null, the address of a block, or none because it goes on to store a header
      behind the end of the process. */
  datatype Answer = Null | At(addr: nat) | Stray

  class Allocator {
    const base: nat               // &base
    var ptr: map<nat, nat>        // s.ptr of the header at an address
    var sz: map<nat, nat>         // s.size
    var freep: nat                // 0 until the first malloc
    ghost var l: seq<Block>       // the free list, in address order from base
    ghost var alloc: map<nat, nat>
    ghost var arena: set<nat>     // units obtained from sbrk
    ghost var brk: nat            // every unit so far lies below

    ghost predicate Valid()
      reads this
    {
      && 0 < base < brk && (forall u :: u in arena ==> u < brk)
      && if freep == 0 then l == [] && alloc == map[] && arena == {}
         else HeapOk(ptr, sz, l, base, alloc, arena) && OnList(l, freep)
    }

    constructor (base': nat)
      requires 0 < base'
      ensures Valid() && freep == 0 && base == base' && brk == base' + 1
    {
      base, ptr, sz, freep := base', map[], map[], 0;
      l, alloc, arena, brk := [], map[], {}, base' + 1;
    }

    /** The loop of `free`: from freep around the circle to the insertion point j. */
    method Search(bp: nat, ghost j: nat) returns (p: nat)
      requires Ordered(l, base) && Linked(ptr, sz, l) && OnList(l, freep) && Slot(l, j, bp)
      ensures p == l[j].addr
    {
      hide Ordered, Linked, Slot;
      p := freep;
      ghost var k: nat :| k < |l| && l[k].addr == p;
      StopTest(ptr, sz, l, base, j, bp, k);
      SlotIn(l, j, bp);
      while !(bp > p && bp < ptr[p])
        invariant k < |l| && p == l[k].addr && p in ptr
        decreases Dist(k, j, |l|)
      {
        StopTest(ptr, sz, l, base, j, bp, k);
        if p >= ptr[p] && (bp > p || bp < ptr[p]) { return; }
        Step(k, j, |l|);
        p := ptr[p];
        k := Next(k, |l|);
        StopTest(ptr, sz, l, base, j, bp, k);
      }
      StopTest(ptr, sz, l, base, j, bp, k);
    }

    /** The relinking of `free`: bp goes after p, merged with whatever it touches. */
    method Relink(p: nat, bp: nat, ghost j: nat)
      requires Ordered(l, base) && Linked(ptr, sz, l) && Slot(l, j, bp) && p == l[j].addr
      requires bp in sz && sz[bp] > 0 && Clear(l, Block(bp, sz[bp]))
      modifies `ptr, `sz
      ensures Linked(ptr, sz, Insert(l, j, Block(bp, old(sz)[bp])))
      ensures forall c :: c in old(sz) && c != bp && c != p ==> c in sz && sz[c] == old(sz)[c]
    {
      hide Ordered, Linked, LinkedBut, Loose, Slot, Clear;
      ghost var b, l1, b1, ptr0, sz0 := Block(bp, sz[bp]), l, Block(bp, sz[bp]), ptr, sz;
      SlotIn(l, j, bp);
      AtSlot(ptr, sz, l, base, j, b);
      if bp + sz[bp] == ptr[p] {
        l1, b1 := Del(l, j + 1), Block(bp, sz[bp] + l[j + 1].size);
        sz := sz[bp := sz[bp] + sz[ptr[p]]];
        ptr := ptr[bp := ptr[ptr[p]]];
        UpJoin(ptr0, sz0, l, base, j, b, ptr, sz);
        DelSlot(l, base, j, bp);
      } else {
        ptr := ptr[bp := ptr[p]];
        UpApart(ptr0, sz0, l, base, j, b, ptr);
      }
      ghost var ptr1, sz1 := ptr, sz;
      LooseFacts(ptr, sz, l1, j, b1);
      if p + sz[p] == bp {
        sz := sz[p := sz[p] + sz[bp]];
        ptr := ptr[p := ptr[bp]];
        DownJoin(ptr1, sz1, l1, base, j, b1, ptr, sz);
      } else {
        ptr := ptr[p := bp];
        DownApart(ptr1, sz1, l1, base, j, b1, ptr);
      }
    }

    /** Return an allocated block.  j is the list position it went after. */
    method Free(ap: nat) returns (ghost j: nat)
      requires Valid() && ap > 0 && ap - 1 in alloc
      modifies `ptr, `sz, `freep, `l, `alloc
      ensures Valid()
      ensures alloc == old(alloc) - {ap - 1}
      ensures Slot(old(l), j, ap - 1) && l == Insert(old(l), j, Block(ap - 1, old(alloc)[ap - 1]))
        && freep == old(l)[j].addr
    {
      hide Ordered, Linked, Exact, Slot, Insert, Clear, OnList;
      var bp := ap - 1;
      ghost var l0, alloc0, sz0, b := l, alloc, sz, Block(bp, alloc[bp]);
      j := AllocSlot(l, base, sz, alloc, bp);
      SlotIn(l, j, bp);
      var p := Search(bp, j);
      Relink(p, bp, j);
      FreeAccount(l0, base, sz0, alloc0, arena, j, bp, sz);
      l, alloc := Insert(l0, j, b), alloc - {bp};
      freep := p;
      InsertKeeps(l0, j, b);
      AboveBase(l0, base, j);
    }

    /** Ask sbrk for at least nu more units and put them on the list; afterwards the block at freep
        or the one after it is big enough.  Whenever sbrk reports success the source takes the old
        end of the process for new memory. */
    method Morecore(nu0: nat, size: nat, room: bool) returns (r: Answer, after: Brk, ghost j: nat)
      requires Valid() && freep != 0 && 0 < nu0 <= UINT / HEADER && size % HEADER == 0
        && brk * HEADER <= size < KERNBASE
      modifies `ptr, `sz, `freep, `l, `alloc, `arena, `brk
      ensures Valid() && freep != 0 && alloc == old(alloc)
      ensures var n := SbrkArg(CoreUnits(nu0));
              after == Sbrk(size, n, room) && (r.Null? <==> !after.ok) && (r.Stray? <==> after.ok && n <= 0)
      ensures !r.At? ==> unchanged(this)
      ensures r.At? ==> arena == old(arena) + Range(size / HEADER, CoreUnits(nu0)) && brk == after.size / HEADER
      ensures r.At? ==>
        j < |l| && r.addr == freep == l[j].addr && (l[j].size >= nu0 || (j + 1 < |l| && l[j + 1].size >= nu0))
    {
      hide Ordered, Linked, Exact, OnList, AllocOk, Slot, SbrkArg, Sbrk, Insert;
      var nu := if nu0 < MINCORE then MINCORE else nu0;
      after, j := Sbrk(size, SbrkArg(nu), room), 0;
      if !after.ok { return Null, after, 0; }
      if SbrkArg(nu) <= 0 { return Stray, after, 0; }
      SbrkGot(nu, size, room, brk);
      j := AddCore(size / HEADER, nu);
      r := At(freep);
    }

    /** The second half of `morecore`: nu units at hp are given a header and freed. */
    method AddCore(hp: nat, nu: nat) returns (ghost j: nat)
      requires Valid() && freep != 0 && nu > 0 && brk <= hp
      modifies `ptr, `sz, `freep, `l, `alloc, `arena, `brk
      ensures Valid() && freep != 0 && alloc == old(alloc)
      ensures arena == old(arena) + Range(hp, nu) && brk == hp + nu
      ensures j < |l| && freep == l[j].addr && (l[j].size >= nu || (j + 1 < |l| && l[j + 1].size >= nu))
    {
      hide Ordered, Linked, Exact, OnList, AllocOk, Slot;
      Below(l, base, alloc, arena, brk);
      GrowAccount(ptr, sz, l, base, alloc, arena, brk, hp, nu);
      sz := sz[hp := nu];
      alloc, arena, brk := alloc[hp := nu], arena + Range(hp, nu), hp + nu;
      ghost var l0 := l;
      j := Free(hp + 1);
      NewestFits(l0, base, j, Block(hp, nu));
      assert old(alloc)[hp := nu] - {hp} == old(alloc);
    }

    /** Carve n units from the tail of block p, the one after prevp. */
    method Take(prevp: nat, p0: nat, n: nat, ghost q: nat, ghost k: nat) returns (r: nat)
      requires Valid() && freep != 0 && q < |l| && k == Next(q, |l|) && prevp == l[q].addr && p0 == l[k].addr
        && 0 < n <= l[k].size
      modifies `ptr, `sz, `freep, `l, `alloc
      ensures Valid() && freep != 0
      ensures r == Carved(old(l), k, n).addr + 1 && l == Carve(old(l), k, n)
      ensures r - 1 !in old(alloc) && alloc == old(alloc)[r - 1 := n]
    {
      hide Ordered, Linked, Exact, Clear, Apart, OnList, AllocOk, SizesKept;
      ghost var l0, alloc0, ptr0, sz0 := l, alloc, ptr, sz;
      ListedFacts(ptr, sz, l, base, q, k);
      CarveOrdered(l, base, k, n);
      var p := p0;
      if sz[p] == n {
        ptr := ptr[prevp := ptr[p]];
        LinkedDel(ptr0, sz0, l, base, q, k, ptr);
      } else {
        sz := sz[p := sz[p] - n];
        p := p + sz[p];
        sz := sz[p := n];
        LinkedShrink(ptr0, sz0, l, base, k, n, sz);
      }
      freep := prevp;
      CarveSizes(l0, base, sz0, alloc0, k, n, sz);
      CarveAccount(l0, base, sz0, alloc0, arena, k, n, sz);
      CarveKeeps(l0, base, q, k, n);
      l, alloc := Carve(l0, k, n), alloc[p := n];
      r := p + 1;
    }

    /** The first call of `malloc` makes the list that holds only base. */
    method Start(ghost n: nat) returns (prevp: nat)
      requires Valid() && n > 0
      modifies `ptr, `sz, `freep, `l
      ensures Valid() && prevp == freep != 0 && (Fits(l, n) <==> Fits(old(l), n))
    {
      hide Ordered, Linked, Exact, AllocOk, OnList, Fits;
      prevp := freep;
      if prevp == 0 {
        ptr, freep, prevp := ptr[base := base], base, base;
        sz := sz[base := 0];
        l := [Block(base, 0)];
        FirstList(ptr, sz, base);
      }
    }

    /** Allocate nbytes, for a process of the given size.  `calls` counts the calls to morecore. */
    method Malloc(nbytes: nat, size: nat, room: bool) returns (r: Answer, after: Brk, calls: nat)
      requires Valid() && nbytes < UINT && size % HEADER == 0 && brk * HEADER <= size < KERNBASE
      modifies `ptr, `sz, `freep, `l, `alloc, `arena, `brk
      ensures Valid()
      ensures calls <= 1 && (calls == 0 <==> Fits(old(l), NUnits(nbytes)))
      ensures calls == 0 ==> r.At? && after == Whole(true, size) && arena == old(arena)
      ensures calls == 1 ==>
        var n := SbrkArg(CoreUnits(NUnits(nbytes)));
        && after == Sbrk(size, n, room) && (r.Null? <==> !after.ok) && (r.Stray? <==> after.ok && n <= 0)
        && arena == old(arena) + if r.At? then Range(size / HEADER, CoreUnits(NUnits(nbytes))) else {}
      ensures !r.At? ==> alloc == old(alloc)
      ensures r.At? ==> r.addr > 0 && r.addr - 1 !in old(alloc) && alloc == old(alloc)[r.addr - 1 := NUnits(nbytes)]
      ensures calls == 1 ==>
        (Met(nbytes, size, after) <==> nbytes <= MAXREQ || (nbytes > UINT - HEADER && r.Null?))
      ensures r.Stray? ==> MAXREQ < nbytes <= UINT - HEADER && after.mapped <= size
      // a request that works is answered by a block, unless none fits and the process cannot grow
      ensures nbytes <= MAXREQ ==>
        (r.At? <==> Fits(old(l), NUnits(nbytes)) || (room && size + Growth(nbytes) < 0x8000_0000))
    {
      hide Ordered, Linked, Exact, AllocOk, OnList, Passed, Ahead, Fits, Dist, Range, CoreUnits, SbrkArg, Met, NUnits,
        Growth;
      var nunits := NUnits(nbytes);
      after := Whole(true, size);
      RequestMet(nbytes, size, room);
      AsksEnough(nbytes);
      if nbytes <= MAXREQ { SbrkGrants(nbytes, size, room); }
      var prevp := Start(nunits);
      ghost var q: nat := Position(l, freep);
      var p := NextOf(prevp, q);
      ghost var k: nat, f: nat := Next(q, |l|), q;
      calls := 0;
      PassNone(l, f, nunits);
      while true
        invariant Valid() && freep != 0 && alloc == old(alloc)
        invariant q < |l| && f < |l| && k == Next(q, |l|) && prevp == l[q].addr && p == l[k].addr && freep == l[f].addr
        invariant 0 <= calls <= 1
        invariant calls == 0 ==> arena == old(arena) && brk == old(brk) && (Fits(l, nunits) <==> Fits(old(l), nunits))
        invariant calls == 0 ==> Passed(l, f, k, nunits)
        invariant calls == 0 ==> after == Whole(true, size)
        invariant calls == 1 ==>
          SbrkArg(CoreUnits(nunits)) > 0 && Sbrk(size, SbrkArg(CoreUnits(nunits)), room) == after && after.ok
        invariant calls == 1 ==> arena == old(arena) + Range(size / HEADER, CoreUnits(nunits)) && !Fits(old(l), nunits)
        invariant calls == 1 ==> Ahead(l, f, k, nunits)
        decreases 1 - calls, Dist(k, f, |l|)
      {
        ListedFacts(ptr, sz, l, base, q, k);
        if sz[p] >= nunits {
          FitsAt(l, k, nunits);
          var c := Take(prevp, p, nunits, q, k);
          r := At(c);
          return;
        }
        SameListed(l, base, k, f);
        if calls == 0 { PassOne(l, f, k, nunits); } else { AheadOne(l, f, k, nunits); }
        if p == freep {
          ghost var j;
          r, after, j := Morecore(nunits, size, room);
          calls := calls + 1;
          if !r.At? { return; }
          f, k := j, j;
          p := freep;
          AheadNew(l, j, nunits);
        } else {
          Step(k, f, |l|);
        }
        prevp, q := p, k;
        p := NextOf(p, k);
        k := Next(k, |l|);
      }
    }

    /** `p->s.ptr` for the k-th list element. */
    method NextOf(p: nat, ghost k: nat) returns (r: nat)
      requires Ordered(l, base) && Linked(ptr, sz, l) && k < |l| && p == l[k].addr
      ensures r == l[Next(k, |l|)].addr
    {
      assert Node(ptr, sz, l, k);
      r := ptr[p];
    }
  }

  /** Some free block has n units. */
  ghost predicate Fits(l: seq<Block>, n: nat)
  {
    exists i :: 0 <= i < |l| && l[i].size >= n
  }

  function Range(a: nat, n: nat): (r: set<nat>)
    ensures |r| == n && forall u :: u in r <==> a <= u < a + n
  {
    if n == 0 then {} else Range(a, n - 1) + {a + n - 1}
  }

  ghost function Position(l: seq<Block>, p: nat): (i: nat)
    requires OnList(l, p)
    ensures i < |l| && l[i].addr == p
  {
    var i: nat :| i < |l| && l[i].addr == p; i
  }

  /** Fresh units above everything so far form a valid allocated block. */
  lemma GrowAccount(ptr: map<nat, nat>, sz: map<nat, nat>, l: seq<Block>, base: nat, alloc: map<nat, nat>,
                    arena: set<nat>, brk: nat, hp: nat, n: nat)
    requires HeapOk(ptr, sz, l, base, alloc, arena) && base < brk <= hp && n > 0 && forall u :: u in arena ==> u < brk
    ensures HeapOk(ptr, sz[hp := n], l, base, alloc[hp := n], arena + Range(hp, n)) && hp !in alloc
  {
    Below(l, base, alloc, arena, brk);
    assert hp !in alloc;
    var sz' := sz[hp := n];
    forall i: nat | i < |l| ensures Node(ptr, sz', l, i) {
      assert Node(ptr, sz, l, i);
    }
    hide Ordered, AllocOk, Exact;
    GrowAlloc(l, base, sz, alloc, hp, n);
    GrowExact(l, alloc, arena, hp, n);
  }

  lemma GrowAlloc(l: seq<Block>, base: nat, sz: map<nat, nat>, alloc: map<nat, nat>, hp: nat, n: nat)
    requires AllocOk(l, base, sz, alloc) && base < hp && n > 0
    requires forall i :: 0 <= i < |l| ==> l[i].End() <= hp
    requires forall a :: a in alloc && alloc[a] > 0 ==> a + alloc[a] <= hp
    ensures AllocOk(l, base, sz[hp := n], alloc[hp := n])
  {
    var alloc' := alloc[hp := n];
    forall a, c | a in alloc' && c in alloc' && a != c ensures Apart(Block(a, alloc'[a]), Block(c, alloc'[c])) {
      if a != hp && c != hp { assert Apart(Block(a, alloc[a]), Block(c, alloc[c])); }
    }
  }

  lemma GrowExact(l: seq<Block>, alloc: map<nat, nat>, arena: set<nat>, hp: nat, n: nat)
    requires Exact(l, alloc, arena) && hp !in alloc
    ensures Exact(l, alloc[hp := n], arena + Range(hp, n))
  {
    hide InFree, InAlloc;
    var alloc' := alloc[hp := n];
    assert alloc' - {hp} == alloc;
    forall u: nat ensures u in arena + Range(hp, n) <==> InFree(l, u) || InAlloc(alloc', u) {
      FreedUnit(alloc', hp, u);
    }
  }

  lemma Below(l: seq<Block>, base: nat, alloc: map<nat, nat>, arena: set<nat>, brk: nat)
    requires Ordered(l, base) && Exact(l, alloc, arena) && base < brk && forall u :: u in arena ==> u < brk
    ensures forall i :: 0 <= i < |l| ==> l[i].End() <= brk && l[i].addr < brk
    ensures forall a :: a in alloc && alloc[a] > 0 ==> a + alloc[a] <= brk
  {
    forall i | 0 <= i < |l| ensures l[i].End() <= brk && l[i].addr < brk {
      if i > 0 { assert Covers(l[i], l[i].End() - 1); assert InFree(l, l[i].End() - 1); }
    }
    forall a | a in alloc && alloc[a] > 0 ensures a + alloc[a] <= brk {
      assert Covers(Block(a, alloc[a]), a + alloc[a] - 1);
      assert InAlloc(alloc, a + alloc[a] - 1);
    }
  }

  lemma FitsAt(l: seq<Block>, k: nat, n: nat)
    requires k < |l| && l[k].size >= n
    ensures Fits(l, n)
  {
  }

  /** A block above the whole list goes last: it is found at freep or right after it. */
  lemma NewestFits(l: seq<Block>, base: nat, j: nat, b: Block)
    requires Ordered(l, base) && Slot(l, j, b.addr) && forall i :: 0 <= i < |l| ==> l[i].addr < b.addr
    ensures var r := Insert(l, j, b);
            j < |r| && r[j].addr == l[j].addr && (r[j].size >= b.size || (j + 1 < |r| && r[j + 1].size >= b.size))
  {
  }

  lemma ListedFacts(ptr: map<nat, nat>, sz: map<nat, nat>, l: seq<Block>, base: nat, q: nat, k: nat)
    requires Ordered(l, base) && Linked(ptr, sz, l) && q < |l| && k == Next(q, |l|)
    ensures l[q].addr in ptr && l[k].addr in ptr && l[k].addr in sz && sz[l[k].addr] == l[k].size && l[q].addr >= base
    ensures l[k].size > 0 ==> k != q && k > 0
  {
    assert Node(ptr, sz, l, q) && Node(ptr, sz, l, k);
    DistinctAddrs(l, base, 0, q);
  }

  /** The element before the carved one stays on the list. */
  lemma CarveKeeps(l: seq<Block>, base: nat, q: nat, k: nat, n: nat)
    requires Ordered(l, base) && q < |l| && k == Next(q, |l|) && 0 < n <= l[k].size
    ensures OnList(Carve(l, k, n), l[q].addr)
  {
    var r := Carve(l, k, n);
    assert k > 0 && q == k - 1;
    assert r[q].addr == l[q].addr;
  }

  lemma FirstList(ptr: map<nat, nat>, sz: map<nat, nat>, base: nat)
    requires base in ptr && ptr[base] == base && base in sz && sz[base] == 0
    ensures HeapOk(ptr, sz, [Block(base, 0)], base, map[], {}) && OnList([Block(base, 0)], base)
    ensures forall n: nat :: n > 0 ==> !Fits([Block(base, 0)], n) && !Fits([], n)
  {
    assert [Block(base, 0)][0].addr == base;
  }

  lemma SameListed(l: seq<Block>, base: nat, k: nat, f: nat)
    requires Ordered(l, base) && k < |l| && f < |l|
    ensures l[k].addr == l[f].addr <==> k == f
  {
    DistinctAddrs(l, base, k, f);
  }

  /** The nodes strictly before k on the way from f's successor are too small. */
  ghost predicate Passed(l: seq<Block>, f: nat, k: nat, n: nat)
    requires f < |l| && k < |l|
  {
    forall i: nat :: i < |l| && Dist(Next(f, |l|), i, |l|) < Dist(Next(f, |l|), k, |l|) ==> l[i].size < n
  }

  lemma PassNone(l: seq<Block>, f: nat, n: nat)
    requires f < |l|
    ensures Passed(l, f, Next(f, |l|), n)
  {
  }

  lemma PassOne(l: seq<Block>, f: nat, k: nat, n: nat)
    requires f < |l| && k < |l| && Passed(l, f, k, n) && l[k].size < n
    ensures k != f ==> Passed(l, f, Next(k, |l|), n)
    ensures k == f ==> !Fits(l, n)
  {
    if k != f {
      forall i: nat | i < |l| && Dist(Next(f, |l|), i, |l|) < Dist(Next(f, |l|), Next(k, |l|), |l|)
        ensures l[i].size < n {
        assert i == k || Dist(Next(f, |l|), i, |l|) < Dist(Next(f, |l|), k, |l|);
      }
    } else {
      forall i: nat | i < |l| ensures l[i].size < n {
        assert i == f || Dist(Next(f, |l|), i, |l|) < Dist(Next(f, |l|), f, |l|);
      }
    }
  }

  /** A block big enough lies between here and freep. */
  ghost predicate Ahead(l: seq<Block>, f: nat, k: nat, n: nat)
    requires f < |l| && k < |l|
  {
    exists t: nat :: t < |l| && Dist(k, t, |l|) <= Dist(k, f, |l|) && l[t].size >= n
  }

  lemma AheadOne(l: seq<Block>, f: nat, k: nat, n: nat)
    requires f < |l| && k < |l| && Ahead(l, f, k, n) && l[k].size < n
    ensures k != f && Ahead(l, f, Next(k, |l|), n)
  {
    var t: nat :| t < |l| && Dist(k, t, |l|) <= Dist(k, f, |l|) && l[t].size >= n;
    Step(k, t, |l|);
    Step(k, f, |l|);
  }

  lemma AheadNew(l: seq<Block>, j: nat, n: nat)
    requires j < |l| && (l[j].size >= n || (j + 1 < |l| && l[j + 1].size >= n))
    ensures Ahead(l, j, Next(j, |l|), n)
  {
    var t := if l[j].size >= n then j else j + 1;
    assert Dist(Next(j, |l|), t, |l|) <= Dist(Next(j, |l|), j, |l|);
  }

  lemma SlotIn(l: seq<Block>, j: nat, a: nat)
    requires Slot(l, j, a)
    ensures j < |l|
  {
  }

  lemma AboveBase(l: seq<Block>, base: nat, j: nat)
    requires Ordered(l, base) && j < |l|
    ensures l[j].addr >= base
  {
    DistinctAddrs(l, base, 0, j);
  }

  lemma DelSlot(l: seq<Block>, base: nat, j: nat, a: nat)
    requires Ordered(l, base) && Slot(l, j, a) && j + 1 < |l|
    ensures Ordered(Del(l, j + 1), base) && Slot(Del(l, j + 1), j, a) && Del(l, j + 1)[j] == l[j]
  {
    hide Del;
    DelOrdered(l, base, j + 1);
  }

  lemma LooseFacts(ptr: map<nat, nat>, sz: map<nat, nat>, l: seq<Block>, j: nat, b: Block)
    requires LinkedBut(ptr, sz, l, j) && Loose(ptr, sz, l, j, b)
    ensures j < |l| && l[j].addr in ptr && l[j].addr in sz && sz[l[j].addr] == l[j].size
    ensures b.addr in ptr && b.addr in sz && sz[b.addr] == b.size
  {
  }

  /** Inserting after element j leaves it on the list. */
  lemma InsertKeeps(l: seq<Block>, j: nat, b: Block)
    requires j < |l|
    ensures OnList(Insert(l, j, b), l[j].addr)
  {
    assert Insert(l, j, b)[j].addr == l[j].addr;
  }

  lemma AllocSlot(l: seq<Block>, base: nat, sz: map<nat, nat>, alloc: map<nat, nat>, a: nat) returns (j: nat)
    requires Ordered(l, base) && AllocOk(l, base, sz, alloc) && a in alloc
    ensures Slot(l, j, a)
  {
    forall i | 0 <= i < |l| ensures l[i].addr != a {
      NotListed(l, base, i, Block(a, alloc[a]));
    }
    j := SlotExists(l, base, a);
  }

  // ---------- conservation ----------

  function TotalFree(l: seq<Block>): nat
  {
    if l == [] then 0 else TotalFree(l[..|l| - 1]) + l[|l| - 1].size
  }

  ghost function TotalAlloc(alloc: map<nat, nat>): nat
  {
    if alloc == map[] then 0 else var a :| a in alloc; alloc[a] + TotalAlloc(alloc - {a})
  }

  lemma {:induction false} FreeSet(l: seq<Block>) returns (s: set<nat>)
    requires forall i, j :: 0 <= i < j < |l| ==> l[i].End() <= l[j].addr
    ensures |s| == TotalFree(l) && forall u :: u in s <==> u >= 0 && InFree(l, u)
    decreases |l|
  {
    if l == [] {
      s := {};
    } else {
      var k := |l| - 1;
      var t := FreeSet(l[..k]);
      var r := Range(l[k].addr, l[k].size);
      assert t !! r;
      s := t + r;
      forall u: nat ensures u in s <==> InFree(l, u) { InFreeLast(l, u); }
    }
  }

  lemma InFreeLast(l: seq<Block>, u: nat)
    requires l != []
    ensures InFree(l, u) <==> InFree(l[..|l| - 1], u) || Covers(l[|l| - 1], u)
  {
    var k := |l| - 1;
    if InFree(l, u) {
      var i :| 0 <= i < |l| && Covers(l[i], u);
      if i < k { assert Covers(l[..k][i], u); }
    }
    if InFree(l[..k], u) {
      var i :| 0 <= i < k && Covers(l[..k][i], u);
      assert Covers(l[i], u);
    }
  }

  lemma {:induction false} AllocSet(alloc: map<nat, nat>) returns (s: set<nat>)
    requires forall a, b :: a in alloc && b in alloc && a != b ==> Apart(Block(a, alloc[a]), Block(b, alloc[b]))
    ensures |s| == TotalAlloc(alloc) && forall u :: u in s <==> u >= 0 && InAlloc(alloc, u)
    decreases |alloc|
  {
    if alloc == map[] {
      s := {};
    } else {
      var a :| a in alloc && TotalAlloc(alloc) == alloc[a] + TotalAlloc(alloc - {a});
      var alloc' := alloc - {a};
      forall c, d | c in alloc' && d in alloc' && c != d ensures Apart(Block(c, alloc'[c]), Block(d, alloc'[d])) {
        assert Apart(Block(c, alloc[c]), Block(d, alloc[d]));
      }
      var t := AllocSet(alloc');
      var r := Range(a, alloc[a]);
      forall u | u in t ensures u !in r {
        var c :| c in alloc' && Covers(Block(c, alloc'[c]), u);
        assert Apart(Block(c, alloc[c]), Block(a, alloc[a]));
      }
      assert t !! r;
      s := t + r;
      forall u: nat ensures u in s <==> InAlloc(alloc, u) {
        FreedUnit(alloc, a, u);
      }
    }
  }

  lemma AllocNotFree(l: seq<Block>, base: nat, sz: map<nat, nat>, alloc: map<nat, nat>, u: nat)
    requires AllocOk(l, base, sz, alloc) && InAlloc(alloc, u)
    ensures !InFree(l, u)
  {
    hide InFree, Clear;
    var c :| c in alloc && Covers(Block(c, alloc[c]), u);
    ClearNot(l, Block(c, alloc[c]), u);
  }

  /** Free plus allocated units are the units obtained from sbrk. */
  lemma UnitsConserved(l: seq<Block>, base: nat, sz: map<nat, nat>, alloc: map<nat, nat>, arena: set<nat>)
    requires Ordered(l, base) && AllocOk(l, base, sz, alloc) && Exact(l, alloc, arena)
    ensures |arena| == TotalFree(l) + TotalAlloc(alloc)
  {
    hide InFree, InAlloc, Clear, Apart, Covers, TotalFree, TotalAlloc;
    var f := FreeSet(l);
    var a := AllocSet(alloc);
    hide Ordered, AllocOk;
    forall u | u in a ensures u !in f { AllocNotFree(l, base, sz, alloc, u); }
    assert f !! a;
    assert arena == f + a;
  }
}
