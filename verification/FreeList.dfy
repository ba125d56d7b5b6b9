/** The free list of umalloc.c as a value: blocks in address order, the zero-sized `base`
    first.  Addresses and sizes count headers (8 bytes). */
module FreeList {

  datatype Block = Block(addr: nat, size: nat) {
    function End(): nat { addr + size }
  }

  /** Address-ordered, starting at base, no block empty but base, no two blocks adjacent. */
  predicate Ordered(l: seq<Block>, base: nat)
  {
    && |l| > 0 && l[0] == Block(base, 0)
    && (forall i :: 1 <= i < |l| ==> l[i].size > 0)
    && (forall i, j :: 0 <= i < j < |l| ==> l[i].End() < l[j].addr)
  }

  predicate Covers(b: Block, u: nat) { b.addr <= u < b.End() }

  predicate InFree(l: seq<Block>, u: nat)
  {
    exists i :: 0 <= i < |l| && Covers(l[i], u)
  }

  /** Where a block at address a belongs: after the last list element below it. */
  predicate Slot(l: seq<Block>, j: nat, a: nat)
  {
    j < |l| && l[j].addr < a && (j + 1 < |l| ==> a < l[j + 1].addr)
  }

  /** Block b overlaps no block of the list. */
  predicate Clear(l: seq<Block>, b: Block)
  {
    forall i :: 0 <= i < |l| ==> l[i].End() <= b.addr || b.End() <= l[i].addr
  }

  predicate JoinsUp(l: seq<Block>, j: nat, b: Block)
  {
    j + 1 < |l| && b.End() == l[j + 1].addr
  }

  predicate JoinsDown(l: seq<Block>, j: nat, b: Block)
    requires j < |l|
  {
    l[j].End() == b.addr
  }

  /** The list without element k. */
  function Del(l: seq<Block>, k: nat): (r: seq<Block>)
    requires k < |l|
    ensures |r| == |l| - 1
    ensures forall i {:trigger r[i]} :: 0 <= i < k ==> r[i] == l[i]
    ensures forall i {:trigger r[i]} :: k <= i < |r| ==> r[i] == l[i + 1]
  {
    l[..k] + l[k + 1..]
  }

  /** The list with b put after element j. */
  function Put(l: seq<Block>, j: nat, b: Block): (r: seq<Block>)
    requires j < |l|
    ensures |r| == |l| + 1 && r[j + 1] == b
    ensures forall i {:trigger r[i]} :: 0 <= i <= j ==> r[i] == l[i]
    ensures forall i {:trigger r[i]} :: j + 1 < i < |r| ==> r[i] == l[i - 1]
  {
    l[..j + 1] + [b] + l[j + 1..]
  }

  /** Insert b after position j, merging with element j if it touches it. */
  function InsertDown(l: seq<Block>, j: nat, b: Block): seq<Block>
    requires j < |l|
  {
    if JoinsDown(l, j, b) then l[j := Block(l[j].addr, l[j].size + b.size)] else Put(l, j, b)
  }

  /** `free`: insert b after position j, merging with either neighbour it touches. */
  function Insert(l: seq<Block>, j: nat, b: Block): seq<Block>
    requires j < |l|
  {
    if JoinsUp(l, j, b) then InsertDown(Del(l, j + 1), j, Block(b.addr, b.size + l[j + 1].size))
    else InsertDown(l, j, b)
  }

  lemma InsertOrdered(l: seq<Block>, base: nat, j: nat, b: Block)
    requires Ordered(l, base) && Slot(l, j, b.addr) && Clear(l, b) && b.size > 0
    ensures Ordered(Insert(l, j, b), base)
  {
    Neighbours(l, base, j, b);
    InsertBetween(l, base, j, b);
  }

  lemma InsertBetween(l: seq<Block>, base: nat, j: nat, b: Block)
    requires Ordered(l, base) && j < |l| && b.size > 0
    requires l[j].End() <= b.addr && (j + 1 < |l| ==> b.End() <= l[j + 1].addr)
    requires (j == 0 ==> !JoinsDown(l, j, b)) && (j + 2 < |l| ==> l[j + 1].End() < l[j + 2].addr)
    ensures Ordered(Insert(l, j, b), base)
  {
    hide Ordered, Del, InsertDown;
    if JoinsUp(l, j, b) {
      InsertUp(l, base, j, b);
      assert Insert(l, j, b) == InsertDown(Del(l, j + 1), j, Block(b.addr, b.size + l[j + 1].size));
    } else {
      InsertApart(l, base, j, b);
      assert Insert(l, j, b) == InsertDown(l, j, b);
    }
  }

  lemma InsertUp(l: seq<Block>, base: nat, j: nat, b: Block)
    requires Ordered(l, base) && b.size > 0 && JoinsUp(l, j, b)
    requires l[j].End() <= b.addr && (j == 0 ==> !JoinsDown(l, j, b))
      && (j + 2 < |l| ==> l[j + 1].End() < l[j + 2].addr)
    ensures Ordered(InsertDown(Del(l, j + 1), j, Block(b.addr, b.size + l[j + 1].size)), base)
  {
    DelOrdered(l, base, j + 1);
    DelNeighbours(l, j);
    var l1, b1 := Del(l, j + 1), Block(b.addr, b.size + l[j + 1].size);
    hide Del, Ordered, InsertDown;
    assert j + 1 < |l1| ==> b1.End() < l1[j + 1].addr;
    InsertApart(l1, base, j, b1);
  }

  lemma DelNeighbours(l: seq<Block>, j: nat)
    requires j + 1 < |l|
    ensures Del(l, j + 1)[j] == l[j]
    ensures j + 2 < |l| ==> Del(l, j + 1)[j + 1] == l[j + 2]
  {
  }

  lemma Neighbours(l: seq<Block>, base: nat, j: nat, b: Block)
    requires Ordered(l, base) && Slot(l, j, b.addr) && Clear(l, b) && b.size > 0
    ensures l[j].End() <= b.addr && (j + 1 < |l| ==> b.End() <= l[j + 1].addr)
    ensures j == 0 ==> !JoinsDown(l, j, b)
    ensures j + 2 < |l| ==> l[j + 1].End() < l[j + 2].addr
  {
  }

  /** Insert b, which does not touch the element after it. */
  lemma InsertApart(l: seq<Block>, base: nat, j: nat, b: Block)
    requires Ordered(l, base) && j < |l| && b.size > 0
    requires l[j].End() <= b.addr && (j + 1 < |l| ==> b.End() < l[j + 1].addr) && (j == 0 ==> !JoinsDown(l, j, b))
    ensures Ordered(InsertDown(l, j, b), base)
  {
    hide Put;
  }

  lemma DelOrdered(l: seq<Block>, base: nat, k: nat)
    requires Ordered(l, base) && 0 < k < |l|
    ensures Ordered(Del(l, k), base)
  {
    hide Del;
  }

  /** Inserting adds exactly the units of b. */
  lemma InsertUnits(l: seq<Block>, j: nat, b: Block, u: nat)
    requires j < |l|
    ensures InFree(Insert(l, j, b), u) <==> InFree(l, u) || Covers(b, u)
  {
    hide Del, InFree;
    if JoinsUp(l, j, b) {
      DelUnits(l, j + 1, u);
      InsertDownUnits(Del(l, j + 1), j, Block(b.addr, b.size + l[j + 1].size), u);
    } else {
      InsertDownUnits(l, j, b, u);
    }
  }

  lemma InsertDownUnits(l: seq<Block>, j: nat, b: Block, u: nat)
    requires j < |l|
    ensures InFree(InsertDown(l, j, b), u) <==> InFree(l, u) || Covers(b, u)
  {
    hide Put, InFree;
    if JoinsDown(l, j, b) {
      SetUnits(l, j, Block(l[j].addr, l[j].size + b.size), b, u);
    } else {
      PutUnits(l, j, b, u);
    }
  }

  lemma DelUnits(l: seq<Block>, k: nat, u: nat)
    requires k < |l|
    ensures InFree(l, u) <==> InFree(Del(l, k), u) || Covers(l[k], u)
  {
    hide Del;
    var r := Del(l, k);
    if InFree(l, u) && !Covers(l[k], u) {
      var i :| 0 <= i < |l| && Covers(l[i], u);
      assert Covers(r[if i < k then i else i - 1], u);
    }
  }

  lemma PutUnits(l: seq<Block>, j: nat, b: Block, u: nat)
    requires j < |l|
    ensures InFree(Put(l, j, b), u) <==> InFree(l, u) || Covers(b, u)
  {
    hide Put;
    var r := Put(l, j, b);
    if InFree(l, u) {
      var i :| 0 <= i < |l| && Covers(l[i], u);
      assert Covers(r[if i <= j then i else i + 1], u);
    }
    if Covers(b, u) { assert Covers(r[j + 1], u); }
  }

  /** Replacing element j by a block that covers it and b exactly. */
  lemma SetUnits(l: seq<Block>, j: nat, c: Block, b: Block, u: nat)
    requires j < |l| && (Covers(c, u) <==> Covers(l[j], u) || Covers(b, u))
    ensures InFree(l[j := c], u) <==> InFree(l, u) || Covers(b, u)
  {
    var r := l[j := c];
    if InFree(l, u) {
      var i :| 0 <= i < |l| && Covers(l[i], u);
      assert Covers(r[i], u);
    }
    if Covers(b, u) { assert Covers(r[j], u); }
  }

  /** `malloc`: take n units from the tail of element k. */
  function Carve(l: seq<Block>, k: nat, n: nat): seq<Block>
    requires k < |l| && n <= l[k].size
  {
    if l[k].size == n then Del(l, k) else l[k := Block(l[k].addr, l[k].size - n)]
  }

  /** The block that `malloc` carves. */
  function Carved(l: seq<Block>, k: nat, n: nat): Block
    requires k < |l| && n <= l[k].size
  {
    Block(l[k].End() - n, n)
  }

  lemma CarveOrdered(l: seq<Block>, base: nat, k: nat, n: nat)
    requires Ordered(l, base) && k < |l| && 0 < n <= l[k].size
    ensures k > 0 && Ordered(Carve(l, k, n), base)
    ensures Clear(Carve(l, k, n), Carved(l, k, n))
  {
    hide Del;
  }

  lemma CarveUnits(l: seq<Block>, k: nat, n: nat, u: nat)
    requires k < |l| && 0 < n <= l[k].size
    ensures InFree(l, u) <==> InFree(Carve(l, k, n), u) || Covers(Carved(l, k, n), u)
  {
    hide Del, InFree;
    if l[k].size == n {
      DelUnits(l, k, u);
    } else {
      var c := Carve(l, k, n);
      SetUnits(c, k, l[k], Carved(l, k, n), u);
      assert c[k := l[k]] == l;
    }
  }

  // ---------- positions on the circular list ----------

  function Next(i: nat, n: nat): nat
    requires i < n
  {
    if i + 1 == n then 0 else i + 1
  }

  /** Steps from i to j around a circle of n. */
  function Dist(i: nat, j: nat, n: nat): nat
    requires i < n && j < n
  {
    if i <= j then j - i else j + n - i
  }

  lemma Step(i: nat, j: nat, n: nat)
    requires i < n && j < n && i != j
    ensures Dist(Next(i, n), j, n) == Dist(i, j, n) - 1
  {
  }
}
