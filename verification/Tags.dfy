/** The tag table of an inode (fs.c): one 512-byte block of 40-byte slots, each a key of up to nine
    bytes and a value of up to 29, NUL-padded; a slot that starts with NUL is a hole. */
module Tags {
  import opened Sectors

  const SLOT := 40
  const KEYSIZE := 10
  const NSLOTS := 12

  type Bytes = seq<byte>

  /** A C string: no NUL inside. */
  predicate CString(s: Bytes)
  {
    forall i :: 0 <= i < |s| ==> s[i] != 0
  }

  predicate KeyOk(key: Bytes) { CString(key) && 1 <= |key| < KEYSIZE }

  predicate ValOk(val: Bytes) { CString(val) && |val| < SLOT - KEYSIZE }

  /** What a pointer to position p reads. */
  function Str(d: Bytes, p: nat): Bytes
    decreases |d| - p
  {
    if p < |d| && d[p] != 0 then [d[p]] + Str(d, p + 1) else []
  }

  /** d holds the C string t at position p. */
  predicate Holds(d: Bytes, p: nat, t: Bytes)
  {
    CString(t) && p + |t| < |d| && d[p..p + |t|] == t && d[p + |t|] == 0
  }

  lemma {:induction false} HoldsStr(d: Bytes, p: nat, t: Bytes)
    requires Holds(d, p, t)
    ensures Str(d, p) == t
    decreases |t|
  {
    if t != [] {
      assert d[p] == d[p..p + |t|][0] == t[0];
      assert d[p + 1..p + 1 + |t[1..]|] == d[p..p + |t|][1..] == t[1..];
      HoldsStr(d, p + 1, t[1..]);
    }
  }

  // ---------- the table as a map ----------

  predicate Used(d: Bytes, k: nat)
    requires |d| == BSIZE && k < NSLOTS
  {
    d[SLOT * k] != 0
  }

  /** Position p is that of a free slot. */
  predicate Hole(d: Bytes, p: int)
    requires |d| == BSIZE
  {
    0 <= p < SLOT * NSLOTS && p % SLOT == 0 && !Used(d, p / SLOT)
  }

  function Count(d: Bytes, n: nat): nat
    requires |d| == BSIZE && n <= NSLOTS
    ensures Count(d, n) <= n
  {
    if n == 0 then 0 else Count(d, n - 1) + if Used(d, n - 1) then 1 else 0
  }

  /** Slot k holds the tag (key, val). */
  predicate Holding(d: Bytes, k: nat, key: Bytes, val: Bytes)
    requires |d| == BSIZE && k < NSLOTS
  {
    KeyOk(key) && ValOk(val) && Holds(d, SLOT * k, key) && Holds(d, SLOT * k + KEYSIZE, val)
  }

  predicate InSlot(where: map<Bytes, nat>, key: Bytes, k: nat) { key in where && where[key] == k }

  ghost predicate Filled(where: map<Bytes, nat>, k: nat) { exists key :: InSlot(where, key, k) }

  lemma HoldingUsed(d: Bytes, k: nat, key: Bytes, val: Bytes)
    requires |d| == BSIZE && k < NSLOTS && Holding(d, k, key, val)
    ensures Used(d, k)
  {
    assert d[SLOT * k] == d[SLOT * k..SLOT * k + |key|][0] == key[0];
  }

  /** where says which slot each key is in; the other slots are holes. */
  ghost predicate Represents(d: Bytes, m: map<Bytes, Bytes>, where: map<Bytes, nat>)
  {
    && |d| == BSIZE && where.Keys == m.Keys
    && (forall key :: key in m ==> where[key] < NSLOTS && Holding(d, where[key], key, m[key]))
    && (forall k: nat :: k < NSLOTS && Used(d, k) ==> Filled(where, k))
  }

  /** Two keys are never in one slot. */
  lemma OneSlotEach(d: Bytes, m: map<Bytes, Bytes>, where: map<Bytes, nat>, x: Bytes, y: Bytes)
    requires Represents(d, m, where) && x in m && y in m && where[x] == where[y]
    ensures x == y
  {
    HoldsStr(d, SLOT * where[x], x);
    HoldsStr(d, SLOT * where[y], y);
  }

  lemma CountStrict(d: Bytes, n: nat, k: nat)
    requires |d| == BSIZE && n <= k < NSLOTS && Used(d, k)
    ensures Count(d, n) < Count(d, NSLOTS)
  {
    CountMono(d, n, k);
    CountMono(d, k + 1, NSLOTS);
  }

  lemma {:induction false} CountMono(d: Bytes, a: nat, b: nat)
    requires |d| == BSIZE && a <= b <= NSLOTS
    ensures Count(d, a) <= Count(d, b)
  {
    if a < b { CountMono(d, a, b - 1); }
  }

  /** Changing slot e alone. */
  lemma {:induction false} CountUpdate(d: Bytes, d': Bytes, n: nat, e: nat)
    requires |d| == |d'| == BSIZE && n <= NSLOTS && e < NSLOTS
    requires forall k: nat :: k < NSLOTS && k != e ==> (Used(d, k) <==> Used(d', k))
    ensures Count(d', n) == Count(d, n) + if e < n then
      (if Used(d', e) then 1 else 0) - (if Used(d, e) then 1 else 0) else 0
  {
    if n > 0 { CountUpdate(d, d', n - 1, e); }
  }

  /** A table that differs from d only inside slot e. */
  predicate OnlySlot(d: Bytes, d': Bytes, e: nat)
  {
    && |d| == |d'| == BSIZE && e < NSLOTS
    && (forall i :: 0 <= i < BSIZE && !(SLOT * e <= i < SLOT * e + SLOT) ==> d'[i] == d[i])
  }

  lemma HoldsElsewhere(d: Bytes, d': Bytes, e: nat, p: nat, t: Bytes)
    requires OnlySlot(d, d', e) && Holds(d, p, t) && (p + |t| < SLOT * e || SLOT * e + SLOT <= p)
    ensures Holds(d', p, t)
  {
    assert d'[p..p + |t|] == d[p..p + |t|];
  }

  lemma HoldingElsewhere(d: Bytes, d': Bytes, e: nat, k: nat, key: Bytes, val: Bytes)
    requires OnlySlot(d, d', e) && k < NSLOTS && k != e && Holding(d, k, key, val)
    ensures Holding(d', k, key, val)
  {
    HoldsElsewhere(d, d', e, SLOT * k, key);
    HoldsElsewhere(d, d', e, SLOT * k + KEYSIZE, val);
  }

  lemma UsedElsewhere(d: Bytes, d': Bytes, e: nat)
    requires OnlySlot(d, d', e)
    ensures forall k: nat :: k < NSLOTS && k != e ==> (Used(d, k) <==> Used(d', k))
  {
  }

  /** A tag written into a hole. */
  lemma InsertRepresents(d: Bytes, d': Bytes, m: map<Bytes, Bytes>, where: map<Bytes, nat>, e: nat, key: Bytes,
                         val: Bytes)
    requires Represents(d, m, where) && OnlySlot(d, d', e) && !Used(d, e) && key !in m && Holding(d', e, key, val)
    ensures Represents(d', m[key := val], where[key := e])
    ensures Count(d', NSLOTS) == Count(d, NSLOTS) + 1
  {
    hide Holding, OnlySlot, Used, Count;
    Sized(d, d', e);
    var m', where' := m[key := val], where[key := e];
    UsedElsewhere(d, d', e);
    HoldingUsed(d', e, key, val);
    forall x | x in m' ensures where'[x] < NSLOTS && Holding(d', where'[x], x, m'[x]) {
      if x != key {
        HoldingUsed(d, where[x], x, m[x]);
        HoldingElsewhere(d, d', e, where[x], x, m[x]);
      }
    }
    forall k: nat | k < NSLOTS && Used(d', k) ensures Filled(where', k) {
      if k == e {
        assert InSlot(where', key, k);
      } else {
        assert Used(d, k);
        var x :| InSlot(where, x, k);
        assert InSlot(where', x, k);
      }
    }
    CountUpdate(d, d', NSLOTS, e);
  }

  lemma Sized(d: Bytes, d': Bytes, e: nat)
    requires OnlySlot(d, d', e)
    ensures |d| == |d'| == BSIZE && e < NSLOTS
  {
  }

  /** A tag whose value is written over. */
  lemma OverwriteRepresents(d: Bytes, d': Bytes, m: map<Bytes, Bytes>, where: map<Bytes, nat>, key: Bytes, val: Bytes)
    requires Represents(d, m, where) && key in m && OnlySlot(d, d', where[key]) && Holding(d', where[key], key, val)
    ensures Represents(d', m[key := val], where)
    ensures Count(d', NSLOTS) == Count(d, NSLOTS)
  {
    hide Holding, OnlySlot, Used, Count;
    var e, m' := where[key], m[key := val];
    Sized(d, d', e);
    UsedElsewhere(d, d', e);
    HoldingUsed(d', e, key, val);
    HoldingUsed(d, e, key, m[key]);
    forall x | x in m' ensures where[x] < NSLOTS && Holding(d', where[x], x, m'[x]) {
      if x != key {
        if where[x] == e { OneSlotEach(d, m, where, x, key); }
        HoldingElsewhere(d, d', e, where[x], x, m[x]);
      }
    }
    forall k: nat | k < NSLOTS && Used(d', k) ensures Filled(where, k) {
      if k == e { assert InSlot(where, key, k); } else { assert Used(d, k); }
    }
    CountUpdate(d, d', NSLOTS, e);
  }

  /** A tag whose slot is cleared. */
  lemma DeleteRepresents(d: Bytes, d': Bytes, m: map<Bytes, Bytes>, where: map<Bytes, nat>, key: Bytes)
    requires Represents(d, m, where) && key in m && OnlySlot(d, d', where[key]) && !Used(d', where[key])
    ensures Represents(d', m - {key}, where - {key})
    ensures Count(d', NSLOTS) == Count(d, NSLOTS) - 1
  {
    hide Holding, OnlySlot, Used, Count;
    var e, m', where' := where[key], m - {key}, where - {key};
    Sized(d, d', e);
    UsedElsewhere(d, d', e);
    HoldingUsed(d, e, key, m[key]);
    forall x | x in m' ensures where'[x] < NSLOTS && Holding(d', where'[x], x, m'[x]) {
      if where[x] == e { OneSlotEach(d, m, where, x, key); }
      HoldingElsewhere(d, d', e, where[x], x, m[x]);
    }
    forall k: nat | k < NSLOTS && Used(d', k) ensures Filled(where', k) {
      assert Used(d, k);
      var x :| InSlot(where, x, k);
      assert InSlot(where', x, k);
    }
    CountUpdate(d, d', NSLOTS, e);
  }

  // ---------- fs.c ----------

  /** d with n NULs written at p. */
  function Cleared(d: Bytes, p: nat, n: nat): Bytes
    requires p + n <= |d|
  {
    d[..p] + seq(n, i => 0) + d[p + n..]
  }

  /** d with s written at p. */
  function Patched(d: Bytes, p: nat, s: Bytes): Bytes
    requires p + |s| <= |d|
  {
    d[..p] + s + d[p + |s|..]
  }

  /** How a scan for a key ends. */
  datatype Look = Hit | Miss | Beyond

  /** The tags block of an inode and the two inode fields about it. */
  class TagTable {
    const data: array<byte>
    var tags: bool               // a block has been allocated
    var counter: nat             // tags_counter
    ghost var m: map<Bytes, Bytes>
    ghost var where: map<Bytes, nat>

    ghost predicate Valid()
      reads this, data
    {
      && data.Length == BSIZE && counter == |m|
      && (!tags ==> m == map[])
      && (tags ==> Represents(data[..], m, where) && counter == Count(data[..], NSLOTS))
    }

    constructor ()
      ensures Valid() && fresh(data) && m == map[]
    {
      data := new byte[BSIZE];
      tags, counter, m, where := false, 0, map[], map[];
    }

    method Memset(p: nat, n: nat)
      requires p + n <= data.Length
      modifies data
      ensures data[..] == Cleared(old(data[..]), p, n)
    {
      for i := 0 to n
        invariant forall k :: 0 <= k < data.Length ==> data[k] == if p <= k < p + i then 0 else old(data[k])
      {
        data[p + i] := 0;
      }
    }

    method Memmove(p: nat, s: Bytes)
      requires p + |s| <= data.Length
      modifies data
      ensures data[..] == Patched(old(data[..]), p, s)
    {
      for i := 0 to |s|
        invariant forall k :: 0 <= k < data.Length ==> data[k] == if p <= k < p + i then s[k - p] else old(data[k])
      {
        data[p + i] := s[i];
      }
    }

    /** strlen of the slot against strlen(key), then memcmp. */
    method SameKey(j: nat, key: Bytes, ghost t: Bytes) returns (same: bool)
      requires Holds(data[..], j, t)
      ensures same <==> t == key
    {
      var n := 0;
      forall k | 0 <= k < |t| ensures t[k] == data[j + k] { assert t[k] == data[..][j..j + |t|][k]; }
      while data[j + n] != 0
        invariant n <= |t|
        decreases |t| - n
      {
        n := n + 1;
      }
      if n != |key| { return false; }
      for k := 0 to n
        invariant forall l :: 0 <= l < k ==> t[l] == key[l]
      {
        if data[j + k] != key[k] { return false; }
      }
      same := true;
    }

    /** The scan all three operations make, whatever the counter: i counts tags seen, not slots, so
        a hole does not advance it.  It hits the key exactly if it gets that far, and runs beyond the
        slots of the block exactly if it does not and the counter exceeds the number of tags. */
    method Search(key: Bytes) returns (r: Look, j: nat, empty: int)
      requires data.Length == BSIZE && Represents(data[..], m, where) && key != []
      ensures r == Hit <==> key in m && where[key] < NSLOTS && Count(data[..], where[key]) < counter
      ensures r == Beyond <==> r != Hit && Count(data[..], NSLOTS) < counter
      ensures r == Hit ==> j == SLOT * where[key]
      ensures r == Miss ==>
        j % SLOT == 0 && j / SLOT <= NSLOTS && Count(data[..], j / SLOT) == counter && Unseen(where, key, j / SLOT)
      ensures r == Miss && empty == -1 ==> j == SLOT * counter
      ensures empty != -1 ==> Hole(data[..], empty)
    {
      hide Represents, Holding, Hole;
      ghost var d := data[..];
      var i := 0;
      j, empty := 0, -1;
      ghost var n := 0;
      while i < counter
        invariant n <= NSLOTS && j == SLOT * n && i == Count(d, n) <= counter && Unseen(where, key, n)
        invariant empty == -1 ==> i == n
        invariant empty != -1 ==> Hole(d, empty)
        decreases NSLOTS - n
      {
        if j == SLOT * NSLOTS {
          UnseenAll(d, m, where, key);
          return Beyond, j, empty;
        }
        ghost var t := SlotKey(d, m, where, n, key);
        var same := SameKey(j, key, t);
        if same {
          KeyAt(d, m, where, key);
          return Hit, j, empty;
        }
        if data[j] == 0 {
          if empty == -1 { empty := j; HoleAt(d, n); }
          i := i - 1;
        }
        i := i + 1;
        j := j + SLOT;
        n := n + 1;
      }
      r := Miss;
      CountMono(d, n, NSLOTS);
      if key in m { UnseenLater(d, m, where, key, n); }
    }

    /** The scan with the counter right: it finds the key exactly when it is there, stops inside the
        block, and knows a free slot. */
    method Scan(key: Bytes) returns (found: bool, j: nat, empty: int)
      requires Valid() && tags && key != []
      ensures found <==> key in m
      ensures found ==> where[key] < NSLOTS && j == SLOT * where[key]
      ensures !found && empty == -1 ==>
        j == SLOT * counter && counter <= NSLOTS && (counter < NSLOTS ==> Hole(data[..], j))
      ensures !found && empty != -1 ==> Hole(data[..], empty)
    {
      hide Represents, Holding;
      ghost var d := data[..];
      var r;
      r, j, empty := Search(key);
      found := r == Hit;
      if r == Miss {
        ScanDone(d, m, where, j / SLOT, key);
        if j / SLOT < NSLOTS && Used(d, j / SLOT) { CountStrict(d, j / SLOT, j / SLOT); }
      }
    }

    /** Writes a value into the slot of its key. */
    method PutValue(j: nat, key: Bytes, val: Bytes)
      requires data.Length == BSIZE && Represents(data[..], m, where) && key in m && ValOk(val)
      requires where[key] < NSLOTS && j == SLOT * where[key]
      modifies data
      ensures Represents(data[..], m[key := val], where)
      ensures Count(data[..], NSLOTS) == old(Count(data[..], NSLOTS))
    {
      hide Represents, Holding, OnlySlot, Count;
      ghost var d := data[..];
      Memset(j + KEYSIZE, SLOT - KEYSIZE);
      Memmove(j + KEYSIZE, val);
      KeyHeld(d, m, where, key);
      ValueWritten(d, data[..], where[key], key, m[key], val);
      OverwriteRepresents(d, data[..], m, where, key, val);
    }

    /** Writes a new tag into a free slot. */
    method PutTag(empty: nat, key: Bytes, val: Bytes)
      requires data.Length == BSIZE && Represents(data[..], m, where) && key !in m && KeyOk(key) && ValOk(val)
      requires Hole(data[..], empty)
      modifies data
      ensures Represents(data[..], m[key := val], where[key := empty / SLOT])
      ensures Count(data[..], NSLOTS) == old(Count(data[..], NSLOTS)) + 1
    {
      hide Represents, Holding, OnlySlot, Count;
      ghost var d := data[..];
      Memset(empty, SLOT);
      Memmove(empty, key);
      Memmove(empty + KEYSIZE, val);
      TagWritten(d, data[..], empty / SLOT, key, val);
      InsertRepresents(d, data[..], m, where, empty / SLOT, key, val);
    }

    /** `fs_ftag`.  The table is a map insert; the counter is right again exactly when the key is new. */
    method Ftag(key: Bytes, val: Bytes)
      requires Valid() && KeyOk(key) && ValOk(val) && (key in m || |m| < NSLOTS)
      modifies this, data
      ensures tags && m == old(m)[key := val]
      ensures data.Length == BSIZE && Represents(data[..], m, where) && Count(data[..], NSLOTS) == |m|
      ensures counter == old(counter) + 1
      ensures Valid() <==> key !in old(m)
    {
      hide Represents, Count, Hole;
      if counter == 0 && !tags {
        tags := true;
        Memset(0, BSIZE);
        where := map[];
        BlankTable(data[..]);
      }
      var found, j, empty := Scan(key);
      counter := counter + 1;
      if found {
        PutValue(j, key, val);
        m := m[key := val];
        return;
      }
      if empty == -1 { empty := j; }
      HoleBounds(data[..], empty);
      PutTag(empty, key, val);
      m, where := m[key := val], where[key := empty / SLOT];
    }

    /** `fs_funtag`: a map delete. */
    method Funtag(key: Bytes) returns (r: int)
      requires Valid() && key != []
      modifies this, data
      ensures Valid() && m == old(m) - {key}
      ensures r == if key in old(m) then 0 else -1
    {
      hide Represents, OnlySlot, Count;
      if counter == 0 || !tags {
        assert m == map[];
        return -1;
      }
      var found, j, _ := Scan(key);
      if found {
        ghost var d := data[..];
        KeyHeld(d, m, where, key);
        Memset(j, SLOT);
        counter := counter - 1;
        SlotCleared(d, data[..], where[key]);
        DeleteRepresents(d, data[..], m, where, key);
        m, where := m - {key}, where - {key};
        return 0;
      }
      assert m - {key} == m;
      r := -1;
    }

    /** `fs_gettag`: a map lookup; the value's length, and 30 bytes that read as the value. */
    method Gettag(key: Bytes) returns (r: int, buf: Bytes)
      requires Valid() && key != []
      ensures key in m ==> Str(buf, 0) == m[key] && r == |m[key]|
      ensures key !in m ==> r == -1
    {
      hide Represents, Count, Holding, Str;
      if counter == 0 || !tags { return -1, []; }
      var found, j, _ := Scan(key);
      if !found { return -1, []; }
      buf := data[j + KEYSIZE..j + SLOT];
      KeyHeld(data[..], m, where, key);
      ValueRead(data[..], where[key], key, m[key], buf);
      HoldsStr(buf, 0, m[key]);
      r := Strlen(buf, m[key]);
    }
  }

  method Strlen(buf: Bytes, ghost t: Bytes) returns (r: nat)
    requires Holds(buf, 0, t)
    ensures r == |t|
  {
    forall k | 0 <= k < |t| ensures t[k] == buf[k] { assert t[k] == buf[0..|t|][k]; }
    r := 0;
    while buf[r] != 0
      invariant r <= |t|
      decreases |t| - r
    {
      r := r + 1;
    }
  }

  lemma KeyHeld(d: Bytes, m: map<Bytes, Bytes>, where: map<Bytes, nat>, key: Bytes)
    requires Represents(d, m, where) && key in m
    ensures key in where && where[key] < NSLOTS && |d| == BSIZE && Holding(d, where[key], key, m[key])
  {
  }

  lemma HoleBounds(d: Bytes, p: int)
    requires |d| == BSIZE && Hole(d, p)
    ensures 0 <= p < SLOT * NSLOTS && p == SLOT * (p / SLOT)
  {
  }

  lemma ValueRead(d: Bytes, e: nat, key: Bytes, val: Bytes, buf: Bytes)
    requires |d| == BSIZE && e < NSLOTS && Holding(d, e, key, val) && buf == d[SLOT * e + KEYSIZE..SLOT * e + SLOT]
    ensures Holds(buf, 0, val)
  {
    assert buf[0..|val|] == d[SLOT * e + KEYSIZE..SLOT * e + KEYSIZE + |val|];
  }

  lemma BlankTable(d: Bytes)
    requires |d| == BSIZE && forall i :: 0 <= i < BSIZE ==> d[i] == 0
    ensures Represents(d, map[], map[]) && Count(d, NSLOTS) == 0
  {
    NoneUsed(d, NSLOTS);
  }

  lemma {:induction false} NoneUsed(d: Bytes, n: nat)
    requires |d| == BSIZE && n <= NSLOTS && forall i :: 0 <= i < BSIZE ==> d[i] == 0
    ensures Count(d, n) == 0
  {
    if n > 0 { NoneUsed(d, n - 1); }
  }

  lemma PatchedAt(d: Bytes, p: nat, s: Bytes, i: nat)
    requires p + |s| <= |d| && i < |d|
    ensures |Patched(d, p, s)| == |d| && Patched(d, p, s)[i] == if p <= i < p + |s| then s[i - p] else d[i]
  {
  }

  lemma ClearedAt(d: Bytes, p: nat, n: nat, i: nat)
    requires p + n <= |d| && i < |d|
    ensures |Cleared(d, p, n)| == |d| && Cleared(d, p, n)[i] == if p <= i < p + n then 0 else d[i]
  {
  }

  lemma PatchedHolds(d: Bytes, p: nat, s: Bytes)
    requires CString(s) && p + |s| < |d| && d[p + |s|] == 0
    ensures Holds(Patched(d, p, s), p, s)
  {
    hide CString;
    PatchedAt(d, p, s, p + |s|);
    assert Patched(d, p, s)[p..p + |s|] == s;
  }

  /** A string that ends before what is written stays. */
  lemma HoldsBefore(d: Bytes, p: nat, t: Bytes, q: nat, s: Bytes)
    requires Holds(d, p, t) && p + |t| < q && q + |s| <= |d|
    ensures Holds(Patched(d, q, s), p, t)
  {
    hide CString;
    PatchedAt(d, q, s, p + |t|);
    assert Patched(d, q, s)[p..p + |t|] == d[p..p + |t|];
  }

  lemma ClearedHolds(d: Bytes, p: nat, t: Bytes, q: nat, n: nat)
    requires Holds(d, p, t) && p + |t| < q && q + n <= |d|
    ensures Holds(Cleared(d, q, n), p, t)
  {
    hide CString;
    ClearedAt(d, q, n, p + |t|);
    assert Cleared(d, q, n)[p..p + |t|] == d[p..p + |t|];
  }

  lemma TagWritten(d: Bytes, d': Bytes, e: nat, key: Bytes, val: Bytes)
    requires |d| == BSIZE && e < NSLOTS && KeyOk(key) && ValOk(val)
    requires d' == Patched(Patched(Cleared(d, SLOT * e, SLOT), SLOT * e, key), SLOT * e + KEYSIZE, val)
    ensures OnlySlot(d, d', e) && Holding(d', e, key, val)
  {
    hide Patched, Cleared, Holds, CString;
    var p := SLOT * e;
    ClearedAt(d, p, SLOT, p);
    var d1 := Cleared(d, p, SLOT);
    PatchedAt(d1, p, key, p);
    var d2 := Patched(d1, p, key);
    ClearedAt(d, p, SLOT, p + |key|);
    PatchedHolds(d1, p, key);
    HoldsBefore(d2, p, key, p + KEYSIZE, val);
    ClearedAt(d, p, SLOT, p + KEYSIZE + |val|);
    PatchedAt(d1, p, key, p + KEYSIZE + |val|);
    PatchedHolds(d2, p + KEYSIZE, val);
    forall i | 0 <= i < BSIZE && !(p <= i < p + SLOT) ensures |d'| == BSIZE && d'[i] == d[i] {
      ClearedAt(d, p, SLOT, i);
      PatchedAt(d1, p, key, i);
      PatchedAt(d2, p + KEYSIZE, val, i);
    }
    PatchedAt(d2, p + KEYSIZE, val, p);
  }

  lemma ValueWritten(d: Bytes, d': Bytes, e: nat, key: Bytes, was: Bytes, val: Bytes)
    requires |d| == BSIZE && e < NSLOTS && Holding(d, e, key, was) && ValOk(val)
    requires d' == Patched(Cleared(d, SLOT * e + KEYSIZE, SLOT - KEYSIZE), SLOT * e + KEYSIZE, val)
    ensures OnlySlot(d, d', e) && Holding(d', e, key, val)
  {
    hide Patched, Cleared, Holds, CString;
    var p, n := SLOT * e, SLOT - KEYSIZE;
    var q := p + KEYSIZE;
    ClearedAt(d, q, n, q + |val|);
    var d1 := Cleared(d, q, n);
    ClearedHolds(d, p, key, q, n);
    HoldsBefore(d1, p, key, q, val);
    PatchedHolds(d1, q, val);
    forall i | 0 <= i < BSIZE && !(p <= i < p + SLOT) ensures |d'| == BSIZE && d'[i] == d[i] {
      ClearedAt(d, q, n, i);
      PatchedAt(d1, q, val, i);
    }
    PatchedAt(d1, q, val, p);
  }

  lemma SlotCleared(d: Bytes, d': Bytes, e: nat)
    requires |d| == BSIZE && e < NSLOTS && d' == Cleared(d, SLOT * e, SLOT)
    ensures OnlySlot(d, d', e) && !Used(d', e)
  {
  }

  /** The key in slot n, empty for a hole. */
  lemma SlotKey(d: Bytes, m: map<Bytes, Bytes>, where: map<Bytes, nat>, n: nat, key: Bytes) returns (t: Bytes)
    requires Represents(d, m, where) && n < NSLOTS && key != []
    ensures Holds(d, SLOT * n, t) && (Used(d, n) <==> t != [])
    ensures t == key <==> InSlot(where, key, n)
    ensures InSlot(where, key, n) ==> key in m
  {
    if Used(d, n) {
      t :| InSlot(where, t, n);
      assert Holding(d, n, t, m[t]);
      if InSlot(where, key, n) { OneSlotEach(d, m, where, t, key); }
    } else {
      t := [];
      if InSlot(where, key, n) { HoldingUsed(d, n, key, m[key]); }
    }
  }

  /** Once every tag has been counted, the key is nowhere further on. */
  lemma ScanDone(d: Bytes, m: map<Bytes, Bytes>, where: map<Bytes, nat>, n: nat, key: Bytes)
    requires Represents(d, m, where) && n <= NSLOTS && Count(d, n) >= Count(d, NSLOTS) && Unseen(where, key, n)
    ensures key !in m
  {
    if key in m {
      HoldingUsed(d, where[key], key, m[key]);
      assert InSlot(where, key, where[key]);
      CountStrict(d, n, where[key]);
    }
  }

  /** The key is in none of the first n slots. */
  predicate Unseen(where: map<Bytes, nat>, key: Bytes, n: nat)
  {
    forall k: nat :: k < n ==> !InSlot(where, key, k)
  }

  lemma UnseenAll(d: Bytes, m: map<Bytes, Bytes>, where: map<Bytes, nat>, key: Bytes)
    requires Represents(d, m, where) && Unseen(where, key, NSLOTS)
    ensures key !in m
  {
    if key in m { assert InSlot(where, key, where[key]); }
  }

  lemma UnseenLater(d: Bytes, m: map<Bytes, Bytes>, where: map<Bytes, nat>, key: Bytes, n: nat)
    requires Represents(d, m, where) && key in m && n <= NSLOTS && Unseen(where, key, n)
    ensures n <= where[key] < NSLOTS && Count(d, n) <= Count(d, where[key])
  {
    assert InSlot(where, key, where[key]);
    CountMono(d, n, where[key]);
  }

  lemma KeyAt(d: Bytes, m: map<Bytes, Bytes>, where: map<Bytes, nat>, key: Bytes)
    requires Represents(d, m, where) && key in m
    ensures where[key] < NSLOTS
  {
  }

  lemma HoleAt(d: Bytes, n: nat)
    requires |d| == BSIZE && n < NSLOTS && !Used(d, n)
    ensures Hole(d, SLOT * n)
  {
  }

  /** Tagging a fresh inode twice with one key leaves one tag and a counter of two, so that the next
      scan for any other key runs beyond the slots of the block. */
  method OverwriteMiscounts(key: Bytes, val: Bytes, other: Bytes, third: Bytes) returns (t: TagTable, r: Look)
    requires KeyOk(key) && ValOk(val) && ValOk(other) && third != [] && third != key
    ensures t.m == map[key := other] && t.counter == 2 && t.data.Length == BSIZE && Represents(t.data[..], t.m, t.where)
    ensures r == Beyond
  {
    hide Represents, Count;
    t := new TagTable();
    t.Ftag(key, val);
    t.Ftag(key, other);
    assert t.m == map[key := other];
    var j, empty;
    r, j, empty := t.Search(third);
  }

  // ---------- every run ----------

  datatype Op = Set(key: Bytes, val: Bytes) | Unset(key: Bytes)

  /** The map after a run. */
  function After(ops: seq<Op>): map<Bytes, Bytes>
  {
    if ops == [] then map[]
    else
      var m, op := After(ops[..|ops| - 1]), ops[|ops| - 1];
      match op
      case Set(key, val) => m[key := val]
      case Unset(key) => m - {key}
  }

  /** Every key set is new when set, and there are never more than twelve. */
  ghost predicate Orderly(ops: seq<Op>)
  {
    forall i :: 0 <= i < |ops| ==> OpOk(ops[i], After(ops[..i]))
  }

  predicate OpOk(op: Op, m: map<Bytes, Bytes>)
  {
    match op
    case Set(key, val) => KeyOk(key) && ValOk(val) && key !in m && |m| < NSLOTS
    case Unset(key) => key != []
  }

  /** Any such run, and then a lookup of any key, answers as the map does. */
  method Replay(ops: seq<Op>, key: Bytes) returns (r: int, buf: Bytes)
    requires Orderly(ops) && key != []
    ensures key in After(ops) ==> Str(buf, 0) == After(ops)[key] && r == |After(ops)[key]|
    ensures key !in After(ops) ==> r == -1
  {
    hide Represents, Count, Str;
    var t := new TagTable();
    for i := 0 to |ops|
      invariant fresh(t) && fresh(t.data) && t.Valid() && t.m == After(ops[..i])
    {
      assert OpOk(ops[i], After(ops[..i]));
      assert ops[..i + 1][..i] == ops[..i];
      match ops[i]
      case Set(k, v) => t.Ftag(k, v);
      case Unset(k) => var _ := t.Funtag(k);
    }
    assert ops[..|ops|] == ops;
    r, buf := t.Gettag(key);
  }
}
