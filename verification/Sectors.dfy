/** Disk sectors: 512 bytes, also read and written as 128 little-endian
    32-bit words (index blocks, the log header, on-disk inodes) and as
    4096 bits (the free map). */
module Sectors {

  const BSIZE := 512
  const NWORDS := 128
  const BPB := 4096

  type byte = x: int | 0 <= x < 0x100
  type uint = x: int | 0 <= x < 0x1_0000_0000
  type Sector = s: seq<byte> | |s| == BSIZE witness seq(BSIZE, _ => 0)

  function Zero(): Sector { seq(BSIZE, _ => 0) }

  /** The i-th 32-bit word of a sector. */
  function Word(s: Sector, i: nat): (w: uint)
    requires i < NWORDS
  {
    var b0: int, b1: int, b2: int, b3: int := s[4 * i], s[4 * i + 1], s[4 * i + 2], s[4 * i + 3];
    b0 + 0x100 * b1 + 0x1_0000 * b2 + 0x100_0000 * b3
  }

  /** Byte k (little-endian) of a 32-bit word. */
  function ByteOf(w: uint, k: nat): byte
  {
    if k == 0 then w % 0x100
    else if k == 1 then w / 0x100 % 0x100
    else if k == 2 then w / 0x1_0000 % 0x100
    else w / 0x100_0000 % 0x100
  }

  lemma DivAdd(k: nat, r: nat)
    ensures (0x100 * k + r) / 0x100 == k + r / 0x100
  {
  }

  lemma DivTwice(w: nat)
    ensures w / 0x1_0000 == w / 0x100 / 0x100
  {
    var q, r := w / 0x1_0000, w % 0x1_0000;
    assert w == 0x100 * (0x100 * q) + r;
    DivAdd(0x100 * q, r);
    DivAdd(q, r / 0x100);
  }

  lemma DivThrice(w: nat)
    ensures w / 0x100_0000 == w / 0x100 / 0x100 / 0x100
  {
    var q, r := w / 0x100_0000, w % 0x100_0000;
    assert w == 0x100 * (0x1_0000 * q) + r;
    DivAdd(0x1_0000 * q, r);
    assert w / 0x100 == 0x100 * (0x100 * q) + r / 0x100;
    DivAdd(0x100 * q, r / 0x100);
    DivAdd(q, r / 0x100 / 0x100);
  }

  lemma WordOfBytes(w: uint)
    ensures ByteOf(w, 0) + 0x100 * ByteOf(w, 1) + 0x1_0000 * ByteOf(w, 2) + 0x100_0000 * ByteOf(w, 3) == w
  {
    var q1: nat := w / 0x100;
    var q2: nat := q1 / 0x100;
    var q3: nat := q2 / 0x100;
    assert ByteOf(w, 2) == q2 % 0x100 by { DivTwice(w); }
    assert ByteOf(w, 3) == q3 % 0x100 by { DivThrice(w); }
    assert ByteOf(w, 0) + 0x100 * q1 == w && ByteOf(w, 1) + 0x100 * q2 == q1 && q2 % 0x100 + 0x100 * q3 == q2;
  }

  /** The sector with the words from index `at` on replaced by `ws`. */
  function WithWords(s: Sector, at: nat, ws: seq<uint>): (r: Sector)
    requires at + |ws| <= NWORDS
  {
    seq(BSIZE, i requires 0 <= i < BSIZE =>
      if 4 * at <= i < 4 * (at + |ws|) then ByteOf(ws[i / 4 - at], i % 4) else s[i])
  }

  lemma WordOfWithWords(s: Sector, at: nat, ws: seq<uint>, j: nat)
    requires at + |ws| <= NWORDS && j < NWORDS
    ensures Word(WithWords(s, at, ws), j) == if at <= j < at + |ws| then ws[j - at] else Word(s, j)
  {
    var r := WithWords(s, at, ws);
    assert (4 * j) / 4 == j && (4 * j + 1) / 4 == j && (4 * j + 2) / 4 == j && (4 * j + 3) / 4 == j;
    if at <= j < at + |ws| {
      var w := ws[j - at];
      assert r[4 * j] == ByteOf(w, 0) && r[4 * j + 1] == ByteOf(w, 1);
      assert r[4 * j + 2] == ByteOf(w, 2) && r[4 * j + 3] == ByteOf(w, 3);
      WordOfBytes(w);
    }
  }

  lemma WithWordsAppend(s: Sector, at: nat, ws: seq<uint>, w: uint)
    requires at + |ws| < NWORDS
    ensures WithWords(WithWords(s, at, ws), at + |ws|, [w]) == WithWords(s, at, ws + [w])
  {
    var a, b := WithWords(WithWords(s, at, ws), at + |ws|, [w]), WithWords(s, at, ws + [w]);
    forall i | 0 <= i < BSIZE ensures a[i] == b[i] {
    }
  }

  lemma ZeroWords()
    ensures forall i: nat :: i < NWORDS ==> Word(Zero(), i) == 0
  {
  }

  /** Whether bit k of x is set: `x & (1 << k)`. */
  predicate BitOf(x: nat, k: nat)
  {
    if k == 0 then x % 2 == 1 else BitOf(x / 2, k - 1)
  }

  /** x with bit k set (`x | (1 << k)`) or cleared (`x & ~(1 << k)`). */
  function SetBitOf(x: nat, k: nat, on: bool): nat
  {
    if k == 0 then 2 * (x / 2) + (if on then 1 else 0)
    else 2 * SetBitOf(x / 2, k - 1, on) + x % 2
  }

  lemma {:induction false} BitOfSetBitOf(x: nat, k: nat, on: bool, j: nat)
    ensures BitOf(SetBitOf(x, k, on), j) == if j == k then on else BitOf(x, j)
    decreases k
  {
    if k > 0 && j > 0 {
      assert SetBitOf(x, k, on) / 2 == SetBitOf(x / 2, k - 1, on);
      BitOfSetBitOf(x / 2, k - 1, on, j - 1);
    } else if k > 0 {
      assert SetBitOf(x, k, on) % 2 == x % 2;
    } else if j > 0 {
      assert SetBitOf(x, k, on) / 2 == x / 2;
    }
  }

  function Pow2(m: nat): nat { if m == 0 then 1 else 2 * Pow2(m - 1) }

  lemma {:induction false} SetBitOfBound(x: nat, k: nat, on: bool, m: nat)
    requires k < m && x < Pow2(m)
    ensures SetBitOf(x, k, on) < Pow2(m)
    decreases k
  {
    var p := Pow2(m - 1);
    assert Pow2(m) == 2 * p;
    assert x / 2 < p;
    if k > 0 {
      SetBitOfBound(x / 2, k - 1, on, m - 1);
      assert SetBitOf(x, k, on) == 2 * SetBitOf(x / 2, k - 1, on) + x % 2;
    }
  }

  lemma EightBits()
    ensures Pow2(8) == 0x100
  {
    assert Pow2(4) == 16;
  }

  /** Bit i of a bitmap sector: `data[i/8] & (1 << (i%8))`. */
  predicate Bit(s: Sector, i: nat)
    requires i < BPB
  {
    BitOf(s[i / 8], i % 8)
  }

  lemma ByteBits(x: byte, k: nat, on: bool)
    requires k < 8
    ensures SetBitOf(x, k, on) < 0x100
    ensures forall j: nat :: BitOf(SetBitOf(x, k, on), j) == if j == k then on else BitOf(x, j)
  {
    EightBits();
    SetBitOfBound(x, k, on, 8);
    forall j: nat ensures BitOf(SetBitOf(x, k, on), j) == if j == k then on else BitOf(x, j) {
      BitOfSetBitOf(x, k, on, j);
    }
  }

  /** The sector with bit i set or cleared. */
  function WithBit(s: Sector, i: nat, on: bool): (r: Sector)
    requires i < BPB
    ensures forall j: nat :: j < BPB ==> Bit(r, j) == if j == i then on else Bit(s, j)
  {
    ByteBits(s[i / 8], i % 8, on);
    s[i / 8 := SetBitOf(s[i / 8], i % 8, on)]
  }

  // ---------- finite sets ----------

  lemma {:induction false} CardLe<T>(a: set<T>, b: set<T>)
    requires a <= b
    ensures |a| <= |b|
    decreases a
  {
    if a != {} {
      var x :| x in a;
      CardLe(a - {x}, b - {x});
    }
  }
}
