/** Directories and link counts (fs.c, sysfile.c): what an inode's nlink counts, and how create,
    link and unlink keep it. */
module Links {
  import opened Sectors

  const DIRSIZ := 14
  const ROOT := 1
  const SHORT_MAX := 32767

  type Bytes = seq<byte>

  // ---------- names ----------

  function CharAt(s: Bytes, i: nat): byte { if i < |s| then s[i] else 0 }

  function Len(s: Bytes): (n: nat)
    ensures n <= |s| && (n < |s| ==> s[n] == 0) && forall i :: 0 <= i < n ==> s[i] != 0
  {
    if s == [] || s[0] == 0 then 0 else 1 + Len(s[1..])
  }

  function PadChar(s: Bytes, i: nat): byte { if i < Len(s) then CharAt(s, i) else 0 }

  /** A name as stored: its first DIRSIZ bytes, filled up with NULs. */
  function Pad(s: Bytes): (r: Bytes)
    ensures |r| == DIRSIZ && forall i :: 0 <= i < DIRSIZ ==> r[i] == PadChar(s, i)
  {
    seq(DIRSIZ, i requires 0 <= i < DIRSIZ => PadChar(s, i))
  }

  /** `namecmp`: equal exactly when the names agree up to DIRSIZ bytes. */
  method Namecmp(s: Bytes, t: Bytes) returns (r: int)
    ensures r == 0 <==> Pad(s) == Pad(t)
  {
    var i, n := 0, DIRSIZ;
    while n > 0 && CharAt(s, i) != 0 && CharAt(s, i) == CharAt(t, i)
      invariant n >= 0 && i + n == DIRSIZ && i <= |s| && i <= |t|
      invariant forall j :: 0 <= j < i ==> s[j] == t[j] && s[j] != 0
    {
      i, n := i + 1, n - 1;
    }
    Agree(s, t, i);
    if n == 0 { return 0; }
    r := CharAt(s, i) as int - CharAt(t, i) as int;
  }

  lemma Agree(s: Bytes, t: Bytes, i: nat)
    requires i <= DIRSIZ && i <= |s| && i <= |t| && forall j :: 0 <= j < i ==> s[j] == t[j] && s[j] != 0
    ensures i == DIRSIZ ==> Pad(s) == Pad(t)
    ensures i < DIRSIZ && CharAt(s, i) == CharAt(t, i) == 0 ==> Pad(s) == Pad(t)
    ensures i < DIRSIZ && CharAt(s, i) != CharAt(t, i) ==> Pad(s) != Pad(t)
  {
    if i == DIRSIZ || CharAt(s, i) == CharAt(t, i) == 0 {
      forall k | 0 <= k < DIRSIZ ensures Pad(s)[k] == Pad(t)[k] {}
    }
    if i < DIRSIZ && CharAt(s, i) != CharAt(t, i) {
      assert Pad(s)[i] == CharAt(s, i) && Pad(t)[i] == CharAt(t, i);
    }
  }

  /** `strncpy` into a directory entry. */
  method Strncpy(name: Bytes) returns (r: Bytes)
    ensures r == Pad(name)
  {
    r := [];
    while |r| < DIRSIZ && CharAt(name, |r|) != 0
      invariant |r| <= DIRSIZ && |r| <= Len(name) && forall i :: 0 <= i < |r| ==> r[i] == name[i]
      decreases DIRSIZ - |r|
    {
      r := r + [name[|r|]];
    }
    while |r| < DIRSIZ
      invariant |r| <= DIRSIZ && forall i :: 0 <= i < |r| ==> r[i] == PadChar(name, i)
    {
      r := r + [0];
    }
  }

  // ---------- the file system as inodes and directory entries ----------

  datatype Kind = Free | Dir | File | Dev

  datatype Dirent = Dirent(inum: nat, name: Bytes)

  /** nlink is a C short; ents are the slots of a directory, with inum 0 for a hole. */
  datatype Inode = Inode(kind: Kind, nlink: int, ents: seq<Dirent>)

  type Fs = seq<Inode>

  function Dot(): Bytes { Pad([46]) }

  function DotDot(): Bytes { Pad([46, 46]) }

  /** A cleared entry. */
  function Hole(): Dirent { Dirent(0, Pad([])) }

  lemma DotsDiffer()
    ensures Dot() != DotDot()
  {
    assert Len([46]) == 1 && Len([46, 46]) == 2;
    assert Dot()[1] == 0 && DotDot()[1] == 46;
  }

  /** A 16-bit signed value. */
  function Short(x: int): int
  {
    (x + SHORT_MAX + 1) % 65536 - (SHORT_MAX + 1)
  }

  /** A directory still in the tree. */
  predicate Live(ino: Inode) { ino.kind == Dir && ino.nlink != 0 }

  /** Slot k of live directory d is an entry, other than ".", that refers to i. */
  predicate IsRef(fs: Fs, d: nat, k: nat, i: nat)
  {
    && d < |fs| && Live(fs[d]) && k < |fs[d].ents|
    && fs[d].ents[k].inum == i && fs[d].ents[k].name != Dot()
  }

  function Refs(fs: Fs, i: nat): (r: set<(nat, nat)>)
    ensures forall d: nat, k: nat :: (d, k) in r <==> IsRef(fs, d, k, i)
  {
    set d: nat, k: nat | d < |fs| && k < |fs[d].ents| && IsRef(fs, d, k, i) :: (d, k)
  }

  // ---------- the invariant ----------

  predicate NlinkOk(fs: Fs, i: nat)
    requires i < |fs|
  {
    fs[i].nlink == |Refs(fs, i)| <= SHORT_MAX
  }

  predicate Named(e: Dirent) { e.inum != 0 }

  /** Names in a directory are distinct, as compared up to DIRSIZ. */
  predicate NamesDiffer(ents: seq<Dirent>)
  {
    forall k, l :: 0 <= k < l < |ents| && Named(ents[k]) && Named(ents[l]) ==> ents[k].name != ents[l].name
  }

  /** "." and ".." come first. */
  predicate Dots(fs: Fs, d: nat)
    requires d < |fs|
  {
    var ents := fs[d].ents;
    && |ents| >= 2 && ents[0] == Dirent(d, Dot()) && ents[1].name == DotDot()
    && 0 < ents[1].inum < |fs|
  }

  function Parent(fs: Fs, d: nat): nat
    requires d < |fs| && Dots(fs, d)
  {
    fs[d].ents[1].inum
  }

  /** Slot k of directory d, past the dots: in range, and if it names a directory, that one's ".." leads back. */
  predicate SlotOk(fs: Fs, d: nat, k: nat)
    requires d < |fs| && 2 <= k < |fs[d].ents|
  {
    var i := fs[d].ents[k].inum;
    && i < |fs|
    && (i != 0 && fs[i].kind == Dir ==> i != ROOT && i != d && Dots(fs, i) && Parent(fs, i) == d)
  }

  /** No directory is named twice in one directory. */
  predicate NamedOnce(fs: Fs, d: nat, k: nat, l: nat)
    requires d < |fs| && k < |fs[d].ents| && l < |fs[d].ents|
  {
    2 <= k < l && fs[d].ents[k].inum == fs[d].ents[l].inum != 0 && fs[d].ents[k].inum < |fs|
    ==> fs[fs[d].ents[k].inum].kind != Dir
  }

  predicate HasName(fs: Fs, p: nat, d: nat)
    requires p < |fs|
  {
    exists k :: 2 <= k < |fs[p].ents| && fs[p].ents[k].inum == d
  }

  predicate OnlyDots(ents: seq<Dirent>)
  {
    forall k :: 2 <= k < |ents| ==> ents[k].inum == 0
  }

  predicate DirOk(fs: Fs, d: nat)
    requires d < |fs|
  {
    && (fs[d].kind == Free ==> fs[d].nlink == 0 && fs[d].ents == [])
    && (fs[d].kind == Dir ==> Dots(fs, d) && (fs[d].nlink == 0 ==> OnlyDots(fs[d].ents)))
    && (Live(fs[d]) ==>
          && NamesDiffer(fs[d].ents) && Live(fs[Parent(fs, d)])
          && (forall k: nat :: 2 <= k < |fs[d].ents| ==> SlotOk(fs, d, k))
          && (forall k: nat, l: nat :: k < |fs[d].ents| && l < |fs[d].ents| ==> NamedOnce(fs, d, k, l))
          && (d != ROOT ==> HasName(fs, Parent(fs, d), d)))
  }

  predicate Ok(fs: Fs)
  {
    && |fs| > ROOT && Live(fs[ROOT]) && Dots(fs, ROOT) && Parent(fs, ROOT) == ROOT && fs[0] == Inode(Free, 0, [])
    && (forall i: nat :: 0 < i < |fs| ==> NlinkOk(fs, i))
    && (forall d: nat :: d < |fs| ==> DirOk(fs, d))
  }

  /** What the invariant is for: counts are right, and every directory in the tree has its dots and
      distinct names. */
  predicate Sound(fs: Fs)
  {
    && (forall i: nat :: 0 < i < |fs| ==> NlinkOk(fs, i))
    && (forall d: nat :: d < |fs| && Live(fs[d]) ==> Dots(fs, d) && NamesDiffer(fs[d].ents))
  }

  lemma OkSound(fs: Fs)
    requires Ok(fs)
    ensures Sound(fs)
  {
    forall d: nat | d < |fs| && Live(fs[d]) ensures Dots(fs, d) && NamesDiffer(fs[d].ents) { assert DirOk(fs, d); }
  }

  lemma Unsound(fs: Fs, i: nat)
    requires 0 < i < |fs| && !NlinkOk(fs, i)
    ensures !Sound(fs) && !Ok(fs)
  {
  }

  // ---------- how references change ----------

  /** Entry e in slot o, at the end if o is past the last. */
  function PutEnt(ents: seq<Dirent>, o: nat, e: Dirent): (r: seq<Dirent>)
    requires o <= |ents|
    ensures |r| == (if o < |ents| then |ents| else |ents| + 1) && r[o] == e
    ensures forall k {:trigger r[k]} :: 0 <= k < |r| && k != o ==> k < |ents| && r[k] == ents[k]
  {
    if o < |ents| then ents[o := e] else ents + [e]
  }

  function PutIn(fs: Fs, d: nat, o: nat, e: Dirent): (r: Fs)
    requires d < |fs| && o <= |fs[d].ents|
  {
    fs[d := fs[d].(ents := PutEnt(fs[d].ents, o, e))]
  }

  /** An entry put into a free slot adds one reference. */
  lemma RefsPut(fs: Fs, d: nat, o: nat, e: Dirent, j: nat)
    requires d < |fs| && o <= |fs[d].ents| && Live(fs[d]) && e.name != Dot() && j != 0
    requires o < |fs[d].ents| ==> fs[d].ents[o].inum == 0
    ensures Refs(PutIn(fs, d, o, e), j) == if e.inum == j then Refs(fs, j) + {(d, o)} else Refs(fs, j)
    ensures (d, o) !in Refs(fs, j)
  {
    var fs' := PutIn(fs, d, o, e);
    forall a: nat, b: nat ensures IsRef(fs', a, b, j) <==> IsRef(fs, a, b, j) || (e.inum == j && a == d && b == o) {
      if a == d && b < |fs'[d].ents| { assert b != o ==> fs'[d].ents[b] == fs[d].ents[b]; }
      if a == d && b < |fs[d].ents| { assert b != o ==> fs'[d].ents[b] == fs[d].ents[b]; }
    }
  }

  /** Clearing a slot removes its reference. */
  lemma RefsClear(fs: Fs, d: nat, o: nat, j: nat)
    requires d < |fs| && o < |fs[d].ents| && j != 0
    ensures Refs(PutIn(fs, d, o, Hole()), j) == Refs(fs, j) - {(d, o)}
  {
    var fs' := PutIn(fs, d, o, Hole());
    forall a: nat, b: nat ensures IsRef(fs', a, b, j) <==> IsRef(fs, a, b, j) && !(a == d && b == o) {
      if a == d && b < |fs'[d].ents| { assert b != o ==> fs'[d].ents[b] == fs[d].ents[b]; }
    }
  }

  /** A change of one inode that keeps it a live directory with the same entries, or keeps it none. */
  lemma RefsSame(fs: Fs, x: nat, ino: Inode, j: nat)
    requires x < |fs| && Live(ino) == Live(fs[x]) && (Live(ino) ==> ino.ents == fs[x].ents)
    ensures Refs(fs[x := ino], j) == Refs(fs, j)
  {
    forall a: nat, b: nat ensures IsRef(fs[x := ino], a, b, j) <==> IsRef(fs, a, b, j) {}
  }

  /** An inode that has only the dots and becomes a live directory, or stops being one: its ".." counts
      or no longer does. */
  lemma RefsDots(fs: Fs, x: nat, ino: Inode, j: nat)
    requires x < |fs| && Live(ino) && !Live(fs[x]) && j != 0
    requires |ino.ents| >= 2 && ino.ents[0].name == Dot() && ino.ents[1].name == DotDot()
    requires OnlyDots(ino.ents)
    ensures Refs(fs[x := ino], j) == if ino.ents[1].inum == j then Refs(fs, j) + {(x, 1)} else Refs(fs, j)
    ensures (x, 1) !in Refs(fs, j)
  {
    DotsDiffer();
    forall a: nat, b: nat
      ensures IsRef(fs[x := ino], a, b, j) <==> IsRef(fs, a, b, j) || (ino.ents[1].inum == j && a == x && b == 1) {}
  }

  // ---------- consequences of the invariant ----------

  /** An entry of a live directory, other than ".", refers to an inode in use. */
  lemma EntryRefers(fs: Fs, d: nat, k: nat)
    requires Ok(fs) && d < |fs| && Live(fs[d]) && 1 <= k < |fs[d].ents| && fs[d].ents[k].inum != 0
    ensures IsRef(fs, d, k, fs[d].ents[k].inum)
    ensures fs[d].ents[k].inum < |fs| && fs[fs[d].ents[k].inum].nlink >= 1
  {
    assert DirOk(fs, d);
    var i := fs[d].ents[k].inum;
    assert Named(fs[d].ents[0]) && Named(fs[d].ents[k]);
    assert k >= 2 ==> SlotOk(fs, d, k);
    assert NlinkOk(fs, i);
    assert (d, k) in Refs(fs, i);
  }

  lemma NothingRefers(fs: Fs, i: nat, d: nat, k: nat)
    requires Ok(fs) && 0 < i < |fs| && fs[i].nlink == 0
    requires d < |fs| && Live(fs[d]) && 1 <= k < |fs[d].ents|
    ensures fs[d].ents[k].inum != i
  {
    if fs[d].ents[k].inum == i { EntryRefers(fs, d, k); }
  }

  lemma CardAdd(s: set<(nat, nat)>, x: (nat, nat))
    ensures x !in s ==> |s + {x}| == |s| + 1
    ensures x in s ==> |s - {x}| == |s| - 1
  {
  }

  // ---------- a new name for a file ----------

  /** Slot o of dp is free, past the dots, and no entry of dp has this name. */
  predicate Room(fs: Fs, dp: nat, o: nat, name: Bytes)
  {
    && dp < |fs| && 2 <= o <= |fs[dp].ents| && (o < |fs[dp].ents| ==> fs[dp].ents[o].inum == 0)
    && (forall k :: 0 <= k < |fs[dp].ents| && Named(fs[dp].ents[k]) ==> fs[dp].ents[k].name != name)
  }

  lemma NamesPut(ents: seq<Dirent>, o: nat, e: Dirent)
    requires NamesDiffer(ents) && o <= |ents| && (o < |ents| ==> ents[o].inum == 0)
    requires forall k :: 0 <= k < |ents| && Named(ents[k]) ==> ents[k].name != e.name
    ensures NamesDiffer(PutEnt(ents, o, e))
  {
    var r := PutEnt(ents, o, e);
    forall k, l | 0 <= k < l < |r| && Named(r[k]) && Named(r[l]) ensures r[k].name != r[l].name {}
  }

  /** ip changed to ino, and named in slot o of dp. */
  function WithName(fs: Fs, ip: nat, ino: Inode, dp: nat, o: nat, name: Bytes): (r: Fs)
    requires ip < |fs| && dp < |fs| && o <= |fs[dp].ents| && ip != dp
    ensures |r| == |fs|
  {
    PutIn(fs[ip := ino], dp, o, Dirent(ip, name))
  }

  /** A free name of a directory in use is not one of the dots. */
  lemma NotDots(fs: Fs, dp: nat, o: nat, name: Bytes)
    requires Ok(fs) && Room(fs, dp, o, name) && fs[dp].kind == Dir
    ensures name != Dot() && name != DotDot()
  {
    assert DirOk(fs, dp);
    assert Named(fs[dp].ents[0]) && Named(fs[dp].ents[1]);
  }

  lemma ShortUp(x: int)
    requires 0 <= x <= SHORT_MAX
    ensures Short(x + 1) == if x < SHORT_MAX then x + 1 else -SHORT_MAX - 1
    ensures Short(x) == x && Short(x - 1) == x - 1
  {
  }

  /** A file named once more: the counts stay right exactly when its own is one more and still a short. */
  lemma NamingNlinks(fs: Fs, ip: nat, ino: Inode, dp: nat, o: nat, name: Bytes, j: nat)
    requires Ok(fs) && 0 < ip < |fs| && Room(fs, dp, o, name) && ip != dp && fs[ip].kind != Dir && ino.kind != Dir
      && Live(fs[dp])
    requires 0 < j < |fs|
    ensures NlinkOk(WithName(fs, ip, ino, dp, o, name), j) <==> (j == ip ==> ino.nlink == fs[ip].nlink + 1 <= SHORT_MAX)
  {
    NotDots(fs, dp, o, name);
    assert NlinkOk(fs, j);
    hide Ok, Refs;
    var fs1 := fs[ip := ino];
    RefsSame(fs, ip, ino, j);
    RefsPut(fs1, dp, o, Dirent(ip, name), j);
    CardAdd(Refs(fs, j), (dp, o));
    assert WithName(fs, ip, ino, dp, o, name)[j].nlink == fs1[j].nlink;
  }

  lemma NamingHere(fs: Fs, ip: nat, ino: Inode, dp: nat, o: nat, name: Bytes)
    requires Ok(fs) && 0 < ip < |fs| && Room(fs, dp, o, name) && ip != dp && fs[ip].kind != Dir && Live(fs[dp])
    requires ino.kind != Dir && ino.kind != Free
    ensures DirOk(WithName(fs, ip, ino, dp, o, name), dp)
  {
    hide Refs, Dot, DotDot, Pad, NamesDiffer;
    var fs' := WithName(fs, ip, ino, dp, o, name);
    assert DirOk(fs, dp);
    NamesPut(fs[dp].ents, o, Dirent(ip, name));
    forall k: nat | 2 <= k < |fs'[dp].ents| ensures SlotOk(fs', dp, k) {
      if k != o { assert SlotOk(fs, dp, k); }
    }
    forall k: nat, l: nat | k < |fs'[dp].ents| && l < |fs'[dp].ents| ensures NamedOnce(fs', dp, k, l) {
      if k != o && l != o { assert NamedOnce(fs, dp, k, l); }
    }
    if dp != ROOT { NameStays(fs, fs', Parent(fs, dp), dp); }
  }

  lemma NamingDirs(fs: Fs, ip: nat, ino: Inode, dp: nat, o: nat, name: Bytes, d: nat)
    requires Ok(fs) && 0 < ip < |fs| && Room(fs, dp, o, name) && ip != dp && fs[ip].kind != Dir && Live(fs[dp])
    requires ino.kind != Dir && ino.kind != Free && d < |fs|
    ensures DirOk(WithName(fs, ip, ino, dp, o, name), d)
  {
    var fs' := WithName(fs, ip, ino, dp, o, name);
    if d == dp {
      NamingHere(fs, ip, ino, dp, o, name);
    } else {
      assert DirOk(fs, d) && DirOk(fs, dp);
      if Live(fs'[d]) {
        forall k: nat | 2 <= k < |fs'[d].ents| ensures SlotOk(fs', d, k) { assert SlotOk(fs, d, k); }
        forall k: nat, l: nat | k < |fs'[d].ents| && l < |fs'[d].ents|
          ensures NamedOnce(fs', d, k, l) { assert NamedOnce(fs, d, k, l); }
        if d != ROOT { NameStays(fs, fs', Parent(fs, d), d); }
      }
    }
  }

  /** In a directory out of the tree the new entry does not count, but the file's nlink went up. */
  lemma NamingInDead(fs: Fs, ip: nat, ino: Inode, dp: nat, o: nat, name: Bytes)
    requires Ok(fs) && 0 < ip < |fs| && Room(fs, dp, o, name) && ip != dp && fs[ip].kind != Dir && fs[dp].nlink == 0
    requires ino.kind != Dir && (ino.nlink == fs[ip].nlink + 1 || ino.nlink == Short(fs[ip].nlink + 1))
    ensures !NlinkOk(WithName(fs, ip, ino, dp, o, name), ip)
  {
    assert NlinkOk(fs, ip);
    hide Ok, Refs, PutEnt;
    var fs1, fs' := fs[ip := ino], WithName(fs, ip, ino, dp, o, name);
    RefsSame(fs, ip, ino, ip);
    RefsSame(fs1, dp, fs'[dp], ip);
    assert fs' == fs1[dp := fs'[dp]];
  }

  /** Naming a file, new or not, in a directory keeps the counts, the dots and the names right, and
      the whole invariant, exactly when the directory is still in the tree and the file's count goes
      up by one within a short. */
  lemma NamingKeeps(fs: Fs, ip: nat, ino: Inode, dp: nat, o: nat, name: Bytes)
    requires Ok(fs) && 0 < ip < |fs| && Room(fs, dp, o, name) && ip != dp && fs[ip].kind != Dir && fs[dp].kind == Dir
    requires ino.kind != Dir && ino.kind != Free && (ino.nlink == fs[ip].nlink + 1
      || ino.nlink == Short(fs[ip].nlink + 1))
    ensures Sound(WithName(fs, ip, ino, dp, o, name)) <==>
      fs[dp].nlink != 0 && ino.nlink == fs[ip].nlink + 1 <= SHORT_MAX
    ensures Ok(WithName(fs, ip, ino, dp, o, name)) <==> Sound(WithName(fs, ip, ino, dp, o, name))
  {
    var fs' := WithName(fs, ip, ino, dp, o, name);
    assert DirOk(fs, dp) && DirOk(fs, ip);
    if Live(fs[dp]) {
      NamingNlinks(fs, ip, ino, dp, o, name, ip);
      if ino.nlink == fs[ip].nlink + 1 <= SHORT_MAX {
        forall d: nat | d < |fs| ensures DirOk(fs', d) { NamingDirs(fs, ip, ino, dp, o, name, d); }
        forall j: nat | 0 < j < |fs| ensures NlinkOk(fs', j) { NamingNlinks(fs, ip, ino, dp, o, name, j); }
        RootStays(fs, fs');
        OkSound(fs');
      } else {
        Unsound(fs', ip);
      }
    } else {
      NamingInDead(fs, ip, ino, dp, o, name);
      Unsound(fs', ip);
    }
  }

  lemma RootStays(fs: Fs, fs': Fs)
    requires Ok(fs) && |fs'| == |fs| && fs'[0] == fs[0]
    requires Live(fs'[ROOT]) && |fs'[ROOT].ents| >= 2 && fs'[ROOT].ents[0] == fs[ROOT].ents[0]
      && fs'[ROOT].ents[1] == fs[ROOT].ents[1]
    requires forall i: nat :: 0 < i < |fs'| ==> NlinkOk(fs', i)
    requires forall d: nat :: d < |fs'| ==> DirOk(fs', d)
    ensures Ok(fs')
  {
  }

  /** An entry survives when its slot keeps its inum. */
  lemma NameStays(fs: Fs, fs': Fs, p: nat, d: nat)
    requires p < |fs| == |fs'| && HasName(fs, p, d)
    requires forall k {:trigger fs[p].ents[k]} ::
      2 <= k < |fs[p].ents| && fs[p].ents[k].inum == d ==> k < |fs'[p].ents| && fs'[p].ents[k].inum == d
    ensures HasName(fs', p, d)
  {
    var k :| 2 <= k < |fs[p].ents| && fs[p].ents[k].inum == d;
    assert k < |fs'[p].ents| && fs'[p].ents[k].inum == d;
  }

  // ---------- a new directory ----------

  function NewDir(ip: nat, dp: nat): Inode { Inode(Dir, 1, [Dirent(ip, Dot()), Dirent(dp, DotDot())]) }

  /** `create` of a directory: its dots, one more link to dp for "..", and its name in dp. */
  function MadeDir(fs: Fs, ip: nat, dp: nat, o: nat, name: Bytes): (r: Fs)
    requires ip < |fs| && dp < |fs| && o <= |fs[dp].ents| && ip != dp
    ensures |r| == |fs|
  {
    PutIn(fs[ip := NewDir(ip, dp)][dp := fs[dp].(nlink := Short(fs[dp].nlink + 1))], dp, o, Dirent(ip, name))
  }

  lemma MkdirRefs(fs: Fs, ip: nat, dp: nat, o: nat, name: Bytes, j: nat)
    requires Ok(fs) && 0 < ip < |fs| && Room(fs, dp, o, name) && fs[ip].kind == Free && Live(fs[dp]) && 0 < j < |fs|
    requires Short(fs[dp].nlink + 1) != 0
    ensures Refs(MadeDir(fs, ip, dp, o, name), j) == if j == dp then
      Refs(fs, j) + {(ip, 1)} else if j == ip then Refs(fs, j) + {(dp, o)} else Refs(fs, j)
    ensures (ip, 1) !in Refs(fs, j) && (dp, o) !in Refs(fs, j)
  {
    NotDots(fs, dp, o, name);
    hide Ok, Refs, Short, Dot, DotDot, Pad, IsRef;
    var fs1 := fs[ip := NewDir(ip, dp)];
    var up := fs[dp].(nlink := Short(fs[dp].nlink + 1));
    RefsDots(fs, ip, NewDir(ip, dp), j);
    RefsSame(fs1, dp, up, j);
    RefsPut(fs1[dp := up], dp, o, Dirent(ip, name), j);
    RefsPut(fs, dp, o, Dirent(ip, name), j);
  }

  lemma MkdirCounts(fs: Fs, ip: nat, dp: nat, o: nat, name: Bytes, j: nat)
    requires ip < |fs| && dp < |fs| && o <= |fs[dp].ents| && ip != dp && j < |fs|
    ensures MadeDir(fs, ip, dp, o, name)[j].nlink == if j == ip then
      1 else if j == dp then Short(fs[dp].nlink + 1) else fs[j].nlink
  {
    hide Short, Dot, DotDot, Pad;
  }

  lemma MkdirNlinks(fs: Fs, ip: nat, dp: nat, o: nat, name: Bytes, j: nat)
    requires Ok(fs) && 0 < ip < |fs| && Room(fs, dp, o, name) && fs[ip].kind == Free && Live(fs[dp]) && 0 < j < |fs|
    ensures NlinkOk(MadeDir(fs, ip, dp, o, name), j) <==> (j == dp ==> fs[dp].nlink < SHORT_MAX)
  {
    assert NlinkOk(fs, j) && NlinkOk(fs, dp) && DirOk(fs, ip);
    MkdirCounts(fs, ip, dp, o, name, j);
    hide Ok, Refs, Short, DirOk, Room, MadeDir;
    ShortUp(fs[dp].nlink);
    MkdirRefs(fs, ip, dp, o, name, j);
    CardAdd(Refs(fs, j), (ip, 1));
    CardAdd(Refs(fs, j), (dp, o));
  }

  lemma MkdirSlots(fs: Fs, ip: nat, dp: nat, o: nat, name: Bytes, k: nat)
    requires Ok(fs) && 0 < ip < |fs| && Room(fs, dp, o, name) && fs[ip].kind == Free && Live(fs[dp])
    requires 2 <= k < |MadeDir(fs, ip, dp, o, name)[dp].ents|
    ensures SlotOk(MadeDir(fs, ip, dp, o, name), dp, k)
    ensures k != o ==>
      k < |fs[dp].ents| && MadeDir(fs, ip, dp, o, name)[dp].ents[k] == fs[dp].ents[k] && fs[dp].ents[k].inum != ip
  {
    hide Refs, Dot, DotDot, Pad, Short, NamesDiffer;
    assert DirOk(fs, dp) && DirOk(fs, ip);
    if k != o {
      assert SlotOk(fs, dp, k);
      NothingRefers(fs, ip, dp, k);
    }
  }

  lemma MkdirHere(fs: Fs, ip: nat, dp: nat, o: nat, name: Bytes)
    requires Ok(fs) && 0 < ip < |fs| && Room(fs, dp, o, name) && fs[ip].kind == Free && Live(fs[dp])
      && fs[dp].nlink < SHORT_MAX
    ensures DirOk(MadeDir(fs, ip, dp, o, name), dp)
  {
    hide Refs, Dot, DotDot, Pad, Short, NamesDiffer, SlotOk;
    var fs' := MadeDir(fs, ip, dp, o, name);
    assert DirOk(fs, dp) && NlinkOk(fs, dp);
    ShortUp(fs[dp].nlink);
    NamesPut(fs[dp].ents, o, Dirent(ip, name));
    forall k: nat | 2 <= k < |fs'[dp].ents| ensures SlotOk(fs', dp, k) { MkdirSlots(fs, ip, dp, o, name, k); }
    forall k: nat, l: nat | k < |fs'[dp].ents| && l < |fs'[dp].ents| ensures NamedOnce(fs', dp, k, l) {
      if 2 <= k < l {
        MkdirSlots(fs, ip, dp, o, name, k);
        MkdirSlots(fs, ip, dp, o, name, l);
        if k != o && l != o { assert NamedOnce(fs, dp, k, l); }
      }
    }
    if dp != ROOT { NameStays(fs, fs', Parent(fs, dp), dp); }
  }

  lemma MkdirNew(fs: Fs, ip: nat, dp: nat, o: nat, name: Bytes)
    requires Ok(fs) && 0 < ip < |fs| && Room(fs, dp, o, name) && fs[ip].kind == Free && Live(fs[dp])
      && fs[dp].nlink < SHORT_MAX
    ensures DirOk(MadeDir(fs, ip, dp, o, name), ip)
  {
    DotsDiffer();
    hide Refs, Dot, DotDot, Pad, Short;
    var fs' := MadeDir(fs, ip, dp, o, name);
    assert NlinkOk(fs, dp);
    ShortUp(fs[dp].nlink);
    assert fs'[dp].ents[o].inum == ip;
    assert HasName(fs', dp, ip);
  }

  lemma MkdirElsewhere(fs: Fs, ip: nat, dp: nat, o: nat, name: Bytes, d: nat)
    requires Ok(fs) && 0 < ip < |fs| && Room(fs, dp, o, name) && fs[ip].kind == Free && Live(fs[dp])
      && fs[dp].nlink < SHORT_MAX
    requires d < |fs| && d != ip && d != dp
    ensures DirOk(MadeDir(fs, ip, dp, o, name), d)
  {
    hide Refs, Dot, DotDot, Pad, Short, NamesDiffer;
    var fs' := MadeDir(fs, ip, dp, o, name);
    assert DirOk(fs, d) && DirOk(fs, ip) && NlinkOk(fs, dp);
    ShortUp(fs[dp].nlink);
    if Live(fs'[d]) {
      forall k: nat | 2 <= k < |fs'[d].ents| ensures SlotOk(fs', d, k) {
        assert SlotOk(fs, d, k);
        NothingRefers(fs, ip, d, k);
      }
      forall k: nat, l: nat | k < |fs'[d].ents| && l < |fs'[d].ents| ensures NamedOnce(fs', d, k, l) {
        assert NamedOnce(fs, d, k, l);
        if k >= 2 { NothingRefers(fs, ip, d, k); }
      }
      NothingRefers(fs, ip, d, 1);
      if d != ROOT { NameStays(fs, fs', Parent(fs, d), d); }
    }
  }

  /** What a subdirectory of a directory out of the tree refers to. */
  lemma DeadRefs(fs: Fs, ip: nat, dp: nat, o: nat, name: Bytes, p: nat)
    requires Ok(fs) && 0 < ip < |fs| && Room(fs, dp, o, name) && fs[ip].kind == Free && fs[dp].kind == Dir
      && fs[dp].nlink == 0
    requires Dots(fs, dp) && p == Parent(fs, dp)
    ensures var fs' := MadeDir(fs, ip, dp, o, name);
            && (dp, 1) in Refs(fs', p) && (dp, 1) !in Refs(fs, p) && (dp, o) in Refs(fs', ip)
               && (ip, 1) in Refs(fs', dp)
            && fs'[dp].nlink == 1 && fs'[ip].nlink == 1
  {
    NotDots(fs, dp, o, name);
    DotsDiffer();
    hide Ok, Dot, DotDot, Pad, Short;
    assert Short(1) == 1 by { ShortUp(0); }
    var fs' := MadeDir(fs, ip, dp, o, name);
    assert fs'[dp].ents[o] == Dirent(ip, name) && fs'[ip] == NewDir(ip, dp) && fs'[dp].ents[1] == fs[dp].ents[1];
  }

  /** A directory out of the tree counts as in the tree again once it has a subdirectory, and then
      its ".." is a link that the inode it names does not count. */
  lemma MkdirInDead(fs: Fs, ip: nat, dp: nat, o: nat, name: Bytes)
    requires Ok(fs) && 0 < ip < |fs| && Room(fs, dp, o, name) && fs[ip].kind == Free && fs[dp].kind == Dir
      && fs[dp].nlink == 0
    ensures Dots(fs, dp) && !NlinkOk(MadeDir(fs, ip, dp, o, name), Parent(fs, dp))
  {
    assert DirOk(fs, dp);
    var fs', p := MadeDir(fs, ip, dp, o, name), Parent(fs, dp);
    assert NlinkOk(fs, p);
    DeadRefs(fs, ip, dp, o, name, p);
    MkdirCounts(fs, ip, dp, o, name, p);
    if p != ip && p != dp { DeadKeepsRefs(fs, ip, dp, o, name, p); }
    hide Ok, Dots, Room, Refs, MadeDir;
    if p == ip {
      CardLe({(dp, 1), (dp, o)}, Refs(fs', ip));
    } else if p == dp {
      CardLe({(dp, 1), (ip, 1)}, Refs(fs', dp));
    } else {
      CardLe(Refs(fs, p) + {(dp, 1)}, Refs(fs', p));
    }
  }

  lemma DeadKeepsRefs(fs: Fs, ip: nat, dp: nat, o: nat, name: Bytes, p: nat)
    requires ip < |fs| && dp < |fs| && o <= |fs[dp].ents| && ip != dp && fs[ip].kind == Free && fs[dp].nlink == 0
    ensures Refs(fs, p) <= Refs(MadeDir(fs, ip, dp, o, name), p)
  {
    hide Short, Dot, DotDot, Pad, PutEnt;
    var fs' := MadeDir(fs, ip, dp, o, name);
    forall a: nat, b: nat | IsRef(fs, a, b, p) ensures IsRef(fs', a, b, p) { assert a != dp && a != ip; }
  }

  /** Making a directory keeps the counts, the dots and the names right, and the whole invariant,
      exactly when its parent is in the tree and has room for one more link. */
  lemma MkdirKeeps(fs: Fs, ip: nat, dp: nat, o: nat, name: Bytes)
    requires Ok(fs) && 0 < ip < |fs| && Room(fs, dp, o, name) && fs[ip].kind == Free && fs[dp].kind == Dir
    ensures Sound(MadeDir(fs, ip, dp, o, name)) <==> 0 < fs[dp].nlink < SHORT_MAX
    ensures Ok(MadeDir(fs, ip, dp, o, name)) <==> Sound(MadeDir(fs, ip, dp, o, name))
  {
    var fs' := MadeDir(fs, ip, dp, o, name);
    assert NlinkOk(fs, dp);
    if fs[dp].nlink == 0 {
      MkdirInDead(fs, ip, dp, o, name);
      Unsound(fs', Parent(fs, dp));
    } else if fs[dp].nlink < SHORT_MAX {
      hide DirOk, NlinkOk;
      forall j: nat | 0 < j < |fs| ensures NlinkOk(fs', j) { MkdirNlinks(fs, ip, dp, o, name, j); }
      forall d: nat | d < |fs| ensures DirOk(fs', d) {
        if d == dp { MkdirHere(fs, ip, dp, o, name); }
        else if d == ip { MkdirNew(fs, ip, dp, o, name); }
        else { MkdirElsewhere(fs, ip, dp, o, name, d); }
      }
      ShortUp(fs[dp].nlink);
      RootStays(fs, fs');
      OkSound(fs');
    } else {
      MkdirNlinks(fs, ip, dp, o, name, dp);
      Unsound(fs', dp);
    }
  }

  // ---------- unlink ----------

  /** `sys_unlink` of a file: its slot cleared, one link fewer. */
  function Unlinked(fs: Fs, dp: nat, o: nat): (r: Fs)
    requires dp < |fs| && o < |fs[dp].ents| && fs[dp].ents[o].inum < |fs|
    ensures |r| == |fs|
  {
    var ip := fs[dp].ents[o].inum;
    var fs1 := PutIn(fs, dp, o, Hole());
    fs1[ip := fs1[ip].(nlink := Short(fs1[ip].nlink - 1))]
  }

  /** Clearing a slot takes one reference from the inode it names, and from no other. */
  lemma ClearRefs(fs: Fs, dp: nat, o: nat, j: nat)
    requires dp < |fs| && o < |fs[dp].ents| && j != 0 && IsRef(fs, dp, o, fs[dp].ents[o].inum)
    ensures Refs(PutIn(fs, dp, o, Hole()), j) == if fs[dp].ents[o].inum == j then
      Refs(fs, j) - {(dp, o)} else Refs(fs, j)
    ensures fs[dp].ents[o].inum == j ==> (dp, o) in Refs(fs, j)
  {
    RefsClear(fs, dp, o, j);
    if fs[dp].ents[o].inum != j {
      assert (dp, o) !in Refs(fs, j);
    }
  }

  lemma UnlinkCount(fs: Fs, dp: nat, o: nat, ip: nat, j: nat)
    requires dp < |fs| && o < |fs[dp].ents| && fs[dp].ents[o].inum == ip && IsRef(fs, dp, o, ip) && 0 < ip < |fs|
      && 0 < j < |fs|
    requires NlinkOk(fs, j) && NlinkOk(fs, ip) && fs[ip].nlink >= 1 && fs[ip].kind != Dir
    ensures NlinkOk(Unlinked(fs, dp, o), j)
  {
    hide Refs, Short, Dot, Pad, PutEnt, IsRef;
    var fs1 := PutIn(fs, dp, o, Hole());
    var down := fs1[ip].(nlink := Short(fs1[ip].nlink - 1));
    ShortUp(fs[ip].nlink);
    ClearRefs(fs, dp, o, j);
    RefsSame(fs1, ip, down, j);
    assert Unlinked(fs, dp, o) == fs1[ip := down];
    CardAdd(Refs(fs, j), (dp, o));
  }

  lemma UnlinkFileNlinks(fs: Fs, dp: nat, o: nat, j: nat)
    requires Ok(fs) && dp < |fs| && Live(fs[dp]) && 2 <= o < |fs[dp].ents| && 0 < fs[dp].ents[o].inum < |fs|
    requires fs[fs[dp].ents[o].inum].kind != Dir && 0 < j < |fs|
    ensures NlinkOk(Unlinked(fs, dp, o), j)
  {
    var ip := fs[dp].ents[o].inum;
    EntryRefers(fs, dp, o);
    assert NlinkOk(fs, j) && NlinkOk(fs, ip);
    hide *;
    UnlinkCount(fs, dp, o, ip, j);
  }

  lemma NamesClear(ents: seq<Dirent>, o: nat)
    requires NamesDiffer(ents) && o < |ents|
    ensures NamesDiffer(PutEnt(ents, o, Hole()))
  {
    var r := PutEnt(ents, o, Hole());
    forall k, l | 0 <= k < l < |r| && Named(r[k]) && Named(r[l]) ensures r[k].name != r[l].name {}
  }

  lemma UnlinkFileDirs(fs: Fs, dp: nat, o: nat, d: nat)
    requires Ok(fs) && dp < |fs| && Live(fs[dp]) && 2 <= o < |fs[dp].ents| && 0 < fs[dp].ents[o].inum < |fs|
    requires fs[fs[dp].ents[o].inum].kind != Dir && d < |fs|
    ensures DirOk(Unlinked(fs, dp, o), d)
  {
    hide Refs, Dot, DotDot, Pad, NamesDiffer, Short;
    var fs', ip := Unlinked(fs, dp, o), fs[dp].ents[o].inum;
    EntryRefers(fs, dp, o);
    assert DirOk(fs, d) && DirOk(fs, dp) && DirOk(fs, ip);
    if Live(fs'[d]) {
      if d == dp { NamesClear(fs[dp].ents, o); }
      forall k: nat | 2 <= k < |fs'[d].ents| ensures SlotOk(fs', d, k) {
        if d != dp || k != o { assert SlotOk(fs, d, k); }
      }
      forall k: nat, l: nat | k < |fs'[d].ents| && l < |fs'[d].ents| ensures NamedOnce(fs', d, k, l) {
        if d != dp || (k != o && l != o) { assert NamedOnce(fs, d, k, l); }
      }
      if d != ROOT { NameStays(fs, fs', Parent(fs, d), d); }
    }
  }

  lemma UnlinkFileKeeps(fs: Fs, dp: nat, o: nat)
    requires Ok(fs) && dp < |fs| && Live(fs[dp]) && 2 <= o < |fs[dp].ents| && 0 < fs[dp].ents[o].inum < |fs|
    requires fs[fs[dp].ents[o].inum].kind != Dir
    ensures Ok(Unlinked(fs, dp, o))
  {
    hide DirOk, NlinkOk, Short;
    forall j: nat | 0 < j < |fs| ensures NlinkOk(Unlinked(fs, dp, o), j) { UnlinkFileNlinks(fs, dp, o, j); }
    forall d: nat | d < |fs| ensures DirOk(Unlinked(fs, dp, o), d) { UnlinkFileDirs(fs, dp, o, d); }
    RootStays(fs, Unlinked(fs, dp, o));
  }

  /** `sys_unlink` of a directory: also one link fewer to dp, for "..". */
  function Removed(fs: Fs, dp: nat, o: nat): (r: Fs)
    requires dp < |fs| && o < |fs[dp].ents| && fs[dp].ents[o].inum < |fs| && fs[dp].ents[o].inum != dp
    ensures |r| == |fs|
  {
    var ip := fs[dp].ents[o].inum;
    var fs1 := PutIn(fs, dp, o, Hole());
    fs1[dp := fs1[dp].(nlink := Short(fs1[dp].nlink - 1))][ip := fs[ip].(nlink := Short(fs[ip].nlink - 1))]
  }

  /** What is known when slot o of dp names the empty directory ip. */
  ghost predicate Removable(fs: Fs, dp: nat, o: nat, ip: nat)
  {
    && Ok(fs) && dp < |fs| && Live(fs[dp]) && 2 <= o < |fs[dp].ents| && fs[dp].ents[o].inum == ip
    && 0 < ip < |fs| && fs[ip].kind == Dir && OnlyDots(fs[ip].ents)
  }

  /** An empty directory has one link, its name; and its parent has another besides its "..". */
  lemma EmptyDirOnce(fs: Fs, dp: nat, o: nat, ip: nat)
    requires Removable(fs, dp, o, ip)
    ensures ip != ROOT && ip != dp && Dots(fs, ip) && Parent(fs, ip) == dp && Refs(fs, ip) == {(dp, o)}
      && fs[ip].nlink == 1
    ensures (ip, 1) in Refs(fs, dp) && fs[dp].nlink >= 2
  {
    assert DirOk(fs, dp) && SlotOk(fs, dp, o) && NlinkOk(fs, ip) && NlinkOk(fs, dp);
    EntryRefers(fs, dp, o);
    forall d: nat, k: nat | IsRef(fs, d, k, ip) ensures d == dp && k == o { OnlyName(fs, dp, o, ip, d, k); }
    assert Refs(fs, ip) == {(dp, o)};
    assert Live(fs[ip]) && DirOk(fs, ip);
    EntryRefers(fs, ip, 1);
    OtherRef(fs, dp, ip);
  }

  lemma OnlyName(fs: Fs, dp: nat, o: nat, ip: nat, d: nat, k: nat)
    requires Removable(fs, dp, o, ip) && IsRef(fs, d, k, ip)
    ensures d == dp && k == o
  {
    assert DirOk(fs, dp) && SlotOk(fs, dp, o) && DirOk(fs, d) && DirOk(fs, ip);
    if k >= 2 {
      assert SlotOk(fs, d, k) && NamedOnce(fs, d, k, o) && NamedOnce(fs, d, o, k);
    }
  }

  /** A directory in the tree is referred to by its name, or by the root's own "..". */
  lemma OtherRef(fs: Fs, dp: nat, ip: nat)
    requires Ok(fs) && 0 < dp < |fs| && Live(fs[dp]) && ip != dp && ip != ROOT && (ip, 1) in Refs(fs, dp)
    ensures |Refs(fs, dp)| >= 2
  {
    assert DirOk(fs, dp);
    var x: (nat, nat);
    if dp == ROOT {
      EntryRefers(fs, ROOT, 1);
      x := (ROOT, 1);
    } else {
      var p := Parent(fs, dp);
      var k: nat :| 2 <= k < |fs[p].ents| && fs[p].ents[k].inum == dp;
      EntryRefers(fs, p, k);
      x := (p, k);
    }
    assert x in Refs(fs, dp) - {(ip, 1)};
    CardAdd(Refs(fs, dp), (ip, 1));
  }

  lemma RemoveCount(fs: Fs, dp: nat, o: nat, ip: nat, j: nat)
    requires dp < |fs| && o < |fs[dp].ents| && fs[dp].ents[o].inum == ip && IsRef(fs, dp, o, ip) && 0 < ip < |fs|
      && 0 < j < |fs| && 0 < dp
    requires ip != dp && Dots(fs, ip) && Parent(fs, ip) == dp && fs[ip].kind == Dir && fs[ip].nlink == 1
      && fs[dp].nlink >= 2 && OnlyDots(fs[ip].ents)
    requires NlinkOk(fs, j) && NlinkOk(fs, dp) && NlinkOk(fs, ip)
    ensures NlinkOk(Removed(fs, dp, o), j)
  {
    hide Refs, Short, Dot, DotDot, Pad, PutEnt, IsRef, OnlyDots;
    var fs1 := PutIn(fs, dp, o, Hole());
    var fs2 := fs1[dp := fs1[dp].(nlink := Short(fs1[dp].nlink - 1))];
    var fs3 := Removed(fs, dp, o);
    ShortUp(fs[ip].nlink);
    ShortUp(fs[dp].nlink);
    ClearRefs(fs, dp, o, j);
    RefsSame(fs1, dp, fs2[dp], j);
    assert fs3[ip].nlink == 0 && fs3[ip := fs2[ip]] == fs2;
    RefsDots(fs3, ip, fs2[ip], j);
    CardAdd(Refs(fs, j), (dp, o));
    CardAdd(Refs(fs3, j), (ip, 1));
  }

  lemma RemoveNlinks(fs: Fs, dp: nat, o: nat, ip: nat, j: nat)
    requires Removable(fs, dp, o, ip) && ip != dp && 0 < j < |fs|
    ensures NlinkOk(Removed(fs, dp, o), j)
  {
    EmptyDirOnce(fs, dp, o, ip);
    assert dp != 0;
    assert NlinkOk(fs, j) && NlinkOk(fs, ip) && NlinkOk(fs, dp) && IsRef(fs, dp, o, ip);
    hide *;
    RemoveCount(fs, dp, o, ip, j);
  }

  /** Entries of directories other than ip that refer to ip: only slot o of dp. */
  lemma NoOtherName(fs: Fs, dp: nat, o: nat, ip: nat, d: nat, k: nat)
    requires Removable(fs, dp, o, ip) && d < |fs| && Live(fs[d]) && 1 <= k < |fs[d].ents| && !(d == dp && k == o)
    ensures fs[d].ents[k].inum != ip
  {
    if fs[d].ents[k].inum == ip {
      EntryRefers(fs, d, k);
      OnlyName(fs, dp, o, ip, d, k);
    }
  }

  lemma RemoveHere(fs: Fs, dp: nat, o: nat, ip: nat)
    requires Removable(fs, dp, o, ip) && ip != dp
    ensures DirOk(Removed(fs, dp, o), dp)
  {
    EmptyDirOnce(fs, dp, o, ip);
    assert NlinkOk(fs, dp);
    hide Refs, Dot, DotDot, Pad, NamesDiffer, Short, OnlyDots;
    ShortUp(fs[dp].nlink);
    var fs' := Removed(fs, dp, o);
    assert DirOk(fs, dp);
    NamesClear(fs[dp].ents, o);
    NoOtherName(fs, dp, o, ip, dp, 1);
    forall k: nat | 2 <= k < |fs'[dp].ents| ensures SlotOk(fs', dp, k) {
      if k != o {
        assert SlotOk(fs, dp, k);
        NoOtherName(fs, dp, o, ip, dp, k);
      }
    }
    forall k: nat, l: nat | k < |fs'[dp].ents| && l < |fs'[dp].ents| ensures NamedOnce(fs', dp, k, l) {
      if k != o && l != o { assert NamedOnce(fs, dp, k, l); }
    }
    if dp != ROOT { NameStays(fs, fs', Parent(fs, dp), dp); }
  }

  lemma RemoveElsewhere(fs: Fs, dp: nat, o: nat, ip: nat, d: nat)
    requires Removable(fs, dp, o, ip) && ip != dp && d < |fs| && d != dp
    ensures DirOk(Removed(fs, dp, o), d)
  {
    EmptyDirOnce(fs, dp, o, ip);
    assert NlinkOk(fs, dp) && DirOk(fs, d);
    hide Refs, Dot, DotDot, Pad, NamesDiffer, Short, OnlyDots, NlinkOk;
    ShortUp(fs[ip].nlink);
    ShortUp(fs[dp].nlink);
    var fs' := Removed(fs, dp, o);
    if Live(fs'[d]) {
      NoOtherName(fs, dp, o, ip, d, 1);
      forall k: nat | 2 <= k < |fs'[d].ents| ensures SlotOk(fs', d, k) {
        assert SlotOk(fs, d, k);
        NoOtherName(fs, dp, o, ip, d, k);
      }
      forall k: nat, l: nat | k < |fs'[d].ents| && l < |fs'[d].ents|
        ensures NamedOnce(fs', d, k, l) { assert NamedOnce(fs, d, k, l); }
      if d != ROOT { NameStays(fs, fs', Parent(fs, d), d); }
    }
  }

  /** Removing an empty directory keeps the invariant, and no count drops below zero. */
  lemma RemoveKeeps(fs: Fs, dp: nat, o: nat, ip: nat)
    requires Removable(fs, dp, o, ip)
    ensures ip != dp && Ok(Removed(fs, dp, o))
  {
    EmptyDirOnce(fs, dp, o, ip);
    hide DirOk, NlinkOk, Short;
    forall j: nat | 0 < j < |fs| ensures NlinkOk(Removed(fs, dp, o), j) { RemoveNlinks(fs, dp, o, ip, j); }
    forall d: nat | d < |fs| ensures DirOk(Removed(fs, dp, o), d) {
      if d == dp { RemoveHere(fs, dp, o, ip); } else { RemoveElsewhere(fs, dp, o, ip, d); }
    }
    ShortUp(fs[dp].nlink) by { assert NlinkOk(fs, dp); }
    RootStays(fs, Removed(fs, dp, o));
  }

  /** The last reference to an inode without links is dropped: the inode becomes free. */
  lemma ReapKeeps(fs: Fs, i: nat)
    requires Ok(fs) && 0 < i < |fs| && fs[i].nlink == 0
    ensures Ok(fs[i := Inode(Free, 0, [])])
  {
    var fs' := fs[i := Inode(Free, 0, [])];
    forall j: nat | 0 < j < |fs| ensures NlinkOk(fs', j) {
      assert NlinkOk(fs, j);
      RefsSame(fs, i, fs'[i], j);
    }
    forall d: nat | d < |fs| ensures DirOk(fs', d) { ReapDir(fs, i, d); }
  }

  lemma ReapDir(fs: Fs, i: nat, d: nat)
    requires Ok(fs) && 0 < i < |fs| && fs[i].nlink == 0 && d < |fs|
    ensures DirOk(fs[i := Inode(Free, 0, [])], d)
  {
    hide Refs, Dot, DotDot, Pad, NamesDiffer;
    var fs' := fs[i := Inode(Free, 0, [])];
    assert DirOk(fs, d);
    if Live(fs'[d]) {
      NothingRefers(fs, i, d, 1);
      forall k: nat | 2 <= k < |fs'[d].ents| ensures SlotOk(fs', d, k) {
        assert SlotOk(fs, d, k);
        NothingRefers(fs, i, d, k);
      }
      forall k: nat, l: nat | k < |fs'[d].ents| && l < |fs'[d].ents|
        ensures NamedOnce(fs', d, k, l) { assert NamedOnce(fs, d, k, l); }
      if d != ROOT { NameStays(fs, fs', Parent(fs, d), d); }
    }
  }
}
