/** dirlookup, dirlink, create, link and unlink (fs.c, sysfile.c) on the file system of module Links. */
module LinkOps {
  import opened Sectors
  import opened Links

  /** Entry names are stored padded. */
  predicate Padded(fs: Fs)
  {
    forall d, k ::
      0 <= d < |fs| && 0 <= k < |fs[d].ents| && Named(fs[d].ents[k]) ==> Pad(fs[d].ents[k].name) == fs[d].ents[k].name
  }

  lemma PadPad(name: Bytes)
    ensures Pad(Pad(name)) == Pad(name)
  {
    var r := Pad(name);
    var n := Len(r);
    forall i | n <= i < DIRSIZ ensures r[i] == 0 {}
    forall i | 0 <= i < DIRSIZ ensures Pad(r)[i] == r[i] {}
  }

  /** The first slot that names it, or the number of slots. */
  function Lookup(ents: seq<Dirent>, name: Bytes, from: nat): (k: nat)
    requires from <= |ents|
    ensures from <= k <= |ents|
    ensures k < |ents| ==> Named(ents[k]) && ents[k].name == name
    ensures forall j :: from <= j < k ==> !(Named(ents[j]) && ents[j].name == name)
    decreases |ents| - from
  {
    if from == |ents| || (Named(ents[from]) && ents[from].name == name) then from else Lookup(ents, name, from + 1)
  }

  /** The first hole, or the number of slots. */
  function FreeSlot(ents: seq<Dirent>, from: nat): (k: nat)
    requires from <= |ents|
    ensures from <= k <= |ents| && (k < |ents| ==> !Named(ents[k]))
    ensures forall j :: from <= j < k ==> Named(ents[j])
    decreases |ents| - from
  {
    if from == |ents| || !Named(ents[from]) then from else FreeSlot(ents, from + 1)
  }

  /** The first free inode from i on, or the number of inodes. */
  function FreeInode(fs: Fs, i: nat): (k: nat)
    requires i <= |fs|
    ensures i <= k <= |fs| && (k < |fs| ==> fs[k].kind == Free)
    ensures forall j :: i <= j < k ==> fs[j].kind != Free
    decreases |fs| - i
  {
    if i == |fs| || fs[i].kind == Free then i else FreeInode(fs, i + 1)
  }

  // ---------- what each call does ----------

  datatype Op =
    | Create(dp: nat, name: Bytes, kind: Kind)
    | Link(ip: nat, parent: int, name: Bytes)   // parent is -1 when the new path has no parent directory
    | Unlink(dp: nat, name: Bytes)
    | Reap(ip: nat)

  predicate IsDir(fs: Fs, d: int)
  {
    0 < d < |fs| && fs[d].kind == Dir
  }

  predicate Present(fs: Fs, dp: nat, name: Bytes)
    requires dp < |fs|
  {
    Lookup(fs[dp].ents, Pad(name), 0) < |fs[dp].ents|
  }

  /** The inode a name refers to. */
  function Found(fs: Fs, dp: nat, name: Bytes): nat
    requires dp < |fs| && Present(fs, dp, name)
  {
    fs[dp].ents[Lookup(fs[dp].ents, Pad(name), 0)].inum
  }

  /** The call's arguments exist and, for create, the inode found is in use, or else one is free. */
  predicate Callable(fs: Fs, op: Op)
  {
    match op
    case Create(dp, name, kind) =>
      && IsDir(fs, dp) && kind != Free
      && if Present(fs, dp, name) then
         Found(fs, dp, name) < |fs| && fs[Found(fs, dp, name)].kind != Free else FreeInode(fs, 1) < |fs|
    case Link(ip, dp, _) => 0 < ip < |fs| && fs[ip].kind != Free && (dp == -1 || IsDir(fs, dp))
    case Unlink(dp, _) => IsDir(fs, dp)
    case Reap(ip) => 0 < ip < |fs| && fs[ip].nlink == 0
  }

  /** The call changes something. */
  predicate Succeeds(fs: Fs, op: Op)
    requires Callable(fs, op)
  {
    match op
    case Create(dp, name, _) => !Present(fs, dp, name)
    case Link(ip, dp, name) => fs[ip].kind != Dir && dp != -1 && !Present(fs, dp, name)
    case Unlink(dp, name) =>
      && Pad(name) != Dot() && Pad(name) != DotDot() && Present(fs, dp, name)
      && var ip := fs[dp].ents[Lookup(fs[dp].ents, Pad(name), 0)].inum;
         ip < |fs| && ip != dp && !(fs[ip].kind == Dir && !OnlyDots(fs[ip].ents))
    case Reap(_) => true
  }

  function Step(fs: Fs, op: Op): (r: Fs)
    requires Callable(fs, op)
    ensures |r| == |fs|
  {
    if !Succeeds(fs, op) then fs
    else
      match op
      case Create(dp, name, kind) =>
        var ip, o := FreeInode(fs, 1), FreeSlot(fs[dp].ents, 0);
        if kind == Dir then
          MadeDir(fs, ip, dp, o, Pad(name)) else WithName(fs, ip, Inode(kind, 1, []), dp, o, Pad(name))
      case Link(ip, dp, name) =>
        WithName(fs, ip, fs[ip].(nlink := Short(fs[ip].nlink + 1)), dp, FreeSlot(fs[dp].ents, 0), Pad(name))
      case Unlink(dp, name) =>
        var o := Lookup(fs[dp].ents, Pad(name), 0);
        if fs[fs[dp].ents[o].inum].kind == Dir then Removed(fs, dp, o) else Unlinked(fs, dp, o)
      case Reap(ip) => fs[ip := Inode(Free, 0, [])]
  }

  /** The caller's side: names go into directories still in the tree, and counts fit a short. */
  predicate Proper(fs: Fs, op: Op)
    requires Callable(fs, op)
  {
    match op
    case Create(dp, _, kind) => fs[dp].nlink != 0 && (kind == Dir ==> fs[dp].nlink < SHORT_MAX)
    case Link(ip, dp, _) => dp != -1 ==> fs[dp].nlink != 0 && fs[ip].nlink < SHORT_MAX
    case _ => true
  }

  lemma SlotFree(fs: Fs, dp: nat, name: Bytes)
    requires Ok(fs) && IsDir(fs, dp) && !Present(fs, dp, name)
    ensures Room(fs, dp, FreeSlot(fs[dp].ents, 0), Pad(name))
  {
    assert DirOk(fs, dp);
    assert Named(fs[dp].ents[0]) && Named(fs[dp].ents[1]);
  }

  /** A call that succeeds keeps the counts, the names and the dots right, and the whole invariant,
      exactly when it is proper. */
  lemma StepKeeps(fs: Fs, op: Op)
    requires Ok(fs) && Callable(fs, op)
    ensures Sound(Step(fs, op)) <==> (Succeeds(fs, op) ==> Proper(fs, op))
    ensures Ok(Step(fs, op)) <==> Sound(Step(fs, op))
  {
    hide Ok, Sound, Short, MadeDir, WithName, Removed, Unlinked;
    if !Succeeds(fs, op) {
      OkSound(fs);
    } else {
      match op
      case Create(dp, name, kind) => CreateKeeps(fs, dp, name, kind);
      case Link(ip, dp, name) =>
        SlotFree(fs, dp, name);
        NlinkShort(fs, ip);
        NamingKeeps(fs, ip, fs[ip].(nlink := Short(fs[ip].nlink + 1)), dp, FreeSlot(fs[dp].ents, 0), Pad(name));
      case Unlink(dp, name) =>
        UnlinkKeeps(fs, dp, name);
        OkSound(Step(fs, op));
      case Reap(ip) =>
        ReapKeeps(fs, ip);
        OkSound(Step(fs, op));
    }
  }

  lemma NlinkShort(fs: Fs, i: nat)
    requires Ok(fs) && 0 < i < |fs|
    ensures 0 <= fs[i].nlink <= SHORT_MAX && (fs[i].kind == Free ==> fs[i].nlink == 0)
    ensures Short(fs[i].nlink + 1) == if fs[i].nlink < SHORT_MAX then fs[i].nlink + 1 else -SHORT_MAX - 1
  {
    assert NlinkOk(fs, i) && DirOk(fs, i);
  }

  lemma CreateKeeps(fs: Fs, dp: nat, name: Bytes, kind: Kind)
    requires Ok(fs) && Callable(fs, Create(dp, name, kind)) && Succeeds(fs, Create(dp, name, kind))
    ensures Sound(Step(fs, Create(dp, name, kind))) <==> Proper(fs, Create(dp, name, kind))
    ensures Ok(Step(fs, Create(dp, name, kind))) <==> Sound(Step(fs, Create(dp, name, kind)))
  {
    hide Ok, Sound, Short, MadeDir, WithName;
    SlotFree(fs, dp, name);
    var ip, o := FreeInode(fs, 1), FreeSlot(fs[dp].ents, 0);
    NlinkShort(fs, ip);
    NlinkShort(fs, dp);
    if kind == Dir { MkdirKeeps(fs, ip, dp, o, Pad(name)); }
    else { NamingKeeps(fs, ip, Inode(kind, 1, []), dp, o, Pad(name)); }
  }

  lemma UnlinkKeeps(fs: Fs, dp: nat, name: Bytes)
    requires Ok(fs) && Callable(fs, Unlink(dp, name)) && Succeeds(fs, Unlink(dp, name))
    ensures Ok(Step(fs, Unlink(dp, name)))
  {
    assert DirOk(fs, dp);
    var o := Lookup(fs[dp].ents, Pad(name), 0);
    assert o >= 2 && Live(fs[dp]);
    hide Short, MadeDir, WithName, Removed, Unlinked, DirOk, NlinkOk;
    if fs[fs[dp].ents[o].inum].kind == Dir { RemoveKeeps(fs, dp, o, fs[dp].ents[o].inum); } else
      { UnlinkFileKeeps(fs, dp, o); }
  }

  // ---------- what each call does to names and links ----------

  /** A name in directory d leads where it led before. */
  predicate SameName(fs: Fs, fs': Fs, d: nat, name: Bytes)
    requires d < |fs| && d < |fs'|
  {
    (Present(fs', d, name) <==> Present(fs, d, name)) && (Present(fs, d, name) ==>
      Found(fs', d, name) == Found(fs, d, name))
  }

  /** Every name in every directory leads where it led, but for this one. */
  ghost predicate OthersLead(fs: Fs, fs': Fs, dp: nat, name: Bytes)
  {
    |fs'| == |fs| && forall d: nat, other: Bytes ::
      d < |fs| && fs[d].kind == Dir && (d != dp || Pad(other) != Pad(name)) ==> SameName(fs, fs', d, other)
  }

  /** The name is gone, the inode it led to has one link less, and so has the directory if that was a
      directory, for its ".."; nothing else has changed. */
  ghost predicate NameGone(fs: Fs, fs': Fs, dp: nat, name: Bytes)
    requires dp < |fs| && Present(fs, dp, name)
  {
    var ip := Found(fs, dp, name);
    && |fs'| == |fs| && ip < |fs| && ip != dp
    && !Present(fs', dp, name) && OthersLead(fs, fs', dp, name)
    && fs'[ip] == fs[ip].(nlink := fs[ip].nlink - 1)
    && fs'[dp] == fs[dp].(ents := fs'[dp].ents, nlink := if fs[ip].kind == Dir then fs[dp].nlink - 1 else fs[dp].nlink)
    && forall i: nat :: i < |fs| && i != ip && i != dp ==> fs'[i] == fs[i]
  }

  /** The name is there and leads to ip; every inode but ip and the directory is as before. */
  ghost predicate NameAdded(fs: Fs, fs': Fs, dp: nat, name: Bytes, ip: nat)
  {
    && |fs'| == |fs| && dp < |fs| && ip < |fs| && ip != dp
    && Present(fs', dp, name) && Found(fs', dp, name) == ip && OthersLead(fs, fs', dp, name)
    && fs'[dp].kind == fs[dp].kind
    && forall i: nat :: i < |fs| && i != ip && i != dp ==> fs'[i] == fs[i]
  }

  /** A directory with no names but the dots, "." for itself and ".." for its parent. */
  ghost predicate Fresh(fs: Fs, d: nat, parent: nat)
  {
    && d < |fs| && (forall name: Bytes :: Present(fs, d, name) <==> Pad(name) == Dot() || Pad(name) == DotDot())
    && (forall name: Bytes :: Pad(name) == Dot() ==> Present(fs, d, name) && Found(fs, d, name) == d)
    && (forall name: Bytes :: Pad(name) == DotDot() ==> Present(fs, d, name) && Found(fs, d, name) == parent)
  }

  /** Writing a slot that neither held nor now holds the name does not change what it leads to. */
  lemma LookupPut(ents: seq<Dirent>, o: nat, e: Dirent, name: Bytes)
    requires o <= |ents| && !(Named(e) && e.name == name)
    requires o < |ents| ==> !(Named(ents[o]) && ents[o].name == name)
    ensures var l, l' := Lookup(ents, name, 0), Lookup(PutEnt(ents, o, e), name, 0);
            && (l < |ents| <==> l' < |PutEnt(ents, o, e)|)
            && (l < |ents| ==> l' == l && PutEnt(ents, o, e)[l] == ents[l])
  {
    hide Lookup, PutEnt;
    var ents' := PutEnt(ents, o, e);
    var l, l' := Lookup(ents, name, 0), Lookup(ents', name, 0);
    if l < |ents| { assert l != o && ents'[l] == ents[l]; }
    if l' < |ents'| { assert l' != o && l' < |ents| && ents'[l'] == ents[l']; }
  }

  /** In a directory all names differ, so a lookup finds the slot that holds the name. */
  lemma LookupAt(ents: seq<Dirent>, name: Bytes, k: nat)
    requires k < |ents| && Named(ents[k]) && ents[k].name == name
    requires forall j: nat :: j < |ents| && Named(ents[j]) && ents[j].name == name ==> j == k
    ensures Lookup(ents, name, 0) == k
  {
    hide Lookup;
    var l := Lookup(ents, name, 0);
    if l < |ents| { assert l == k; }
  }

  lemma SameEnts(fs: Fs, fs': Fs, d: nat, name: Bytes)
    requires d < |fs| && d < |fs'| && fs'[d].ents == fs[d].ents
    ensures SameName(fs, fs', d, name)
  {
    hide Lookup, Pad;
  }

  /** One slot of dp written, and counts changed. */
  lemma OneSlot(fs: Fs, fs': Fs, dp: nat, o: nat, e: Dirent, name: Bytes)
    requires dp < |fs| == |fs'| && o <= |fs[dp].ents| && fs'[dp].ents == PutEnt(fs[dp].ents, o, e)
    requires Named(e) ==> e.name == Pad(name)
    requires o < |fs[dp].ents| && Named(fs[dp].ents[o]) ==> fs[dp].ents[o].name == Pad(name)
    requires forall d: nat :: d < |fs| && d != dp && fs[d].kind == Dir ==> fs'[d].ents == fs[d].ents
    ensures OthersLead(fs, fs', dp, name)
  {
    hide Lookup, Pad, PutEnt;
    forall d: nat, other: Bytes | d < |fs| && fs[d].kind == Dir && (d != dp || Pad(other) != Pad(name))
      ensures SameName(fs, fs', d, other)
    {
      if d == dp { LookupPut(fs[dp].ents, o, e, Pad(other)); } else { SameEnts(fs, fs', d, other); }
    }
  }

  /** unlink removes the name it was given and no other. */
  lemma UnlinkDoes(fs: Fs, dp: nat, name: Bytes)
    requires Ok(fs) && IsDir(fs, dp) && Succeeds(fs, Unlink(dp, name))
    ensures NameGone(fs, Step(fs, Unlink(dp, name)), dp, name)
  {
    hide Ok, Lookup, Pad, Short, PutEnt, OnlyDots, NamesDiffer, OthersLead;
    FoundRefers(fs, dp, name);
    LiveNames(fs, dp);
    NlinkShort(fs, dp);
    var o := Lookup(fs[dp].ents, Pad(name), 0);
    var ip := fs[dp].ents[o].inum;
    NlinkShort(fs, ip);
    ShortUp(fs[dp].nlink);
    ShortUp(fs[ip].nlink);
    var fs' := Step(fs, Unlink(dp, name));
    assert fs'[dp].ents == PutEnt(fs[dp].ents, o, Hole());
    OneSlot(fs, fs', dp, o, Hole(), name);
    LookupGone(fs[dp].ents, Pad(name));
  }

  lemma LiveNames(fs: Fs, d: nat)
    requires Ok(fs) && d < |fs| && Live(fs[d])
    ensures NamesDiffer(fs[d].ents)
  {
    assert DirOk(fs, d);
  }

  lemma LookupGone(ents: seq<Dirent>, name: Bytes)
    requires NamesDiffer(ents) && Lookup(ents, name, 0) < |ents|
    ensures var ents' := PutEnt(ents, Lookup(ents, name, 0), Hole()); Lookup(ents', name, 0) == |ents'|
  {
    hide Lookup, PutEnt;
    var o := Lookup(ents, name, 0);
    var ents' := PutEnt(ents, o, Hole());
    forall k: nat | k < |ents'| ensures !(Named(ents'[k]) && ents'[k].name == name) {
      assert k != o ==> ents'[k] == ents[k];
    }
  }

  /** unlink succeeds for every name but the dots, of a file or of a directory with no other names. */
  lemma UnlinkCan(fs: Fs, dp: nat, name: Bytes)
    requires Ok(fs) && Padded(fs) && IsDir(fs, dp)
    ensures Succeeds(fs, Unlink(dp, name)) <==>
              && Pad(name) != Dot() && Pad(name) != DotDot() && Present(fs, dp, name)
              && Found(fs, dp, name) < |fs| && NoOthers(fs, Found(fs, dp, name))
  {
    hide Pad, Lookup;
    if Pad(name) != Dot() && Pad(name) != DotDot() && Present(fs, dp, name) {
      FoundRefers(fs, dp, name);
      var ip := Found(fs, dp, name);
      if fs[ip].kind == Dir { EmptyIs(fs, ip); }
    }
  }

  /** If this is a directory, its only names are the dots. */
  ghost predicate NoOthers(fs: Fs, i: nat)
    requires i < |fs|
  {
    fs[i].kind == Dir ==> forall other: Bytes :: Present(fs, i, other) ==> Pad(other) == Dot() || Pad(other) == DotDot()
  }

  lemma EmptyIs(fs: Fs, i: nat)
    requires Ok(fs) && Padded(fs) && i < |fs| && fs[i].kind == Dir
    ensures OnlyDots(fs[i].ents) <==> NoOthers(fs, i)
  {
    assert DirOk(fs, i);
    hide Ok, Pad, Lookup;
    var ents := fs[i].ents;
    if OnlyDots(ents) {
      forall other: Bytes | Present(fs, i, other) ensures Pad(other) == Dot() || Pad(other) == DotDot() {
        assert Lookup(ents, Pad(other), 0) < 2;
      }
    } else {
      var k :| 2 <= k < |ents| && ents[k].inum != 0;
      assert Named(ents[0]) && Named(ents[1]) && Named(ents[k]);
      assert ents[k].name != Dot() && ents[k].name != DotDot();
      assert Pad(ents[k].name) == ents[k].name;
      assert Present(fs, i, ents[k].name);
    }
  }

  lemma LookupAdded(ents: seq<Dirent>, o: nat, e: Dirent)
    requires o <= |ents| && Named(e) && Lookup(ents, e.name, 0) == |ents|
    ensures Lookup(PutEnt(ents, o, e), e.name, 0) == o
  {
    hide Lookup, PutEnt;
    var ents' := PutEnt(ents, o, e);
    forall j: nat | j < |ents'| && j != o ensures !(Named(ents'[j]) && ents'[j].name == e.name) {
      assert ents'[j] == ents[j];
    }
    LookupAt(ents', e.name, o);
  }

  /** link adds the name and one link. */
  lemma LinkDoes(fs: Fs, ip: nat, dp: nat, name: Bytes)
    requires Ok(fs) && Callable(fs, Link(ip, dp, name)) && Succeeds(fs, Link(ip, dp, name)) && fs[ip].nlink < SHORT_MAX
    ensures var fs' := Step(fs, Link(ip, dp, name));
            && NameAdded(fs, fs', dp, name, ip) && fs'[ip] == fs[ip].(nlink := fs[ip].nlink + 1)
            && fs'[dp].nlink == fs[dp].nlink
  {
    NlinkShort(fs, ip);
    hide Ok, Lookup, Pad, Short, PutEnt, FreeSlot;
    var fs', o := Step(fs, Link(ip, dp, name)), FreeSlot(fs[dp].ents, 0);
    OneSlot(fs, fs', dp, o, Dirent(ip, Pad(name)), name);
    LookupAdded(fs[dp].ents, o, Dirent(ip, Pad(name)));
  }

  /** create adds the name for an inode that was free; a new directory has the dots and nothing else. */
  lemma CreateDoes(fs: Fs, dp: nat, name: Bytes, kind: Kind)
    requires Ok(fs) && Callable(fs, Create(dp, name, kind)) && Succeeds(fs, Create(dp, name, kind))
    requires kind == Dir ==> fs[dp].nlink < SHORT_MAX
    ensures var fs' := Step(fs, Create(dp, name, kind));
            && Present(fs', dp, name) && var ip := Found(fs', dp, name);
            && NameAdded(fs, fs', dp, name, ip) && fs[ip].kind == Free && fs'[ip].kind == kind && fs'[ip].nlink == 1
            && fs'[dp].nlink == (if kind == Dir then fs[dp].nlink + 1 else fs[dp].nlink)
            && ip == FreeInode(fs, 1) && (if kind == Dir then Fresh(fs', ip, dp) else fs'[ip] == Inode(kind, 1, []))
  {
    NlinkShort(fs, dp);
    hide Ok, Lookup, Pad, Short, PutEnt, FreeSlot, FreeInode;
    var fs', ip, o := Step(fs, Create(dp, name, kind)), FreeInode(fs, 1), FreeSlot(fs[dp].ents, 0);
    OneSlot(fs, fs', dp, o, Dirent(ip, Pad(name)), name);
    LookupAdded(fs[dp].ents, o, Dirent(ip, Pad(name)));
    if kind == Dir { FreshDir(fs', ip, dp); }
  }

  lemma FreshDir(fs: Fs, ip: nat, dp: nat)
    requires 0 < ip < |fs| && 0 < dp && fs[ip].ents == [Dirent(ip, Dot()), Dirent(dp, DotDot())]
    ensures Fresh(fs, ip, dp)
  {
    DotsDiffer();
    hide Pad, Lookup, Dot, DotDot;
    LookupAt(fs[ip].ents, Dot(), 0);
    LookupAt(fs[ip].ents, DotDot(), 1);
  }

  // ---------- every run ----------

  ghost predicate ProperRun(fs: Fs, ops: seq<Op>)
    decreases |ops|
  {
    ops == [] || (Callable(fs, ops[0]) && Proper(fs, ops[0]) && ProperRun(Step(fs, ops[0]), ops[1..]))
  }

  function Run(fs: Fs, ops: seq<Op>): Fs
    requires ProperRun(fs, ops)
    decreases |ops|
  {
    if ops == [] then fs else Run(Step(fs, ops[0]), ops[1..])
  }

  /** Over every proper sequence of calls: nlink counts the entries, other than ".", of directories in
      the tree; names in a directory differ up to DIRSIZ; entries 0 and 1 are "." and "..". */
  lemma {:induction false} RunKeeps(fs: Fs, ops: seq<Op>)
    requires Ok(fs) && ProperRun(fs, ops)
    ensures Ok(Run(fs, ops))
    decreases |ops|
  {
    hide Ok, Step;
    if ops != [] {
      StepKeeps(fs, ops[0]);
      RunKeeps(Step(fs, ops[0]), ops[1..]);
    }
  }

  // ---------- fs.c and sysfile.c ----------

  datatype Answer = Done | Fail | Panic

  class Tree {
    var fs: Fs

    ghost predicate Valid()
      reads this
    {
      Ok(fs) && Padded(fs)
    }

    /** `dirlookup`: the slot that holds the name. */
    method Dirlookup(dp: nat, name: Bytes) returns (found: bool, o: nat)
      requires dp < |fs| && Padded(fs)
      ensures o == Lookup(fs[dp].ents, Pad(name), 0)
      ensures found <==> o < |fs[dp].ents|
    {
      o := 0;
      while o < |fs[dp].ents|
        invariant o <= |fs[dp].ents| && Lookup(fs[dp].ents, Pad(name), 0) == Lookup(fs[dp].ents, Pad(name), o)
      {
        var de := fs[dp].ents[o];
        if de.inum != 0 {
          var r := Namecmp(name, de.name);
          assert Named(de);
          if r == 0 { return true, o; }
        }
        o := o + 1;
      }
      found := false;
    }

    /** `dirlink`: the entry in the first free slot, unless the name is present. */
    method Dirlink(dp: nat, name: Bytes, inum: nat) returns (ok: bool)
      requires dp < |fs| && Padded(fs)
      modifies this
      ensures ok <==> !Present(old(fs), dp, name)
      ensures fs == if ok then PutIn(old(fs), dp, FreeSlot(old(fs)[dp].ents, 0), Dirent(inum, Pad(name))) else old(fs)
      ensures Padded(fs)
    {
      var found, _ := Dirlookup(dp, name);
      if found { return false; }
      var o := 0;
      while o < |fs[dp].ents| && fs[dp].ents[o].inum != 0
        invariant o <= |fs[dp].ents| && FreeSlot(fs[dp].ents, 0) == FreeSlot(fs[dp].ents, o) && fs == old(fs)
      {
        o := o + 1;
      }
      var stored := Strncpy(name);
      PadPad(name);
      PutPadded(fs, dp, o, Dirent(inum, stored));
      fs := PutIn(fs, dp, o, Dirent(inum, stored));
      ok := true;
    }

    /** `isdirempty`: nothing but the dots. */
    method Isdirempty(dp: nat) returns (empty: bool)
      requires dp < |fs|
      ensures empty <==> OnlyDots(fs[dp].ents)
    {
      var o := 2;
      while o < |fs[dp].ents|
        invariant 2 <= o && forall k :: 2 <= k < o && k < |fs[dp].ents| ==> fs[dp].ents[k].inum == 0
      {
        if fs[dp].ents[o].inum != 0 { return false; }
        o := o + 1;
      }
      empty := true;
    }

    /** `ialloc`: the first free inode, or 0 for its panic when there is none. */
    method Ialloc(kind: Kind) returns (i: nat)
      requires |fs| > 0
      modifies this
      ensures i == (if FreeInode(old(fs), 1) < |old(fs)| then FreeInode(old(fs), 1) else 0)
      ensures fs == if i == 0 then old(fs) else old(fs)[i := Inode(kind, 0, [])]
    {
      i := 1;
      while i < |fs|
        invariant 1 <= i <= |fs| && FreeInode(fs, 1) == FreeInode(fs, i) && fs == old(fs)
      {
        if fs[i].kind == Free {
          fs := fs[i := Inode(kind, 0, [])];
          return;
        }
        i := i + 1;
      }
      i := 0;
    }

    /** `sys_link` once its paths are resolved: the link count goes up first and is put back on failure. */
    method Link(ip: nat, dp: int, name: Bytes) returns (r: Answer)
      requires Valid() && Callable(fs, Op.Link(ip, dp, name))
      modifies this
      ensures r == if Succeeds(old(fs), Op.Link(ip, dp, name)) then Done else Fail
      ensures fs == Step(old(fs), Op.Link(ip, dp, name)) && Padded(fs)
      ensures r == Done && old(fs)[ip].nlink < SHORT_MAX ==>
        dp > 0 && NameAdded(old(fs), fs, dp, name, ip) && fs[ip] == old(fs)[ip].(nlink := old(fs)[ip].nlink + 1)
    {
      hide Ok, NameAdded;
      if Succeeds(fs, Op.Link(ip, dp, name)) && fs[ip].nlink < SHORT_MAX { LinkDoes(fs, ip, dp, name); }
      if fs[ip].kind == Dir { return Fail; }
      NlinkShort(fs, ip);
      fs := fs[ip := fs[ip].(nlink := Short(fs[ip].nlink + 1))];
      if dp != -1 {
        var ok := Dirlink(dp, name, ip);
        if ok { return Done; }
      }
      fs := fs[ip := fs[ip].(nlink := Short(fs[ip].nlink - 1))];
      assert Short(Short(old(fs)[ip].nlink + 1) - 1) == old(fs)[ip].nlink;
      assert fs == old(fs);
      r := Fail;
    }

    /** `sys_unlink` once its path is resolved; the link counts it relies on never make it panic. */
    method Unlink(dp: nat, name: Bytes) returns (r: Answer)
      requires Valid() && IsDir(fs, dp)
      modifies this
      ensures r == if Succeeds(old(fs), Op.Unlink(dp, name)) then Done else Fail
      ensures fs == Step(old(fs), Op.Unlink(dp, name)) && Padded(fs)
      ensures r == Done ==> Present(old(fs), dp, name) && NameGone(old(fs), fs, dp, name)
    {
      hide Ok, Short, OnlyDots, Lookup, Pad, NameGone;
      if Succeeds(fs, Op.Unlink(dp, name)) { UnlinkDoes(fs, dp, name); }
      var isDot := Namecmp(name, [46]);
      var isDotDot := Namecmp(name, [46, 46]);
      if isDot == 0 || isDotDot == 0 { return Fail; }
      var found, o := Dirlookup(dp, name);
      if !found { return Fail; }
      FoundRefers(fs, dp, name);
      var ip := fs[dp].ents[o].inum;
      if fs[ip].nlink < 1 { assert false; }
      var dir := fs[ip].kind == Dir;
      if dir {
        var empty := Isdirempty(ip);
        if !empty { return Fail; }
      }
      ClearPadded(fs, dp, o);
      fs := PutIn(fs, dp, o, Hole());
      if dir { fs := fs[dp := fs[dp].(nlink := Short(fs[dp].nlink - 1))]; }
      fs := fs[ip := fs[ip].(nlink := Short(fs[ip].nlink - 1))];
      r := Done;
    }

    /** `create` once its path is resolved: the file found or the inode made, 0 if the name is taken
        otherwise; it panics if the inode found is free, or none is. */
    method Create(dp: nat, name: Bytes, kind: Kind) returns (r: Answer, ip: nat)
      requires Valid() && IsDir(fs, dp) && kind != Free
      modifies this
      ensures r == Panic <==> !Callable(old(fs), Op.Create(dp, name, kind))
      ensures r != Panic ==> fs == Step(old(fs), Op.Create(dp, name, kind)) && Padded(fs)
      ensures r != Panic && !Present(old(fs), dp, name) ==> r == Done && ip == FreeInode(old(fs), 1)
      ensures r != Panic && Present(old(fs), dp, name) ==>
        if kind == File && old(fs)[Found(old(fs), dp, name)].kind == File then
          r == Done && ip == Found(old(fs), dp, name)
        else r == Fail && ip == 0
      ensures r == Done && !Present(old(fs), dp, name) && old(fs)[dp].nlink < SHORT_MAX ==>
        && NameAdded(old(fs), fs, dp, name, ip) && old(fs)[ip].kind == Free
        && (if kind == Dir then Fresh(fs, ip, dp) else fs[ip] == Inode(kind, 1, []))
    {
      hide Ok, Short, Pad, Step, MadeDir, WithName, Padded, NameAdded, Fresh;
      var found, o := Dirlookup(dp, name);
      if found {
        FoundInRange(fs, dp, name);
        ip := fs[dp].ents[o].inum;
        if fs[ip].kind == Free { return Panic, 0; }      // ilock: no type
        UnchangedStep(fs, Op.Create(dp, name, kind));
        if kind == File && fs[ip].kind == File { return Done, ip; }
        return Fail, 0;
      }
      ip := Ialloc(kind);
      if ip == 0 { return Panic, 0; }
      CreateStep(old(fs), dp, name, kind);
      if old(fs)[dp].nlink < SHORT_MAX { CreateDoes(old(fs), dp, name, kind); }
      Install(dp, ip, name);
      r := Done;
    }

    /** The rest of `create`: the links, the dots of a directory, and the name; none of its panics can happen. */
    method Install(dp: nat, ip: nat, name: Bytes)
      requires Padded(fs) && 0 < ip < |fs| && 0 < dp < |fs| && ip != dp && fs[ip] == Inode(fs[ip].kind, 0, [])
        && !Present(fs, dp, name)
      modifies this
      ensures Padded(fs)
      ensures var o := FreeSlot(old(fs)[dp].ents, 0);
        fs == if old(fs)[ip].kind == Dir then
          MadeDir(old(fs), ip, dp, o, Pad(name)) else WithName(old(fs), ip, old(fs)[ip].(nlink := 1), dp, o, Pad(name))
    {
      hide Short, Pad;
      fs := fs[ip := fs[ip].(nlink := 1)];
      if fs[ip].kind == Dir {
        fs := fs[dp := fs[dp].(nlink := Short(fs[dp].nlink + 1))];
        WriteDots(ip, dp);
        assert fs == old(fs)[ip := NewDir(ip, dp)][dp := old(fs)[dp].(nlink := Short(old(fs)[dp].nlink + 1))];
      }
      var ok := Dirlink(dp, name, ip);
      assert ok;
    }

    /** The two dots of a directory just allocated. */
    method WriteDots(ip: nat, dp: nat)
      requires 0 < ip < |fs| && 0 < dp && Padded(fs) && fs[ip].ents == []
      modifies this
      ensures fs == old(fs)[ip := old(fs)[ip].(ents := [Dirent(ip, Dot()), Dirent(dp, DotDot())])] && Padded(fs)
    {
      var _ := Dirlink(ip, [46], ip);
      assert fs[ip].ents == [Dirent(ip, Dot())];
      DotsDiffer();
      var _ := Dirlink(ip, [46, 46], dp);
      assert fs[ip].ents == [Dirent(ip, Dot()), Dirent(dp, DotDot())];
    }

    /** `iput` of the last reference to an inode with no links. */
    method Iput(ip: nat)
      requires Valid() && 0 < ip < |fs|
      modifies this
      ensures fs == if old(fs)[ip].nlink == 0 then Step(old(fs), Reap(ip)) else old(fs)
      ensures fs == if old(fs)[ip].nlink == 0 then old(fs)[ip := Inode(Free, 0, [])] else old(fs)
    {
      if fs[ip].nlink == 0 {
        fs := fs[ip := Inode(Free, 0, [])];
      }
    }
  }

  lemma UnchangedStep(fs: Fs, op: Op)
    requires Callable(fs, op) && !Succeeds(fs, op)
    ensures Step(fs, op) == fs
  {
  }

  /** Allocating the inode first does not change what `create` comes to. */
  lemma CreateStep(fs: Fs, dp: nat, name: Bytes, kind: Kind)
    requires Callable(fs, Create(dp, name, kind)) && !Present(fs, dp, name) && Padded(fs)
    ensures var ip, o := FreeInode(fs, 1), FreeSlot(fs[dp].ents, 0);
      var fs1 := fs[ip := Inode(kind, 0, [])];
      && ip != dp && Padded(fs1) && !Present(fs1, dp, name) && fs1[dp] == fs[dp]
      && Step(fs, Create(dp, name, kind)) == if kind == Dir then
         MadeDir(fs1, ip, dp, o, Pad(name)) else WithName(fs1, ip, fs1[ip].(nlink := 1), dp, o, Pad(name))
  {
    hide Short, Pad;
  }

  lemma FoundInRange(fs: Fs, dp: nat, name: Bytes)
    requires Ok(fs) && IsDir(fs, dp) && Present(fs, dp, name)
    ensures Found(fs, dp, name) < |fs|
  {
    assert DirOk(fs, dp);
    var o := Lookup(fs[dp].ents, Pad(name), 0);
    if o >= 2 && fs[dp].nlink != 0 { assert SlotOk(fs, dp, o); }
  }

  /** A name other than the dots is found only in a directory in the tree, and names an inode with links. */
  lemma FoundRefers(fs: Fs, dp: nat, name: Bytes)
    requires Ok(fs) && IsDir(fs, dp) && Present(fs, dp, name) && Pad(name) != Dot() && Pad(name) != DotDot()
    ensures var ip := fs[dp].ents[Lookup(fs[dp].ents, Pad(name), 0)].inum;
      0 < ip < |fs| && ip != dp && fs[ip].nlink >= 1 && Live(fs[dp])
  {
    assert DirOk(fs, dp);
    var o := Lookup(fs[dp].ents, Pad(name), 0);
    assert o >= 2;
    assert Live(fs[dp]);
    EntryRefers(fs, dp, o);
    assert SlotOk(fs, dp, o);
  }

  lemma ClearPadded(fs: Fs, d: nat, o: nat)
    requires Padded(fs) && d < |fs| && o < |fs[d].ents|
    ensures Padded(PutIn(fs, d, o, Hole()))
  {
    var fs' := PutIn(fs, d, o, Hole());
    forall a, b | 0 <= a < |fs'| && 0 <= b < |fs'[a].ents| && Named(fs'[a].ents[b])
      ensures Pad(fs'[a].ents[b].name) == fs'[a].ents[b].name
    {
      if a == d { assert b != o && fs'[a].ents[b] == fs[a].ents[b]; }
    }
  }

  lemma PutPadded(fs: Fs, d: nat, o: nat, e: Dirent)
    requires Padded(fs) && d < |fs| && o <= |fs[d].ents| && Pad(e.name) == e.name
    ensures Padded(PutIn(fs, d, o, e))
  {
    var fs' := PutIn(fs, d, o, e);
    forall a, b | 0 <= a < |fs'| && 0 <= b < |fs'[a].ents| && Named(fs'[a].ents[b])
      ensures Pad(fs'[a].ents[b].name) == fs'[a].ents[b].name
    {
      if a != d || b != o { assert fs'[a].ents[b] == fs[a].ents[b]; }
    }
  }

  // ---------- the first state, and a run that breaks the counts ----------

  /** A file system with an empty root directory and n free inodes. */
  function Blank(n: nat): Fs
  {
    [Inode(Free, 0, []), Inode(Dir, 1, [Dirent(ROOT, Dot()), Dirent(ROOT, DotDot())])] + seq(n, i => Inode(Free, 0, []))
  }

  lemma BlankOk(n: nat)
    ensures Ok(Blank(n)) && Padded(Blank(n))
  {
    var fs := Blank(n);
    DotsDiffer();
    PadPad([46]);
    PadPad([46, 46]);
    hide Dot, DotDot, Pad;
    forall d: nat, k: nat, i: nat | i != 0 ensures IsRef(fs, d, k, i) <==> d == ROOT && k == 1 && i == ROOT {}
    forall i: nat | 0 < i < |fs| ensures NlinkOk(fs, i) {
      assert Refs(fs, i) == if i == ROOT then {(ROOT, 1)} else {};
    }
  }

  const REMOVED: nat := 2

  /** The root, and a directory whose name has been removed while it is still in use. */
  function WithRemoved(): Fs
  {
    [Inode(Free, 0, []), Inode(Dir, 1, [Dirent(ROOT, Dot()), Dirent(ROOT, DotDot())]),
     Inode(Dir, 0, [Dirent(REMOVED, Dot()), Dirent(ROOT, DotDot())]), Inode(Free, 0, [])]
  }

  lemma RemovedOk()
    ensures Ok(WithRemoved())
  {
    var fs := WithRemoved();
    DotsDiffer();
    hide Dot, DotDot, Pad;
    forall d: nat, k: nat, i: nat | i != 0 ensures IsRef(fs, d, k, i) <==> d == ROOT && k == 1 && i == ROOT {}
    forall i: nat | 0 < i < |fs| ensures NlinkOk(fs, i) {
      assert Refs(fs, i) == if i == ROOT then {(ROOT, 1)} else {};
    }
  }

  /** Creating a file in a removed directory: the state before is right, and after it the file counts
      a link that no directory in the tree has. */
  lemma CreateInRemoved(name: Bytes)
    requires Pad(name) != Dot() && Pad(name) != DotDot()
    ensures Ok(WithRemoved()) && Callable(WithRemoved(), Create(REMOVED, name, File))
    ensures var fs := Step(WithRemoved(), Create(REMOVED, name, File));
            |fs| == 4 && !NlinkOk(fs, 3) && !Sound(fs)
  {
    var fs := WithRemoved();
    DotsDiffer();
    hide Dot, DotDot, Pad, Ok;
    RemovedOk();
    assert !Present(fs, REMOVED, name);
    assert FreeInode(fs, 3) == 3 && FreeInode(fs, 2) == 3 && FreeInode(fs, 1) == 3;
    var fs' := Step(fs, Create(REMOVED, name, File));
    forall d: nat, k: nat ensures !IsRef(fs', d, k, 3) {}
    assert Refs(fs', 3) == {};
  }
}
