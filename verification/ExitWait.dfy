/** fork, exit, wait and kill over the process table (proc.c), as the sections that run with
    ptable.lock held and the unlocked writes of fork between them, for any interleaving. */
module ExitWait {

  datatype PState = UNUSED | EMBRYO | SLEEPING | RUNNABLE | RUNNING | ZOMBIE

  /** A sleep channel: the address of a process (used by wait), or any other kernel address. */
  datatype Chan = NoChan | OnProc(p: int) | OnOther(c: int)

  /** What a process is executing: fork between its writes, or asleep inside wait. */
  datatype Pc = User | Forking(np: nat, linked: bool) | Waiting

  datatype Proc = Proc(state: PState, pid: int, parent: int, chan: Chan, killed: bool, pc: Pc)

  // ---------- specifications of the table scans ----------

  /** The first index from i on satisfying f, or the size of the table. */
  function First(procs: seq<Proc>, f: Proc -> bool, i: nat): (r: nat)
    requires i <= |procs|
    ensures i <= r <= |procs|
    ensures r < |procs| ==> f(procs[r])
    ensures forall j :: i <= j < r ==> !f(procs[j])
    decreases |procs| - i
  {
    if i == |procs| || f(procs[i]) then i else First(procs, f, i + 1)
  }

  function WakeOne(q: Proc, chan: Chan): Proc
  {
    if q.state == SLEEPING && q.chan == chan then q.(state := RUNNABLE) else q
  }

  function Wake(procs: seq<Proc>, chan: Chan): (r: seq<Proc>)
    ensures |r| == |procs|
    ensures forall i {:trigger r[i]} :: 0 <= i < |r| ==> r[i] == WakeOne(procs[i], chan)
  {
    seq(|procs|, i requires 0 <= i < |procs| => WakeOne(procs[i], chan))
  }

  predicate Child(q: Proc, me: int) { q.parent == me }

  predicate ZombieChild(q: Proc, me: int) { q.parent == me && q.state == ZOMBIE }

  predicate HasZombieChild(procs: seq<Proc>, me: int, n: nat)
    requires n <= |procs|
  {
    exists i :: 0 <= i < n && ZombieChild(procs[i], me)
  }

  predicate HasChild(procs: seq<Proc>, me: int)
  {
    exists i :: 0 <= i < |procs| && Child(procs[i], me)
  }

  function AdoptOne(q: Proc, me: int, init: int): Proc
  {
    if q.parent == me then q.(parent := init) else q
  }

  /** Every child of me passes to init, which is woken if one of them is a zombie. */
  function Adopt(procs: seq<Proc>, me: int, init: int): (r: seq<Proc>)
    ensures |r| == |procs|
    ensures forall i {:trigger r[i]} :: 0 <= i < |r| ==>
      r[i] == AdoptOne(if HasZombieChild(procs, me, |procs|) then
        WakeOne(procs[i], OnProc(init)) else procs[i], me, init)
  {
    var woken := if HasZombieChild(procs, me, |procs|) then Wake(procs, OnProc(init)) else procs;
    seq(|procs|, i requires 0 <= i < |procs| => AdoptOne(woken[i], me, init))
  }

  /** What is left of a reaped slot. */
  function Reaped(q: Proc): Proc
  {
    q.(state := UNUSED, pid := 0, parent := -1, killed := false)
  }

  // ---------- the table and its operations ----------

  datatype Table = Table(procs: seq<Proc>, nextpid: int, init: nat, exited: seq<int>, reaped: seq<int>)

  datatype Op =
    | Alloc(p: nat) | ForkFail(p: nat) | ForkLink(p: nat) | ForkRun(p: nat)
    | Exit(p: nat) | Wait(p: nat) | Pick(p: nat)
    | Yield(p: nat) | SleepOn(p: nat, c: int) | WakeOn(c: int) | Kill(pid: int)

  function AllocSpec(t: Table, p: nat): (r: Table)
    requires p < |t.procs|
    ensures |r.procs| == |t.procs| && r.init == t.init
  {
    var k := First(t.procs, (q: Proc) => q.state == UNUSED, 0);
    if k == |t.procs| then t
    else
      var procs := t.procs[k := t.procs[k].(state := EMBRYO, pid := t.nextpid)];
      t.(procs := procs[p := procs[p].(pc := Forking(k, false))], nextpid := t.nextpid + 1)
  }

  function ExitSpec(t: Table, p: nat): (r: Table)
    requires p < |t.procs|
    ensures |r.procs| == |t.procs| && r.init == t.init
  {
    var procs := Adopt(Wake(t.procs, OnProc(t.procs[p].parent)), p, t.init);
    t.(procs := procs[p := procs[p].(state := ZOMBIE)], exited := t.exited + [t.procs[p].pid])
  }

  /** One pass of wait's outer loop: reap the first zombie child, give up, or go to sleep. */
  function WaitSpec(t: Table, p: nat): (r: Table)
    requires p < |t.procs|
    ensures |r.procs| == |t.procs| && r.init == t.init
  {
    var k := First(t.procs, (q: Proc) => ZombieChild(q, p), 0);
    if k < |t.procs| then
      var procs := t.procs[k := Reaped(t.procs[k])];
      t.(procs := procs[p := procs[p].(pc := User)], reaped := t.reaped + [t.procs[k].pid])
    else if First(t.procs, (q: Proc) => Child(q, p), 0) == |t.procs| || t.procs[p].killed then
      t.(procs := t.procs[p := t.procs[p].(pc := User)])
    else
      t.(procs := t.procs[p := t.procs[p].(state := SLEEPING, chan := OnProc(p), pc := Waiting)])
  }

  function KillSpec(t: Table, pid: int): (r: Table)
    ensures |r.procs| == |t.procs| && r.init == t.init
  {
    var k := First(t.procs, (q: Proc) => q.pid == pid, 0);
    if k == |t.procs| then t
    else
      var q := t.procs[k];
      t.(procs := t.procs[k := q.(killed := true, state := if q.state == SLEEPING then RUNNABLE else q.state)])
  }

  // ---------- what each operation does, slot by slot ----------

  /** Slot k is the first of those that have this pid. */
  predicate FirstPid(procs: seq<Proc>, pid: int, k: nat)
  {
    k < |procs| && procs[k].pid == pid && forall j: nat :: j < k ==> procs[j].pid != pid
  }

  predicate OnlyChanges(t: Table, t': Table, ks: set<nat>)
  {
    |t'.procs| == |t.procs| && forall i: nat :: i < |t.procs| && i !in ks ==> t'.procs[i] == t.procs[i]
  }

  /** kill: the first slot with the pid is marked, does not sleep on, and is otherwise as before. */
  lemma KillDoes(t: Table, pid: int, k: nat)
    requires FirstPid(t.procs, pid, k)
    ensures var t' := KillSpec(t, pid);
            && OnlyChanges(t, t', {k}) && t'.procs[k].killed && t'.procs[k].state != SLEEPING
            && t'.procs[k] == t.procs[k].(killed := true, state := t'.procs[k].state)
            && (t.procs[k].state != SLEEPING ==> t'.procs[k].state == t.procs[k].state)
            && (t.procs[k].state == SLEEPING ==> t'.procs[k].state == RUNNABLE)
  {
  }

  /** A pid nobody has: nothing changes. */
  lemma KillMisses(t: Table, pid: int)
    requires forall k: nat :: k < |t.procs| ==> t.procs[k].pid != pid
    ensures KillSpec(t, pid) == t
  {
  }

  /** allocproc: an unused slot k becomes an embryo with the next pid, and only the caller notes it. */
  lemma AllocDoes(t: Table, p: nat, k: nat)
    requires p < |t.procs| && k < |t.procs| && t.procs[k].state == UNUSED && t.procs[p].state != UNUSED
    requires forall j: nat :: j < k ==> t.procs[j].state != UNUSED
    ensures var t' := AllocSpec(t, p);
            && OnlyChanges(t, t', {k, p}) && t'.nextpid == t.nextpid + 1
            && t'.procs[k] == t.procs[k].(state := EMBRYO, pid := t.nextpid)
            && t'.procs[p] == t.procs[p].(pc := Forking(k, false))
  {
  }

  /** exit: the process is a zombie, its children are init's, and those sleeping for it are runnable:
      the parent in wait, and init if it inherits a zombie. */
  lemma ExitDoes(t: Table, p: nat, i: nat)
    requires p < |t.procs| && i < |t.procs|
    ensures var q, q' := t.procs[i], ExitSpec(t, p).procs[i];
            && q'.pid == q.pid && q'.killed == q.killed && q'.pc == q.pc && q'.chan == q.chan
            && q'.parent == (if q.parent == p then t.init else q.parent)
            && (i == p ==> q'.state == ZOMBIE)
            && (i != p && q.state != SLEEPING ==> q'.state == q.state)
            && (i != p && q.state == SLEEPING ==>
                  q'.state == if q.chan == OnProc(t.procs[p].parent)
                                 || (q.chan == OnProc(t.init) && Orphans(t.procs, p)) then RUNNABLE else SLEEPING)
  {
    var woken := Wake(t.procs, OnProc(t.procs[p].parent));
    assert woken[i] == WakeOne(t.procs[i], OnProc(t.procs[p].parent));
    assert HasZombieChild(woken, p, |woken|) <==> Orphans(t.procs, p) by {
      forall j: nat | j < |woken| ensures ZombieChild(woken[j], p) <==>
        t.procs[j].parent == p && t.procs[j].state == ZOMBIE {
        assert woken[j] == WakeOne(t.procs[j], OnProc(t.procs[p].parent));
      }
    }
    assert Adopt(woken, p, t.init)[i] == AdoptOne(if HasZombieChild(woken, p, |woken|) then
      WakeOne(woken[i], OnProc(t.init)) else woken[i], p, t.init);
  }

  /** Some child of p is a zombie. */
  predicate Orphans(procs: seq<Proc>, p: nat)
  {
    exists j: nat :: j < |procs| && procs[j].parent == p && procs[j].state == ZOMBIE
  }

  /** wait: slot k is the first zombie child; it is freed, and its pid is the answer. */
  lemma WaitReaps(t: Table, p: nat, k: nat)
    requires p < |t.procs| && k < |t.procs| && k != p && t.procs[k].parent == p && t.procs[k].state == ZOMBIE
    requires forall j: nat :: j < k ==> !(t.procs[j].parent == p && t.procs[j].state == ZOMBIE)
    ensures var t' := WaitSpec(t, p);
            && OnlyChanges(t, t', {k, p}) && t'.reaped == t.reaped + [t.procs[k].pid]
            && t'.procs[k] == t.procs[k].(state := UNUSED, pid := 0, parent := -1, killed := false)
            && t'.procs[p] == t.procs[p].(pc := User)
  {
  }

  /** wait without a zombie child: it sleeps on itself if it has a child and is not killed, else it fails. */
  lemma WaitWaits(t: Table, p: nat)
    requires p < |t.procs| && !Orphans(t.procs, p)
    ensures var t' := WaitSpec(t, p);
            && OnlyChanges(t, t', {p}) && t'.reaped == t.reaped
            && t'.procs[p] == if !t.procs[p].killed && exists j: nat :: j < |t.procs| && t.procs[j].parent == p
                              then t.procs[p].(state := SLEEPING, chan := OnProc(p), pc := Waiting)
                              else t.procs[p].(pc := User)
  {
    var f := First(t.procs, (q: Proc) => Child(q, p), 0);
    if f < |t.procs| { assert t.procs[f].parent == p; }
  }

  predicate Running(t: Table, p: nat, linked: bool)
  {
    p < |t.procs| && t.procs[p].state == RUNNING && t.procs[p].pc.Forking?
    && t.procs[p].pc.np < |t.procs| && t.procs[p].pc.linked == linked
  }

  predicate InUser(t: Table, p: nat)
  {
    p < |t.procs| && t.procs[p].state == RUNNING && t.procs[p].pc == User
  }

  /** One atomic step; an operation whose process cannot take it now leaves the table alone. */
  function Apply(t: Table, op: Op): Table
  {
    match op
    case Alloc(p) => if InUser(t, p) then AllocSpec(t, p) else t
    case ForkFail(p) =>
      if Running(t, p, false) then
        var k := t.procs[p].pc.np;
        var procs := t.procs[k := t.procs[k].(state := UNUSED)];
        t.(procs := procs[p := procs[p].(pc := User)])
      else t
    case ForkLink(p) =>
      if Running(t, p, false) then
        var k := t.procs[p].pc.np;
        var procs := t.procs[k := t.procs[k].(parent := p)];
        t.(procs := procs[p := procs[p].(pc := Forking(k, true))])
      else t
    case ForkRun(p) =>
      if Running(t, p, true) then
        var k := t.procs[p].pc.np;
        var procs := t.procs[k := t.procs[k].(state := RUNNABLE, pc := User)];
        t.(procs := procs[p := procs[p].(pc := User)])
      else t
    case Exit(p) => if InUser(t, p) && p != t.init then ExitSpec(t, p) else t
    case Wait(p) => if InUser(t, p) then WaitSpec(t, p) else t
    case Pick(p) =>
      if p < |t.procs| && t.procs[p].state == RUNNABLE then
        var q := t.procs[p].(state := RUNNING, chan := NoChan);
        if q.pc == Waiting then WaitSpec(t.(procs := t.procs[p := q.(pc := User)]), p) else t.(procs := t.procs[p := q])
      else t
    case Yield(p) => if p < |t.procs| && t.procs[p].state == RUNNING then
      t.(procs := t.procs[p := t.procs[p].(state := RUNNABLE)]) else t
    case SleepOn(p, c) =>
      if p < |t.procs| && t.procs[p].state == RUNNING then
        t.(procs := t.procs[p := t.procs[p].(state := SLEEPING, chan := OnOther(c))]) else t
    case WakeOn(c) => t.(procs := Wake(t.procs, OnOther(c)))
    case Kill(pid) => KillSpec(t, pid)
  }

  // ---------- proc.c: the scans over the table ----------

  datatype WaitResult = Pid(pid: int) | Fail | Slept

  class ProcTable {
    const procs: array<Proc>
    var nextpid: int
    const init: nat
    ghost var exited: seq<int>
    ghost var reaped: seq<int>

    constructor (procs: array<Proc>, nextpid: int, init: nat)
      ensures this.procs == procs && View() == Table(procs[..], nextpid, init, [], [])
    {
      this.procs, this.nextpid, this.init := procs, nextpid, init;
      exited, reaped := [], [];
    }

    ghost function View(): Table
      reads this, procs
    {
      Table(procs[..], nextpid, init, exited, reaped)
    }

    /** `wakeup1`. */
    method Wakeup1(chan: Chan)
      modifies procs
      ensures procs[..] == Wake(old(procs[..]), chan)
    {
      for i := 0 to procs.Length
        invariant forall j ::
          0 <= j < procs.Length ==> procs[j] == if j < i then WakeOne(old(procs[j]), chan) else old(procs[j])
      {
        if procs[i].state == SLEEPING && procs[i].chan == chan {
          procs[i] := procs[i].(state := RUNNABLE);
        }
      }
    }

    /** `allocproc`, its section under the lock: the caller is left inside fork with the slot it took. */
    method AllocProc(p: nat) returns (found: bool)
      requires p < procs.Length
      modifies this, procs
      ensures View() == AllocSpec(old(View()), p)
      ensures found <==> exists i :: 0 <= i < procs.Length && old(procs[i]).state == UNUSED
    {
      ghost var isUnused := (q: Proc) => q.state == UNUSED;
      for i := 0 to procs.Length
        invariant View() == old(View())
        invariant forall j :: 0 <= j < i ==> procs[j].state != UNUSED
        invariant First(procs[..], isUnused, 0) == First(procs[..], isUnused, i)
      {
        if procs[i].state == UNUSED {
          procs[i] := procs[i].(state := EMBRYO, pid := nextpid);
          nextpid := nextpid + 1;
          procs[p] := procs[p].(pc := Forking(i, false));
          return true;
        }
      }
      found := false;
    }

    /** `exit`, its section under the lock; init must not exit. */
    method Exit(p: nat) returns (panic: bool)
      requires p < procs.Length && init < procs.Length
      modifies this, procs
      ensures panic <==> p == init
      ensures View() == if panic then old(View()) else ExitSpec(old(View()), p)
    {
      if p == init { return true; }
      Wakeup1(OnProc(procs[p].parent));
      Reparent(p);
      exited := exited + [procs[p].pid];
      procs[p] := procs[p].(state := ZOMBIE);
      panic := false;
    }

    /** The loop of `exit` that passes abandoned children to init. */
    method Reparent(p: nat)
      requires p < procs.Length && p != init
      modifies procs
      ensures procs[..] == Adopt(old(procs[..]), p, init)
    {
      ghost var before := procs[..];
      for i := 0 to procs.Length
        invariant forall j :: 0 <= j < procs.Length ==>
          procs[j] == var q := if HasZombieChild(before, p, i) then WakeOne(before[j], OnProc(init)) else before[j];
                      if j < i then AdoptOne(q, p, init) else q
      {
        ghost var mid := procs[..];
        assert HasZombieChild(before, p, i + 1) <==> HasZombieChild(before, p, i) || ZombieChild(before[i], p);
        if procs[i].parent == p {
          procs[i] := procs[i].(parent := init);
          if procs[i].state == ZOMBIE {
            Wakeup1(OnProc(init));
          }
        }
      }
    }

    /** One pass of the loop of `wait`: a zombie child reaped, nothing to wait for, or asleep until woken. */
    method Wait(p: nat) returns (r: WaitResult)
      requires p < procs.Length
      modifies this, procs
      ensures View() == WaitSpec(old(View()), p)
      ensures r.Pid? <==> HasZombieChild(old(procs[..]), p, procs.Length)
      ensures r.Pid? ==> reaped == old(reaped) + [r.pid]
      ensures r == Fail <==> !r.Pid? && (!HasChild(old(procs[..]), p) || old(procs[p]).killed)
    {
      var havekids := false;
      ghost var zombie, child := (q: Proc) => ZombieChild(q, p), (q: Proc) => Child(q, p);
      for i := 0 to procs.Length
        invariant View() == old(View())
        invariant !HasZombieChild(procs[..], p, i)
        invariant havekids <==> exists j :: 0 <= j < i && Child(procs[j], p)
        invariant First(procs[..], zombie, 0) == First(procs[..], zombie, i)
      {
        if procs[i].parent == p {
          havekids := true;
          assert Child(procs[i], p);
          if procs[i].state == ZOMBIE {
            assert ZombieChild(procs[..][i], p);
            r := Pid(procs[i].pid);
            reaped := reaped + [procs[i].pid];
            procs[i] := procs[i].(state := UNUSED, pid := 0, parent := -1, killed := false);
            procs[p] := procs[p].(pc := User);
            return;
          }
        }
      }
      assert havekids <==> First(procs[..], child, 0) < procs.Length;
      if !havekids || procs[p].killed {
        procs[p] := procs[p].(pc := User);
        return Fail;
      }
      procs[p] := procs[p].(state := SLEEPING, chan := OnProc(p), pc := Waiting);
      r := Slept;
    }

    /** `kill`. */
    method Kill(pid: int) returns (found: bool)
      modifies procs
      ensures View() == KillSpec(old(View()), pid)
      ensures found <==> exists i :: 0 <= i < procs.Length && old(procs[i]).pid == pid
      ensures forall k: nat :: FirstPid(old(procs[..]), pid, k) ==> procs[k].killed && procs[k].state != SLEEPING
    {
      ghost var hasPid := (q: Proc) => q.pid == pid;
      for i := 0 to procs.Length
        invariant View() == old(View())
        invariant forall j :: 0 <= j < i ==> procs[j].pid != pid
        invariant First(procs[..], hasPid, 0) == First(procs[..], hasPid, i)
      {
        if procs[i].pid == pid {
          procs[i] := procs[i].(killed := true);
          if procs[i].state == SLEEPING {
            procs[i] := procs[i].(state := RUNNABLE);
          }
          return true;
        }
      }
      found := false;
    }
  }

  // ---------- the invariant ----------

  predicate Alive(s: PState) { s == SLEEPING || s == RUNNABLE || s == RUNNING }

  /** Whose child a slot is: nobody's when unused, its forker's when an embryo, an alive process's otherwise. */
  predicate ParentOk(t: Table, p: nat)
    requires p < |t.procs|
  {
    var q := t.procs[p];
    && q.parent != p && (q.state == UNUSED ==> q.parent == -1)
    && (q.state == EMBRYO && q.parent != -1 ==> 0 <= q.parent < |t.procs| && t.procs[q.parent].pc == Forking(p, true))
    && ((Alive(q.state) || q.state == ZOMBIE) && p != t.init ==>
       0 <= q.parent < |t.procs| && Alive(t.procs[q.parent].state))
  }

  /** Only an alive process is inside wait or fork; one asleep in wait sleeps on itself, not killed. */
  predicate PcOk(q: Proc, p: nat)
  {
    && (!Alive(q.state) ==> q.pc == User)
    && (q.state == SLEEPING && q.chan.OnProc? ==> q.pc == Waiting)
    && (q.pc == Waiting ==> q.state != RUNNING)
    && (q.pc == Waiting && q.state == SLEEPING ==> q.chan == OnProc(p) && !q.killed)
  }

  /** A process inside fork has an embryo of its own. */
  predicate ForkOk(t: Table, p: nat)
    requires p < |t.procs|
  {
    var q := t.procs[p];
    q.pc.Forking? ==>
      && q.pc.np < |t.procs| && t.procs[q.pc.np].state == EMBRYO
      && t.procs[q.pc.np].parent == (if q.pc.linked then p else -1)
  }

  predicate OneForker(t: Table, p: nat, q: nat)
    requires p < |t.procs| && q < |t.procs|
  {
    t.procs[p].pc.Forking? && t.procs[q].pc.Forking? && p != q ==> t.procs[p].pc.np != t.procs[q].pc.np
  }

  /** A process asleep in wait has a child, and no child that has exited. */
  predicate WaiterOk(t: Table, p: nat)
    requires p < |t.procs|
  {
    t.procs[p].state == SLEEPING && t.procs[p].pc == Waiting ==>
      HasChild(t.procs, p) && !HasZombieChild(t.procs, p, |t.procs|)
  }

  predicate SlotOk(t: Table, p: nat)
    requires p < |t.procs|
  {
    ParentOk(t, p) && PcOk(t.procs[p], p) && ForkOk(t, p) && WaiterOk(t, p)
  }

  predicate Inv(t: Table)
  {
    && t.init < |t.procs| && Alive(t.procs[t.init].state) && t.procs[t.init].parent == -1
    && (forall p: nat :: p < |t.procs| ==> SlotOk(t, p))
    && (forall p: nat, q: nat :: p < |t.procs| && q < |t.procs| ==> OneForker(t, p, q))
  }

  // ---------- exit ----------

  predicate ExitRouses(t: Table, p: nat, q: Proc)
    requires p < |t.procs|
  {
    q.chan == OnProc(t.procs[p].parent) || (q.chan == OnProc(t.init) && HasZombieChild(t.procs, p, |t.procs|))
  }

  /** What exit does to one slot. */
  function ExitOne(t: Table, p: nat, i: nat): Proc
    requires p < |t.procs| && i < |t.procs|
  {
    var q := AdoptOne(t.procs[i], p, t.init);
    if i == p then q.(state := ZOMBIE)
    else if q.state == SLEEPING && ExitRouses(t, p, q) then q.(state := RUNNABLE)
    else q
  }

  lemma ExitAt(t: Table, p: nat, i: nat)
    requires p < |t.procs| && i < |t.procs|
    ensures ExitSpec(t, p).procs[i] == ExitOne(t, p, i)
  {
    var woken := Wake(t.procs, OnProc(t.procs[p].parent));
    if HasZombieChild(t.procs, p, |t.procs|) {
      var z :| 0 <= z < |t.procs| && ZombieChild(t.procs[z], p);
      assert ZombieChild(woken[z], p);
    }
    if HasZombieChild(woken, p, |woken|) {
      var z :| 0 <= z < |woken| && ZombieChild(woken[z], p);
      assert ZombieChild(t.procs[z], p);
    }
  }

  lemma ChildrenStay(procs: seq<Proc>, procs': seq<Proc>, me: int)
    requires |procs'| == |procs| && HasChild(procs, me)
    requires forall j {:trigger procs'[j]} :: 0 <= j < |procs| && procs[j].parent == me ==> procs'[j].parent == me
    ensures HasChild(procs', me)
  {
    var j :| 0 <= j < |procs| && Child(procs[j], me);
    assert Child(procs'[j], me);
  }

  lemma NoNewZombies(procs: seq<Proc>, procs': seq<Proc>, me: int)
    requires |procs'| == |procs| && !HasZombieChild(procs, me, |procs|)
    requires forall j {:trigger procs'[j]} ::
      0 <= j < |procs| && ZombieChild(procs'[j], me) ==> ZombieChild(procs[j], me)
    ensures !HasZombieChild(procs', me, |procs'|)
  {
  }

  /** A zombie child after exit was one before it, of the same process or of the one that exits. */
  lemma ExitZombie(t: Table, p: nat, z: nat, i: nat)
    requires p < |t.procs| && z < |t.procs| && z != p && ZombieChild(ExitOne(t, p, z), i)
    ensures if t.procs[z].parent == p then
      i == t.init && HasZombieChild(t.procs, p, |t.procs|) else HasZombieChild(t.procs, i, |t.procs|)
  {
    assert ZombieChild(t.procs[z], t.procs[z].parent);
  }

  lemma ExitWaiter(t: Table, p: nat, i: nat)
    requires Inv(t) && InUser(t, p) && p != t.init && i < |t.procs|
    ensures WaiterOk(ExitSpec(t, p), i)
  {
    hide ExitSpec;
    var t' := ExitSpec(t, p);
    ExitAt(t, p, i);
    assert SlotOk(t, i) && SlotOk(t, p);
    if t'.procs[i].state == SLEEPING && t'.procs[i].pc == Waiting {
      forall j | 0 <= j < |t.procs| ensures t'.procs[j] == ExitOne(t, p, j) { ExitAt(t, p, j); }
      ChildrenStay(t.procs, t'.procs, i);
      if HasZombieChild(t'.procs, i, |t'.procs|) {
        var z :| 0 <= z < |t'.procs| && ZombieChild(t'.procs[z], i);
        if z != p { ExitZombie(t, p, z, i); }
      }
    }
  }

  lemma ExitSlot(t: Table, p: nat, i: nat)
    requires Inv(t) && InUser(t, p) && p != t.init && i < |t.procs|
    ensures SlotOk(ExitSpec(t, p), i)
  {
    hide ExitSpec, WaiterOk;
    ExitWaiter(t, p, i);
    ExitAt(t, p, i);
    ExitAt(t, p, t.init);
    assert SlotOk(t, i) && SlotOk(t, p) && SlotOk(t, t.init);
    var q := t.procs[i];
    if 0 <= q.parent < |t.procs| { ExitAt(t, p, q.parent); }
    if q.pc.Forking? { ExitAt(t, p, q.pc.np); }
  }

  lemma ExitKeeps(t: Table, p: nat)
    requires Inv(t) && InUser(t, p) && p != t.init
    ensures Inv(ExitSpec(t, p))
  {
    hide ExitSpec, SlotOk;
    forall i: nat | i < |t.procs| ensures SlotOk(ExitSpec(t, p), i) { ExitSlot(t, p, i); }
    forall i: nat, j: nat | i < |t.procs| && j < |t.procs| ensures OneForker(ExitSpec(t, p), i, j) {
      assert OneForker(t, i, j);
      ExitAt(t, p, i); ExitAt(t, p, j);
    }
    ExitAt(t, p, t.init);
  }

  // ---------- the other operations ----------

  /** A change of one slot that keeps its parent, its liveness and the fork it is in. */
  lemma SetKeeps(t: Table, k: nat, q': Proc)
    requires Inv(t) && k < |t.procs|
    requires q'.parent == t.procs[k].parent && Alive(q'.state) == Alive(t.procs[k].state)
    requires !Alive(q'.state) ==> q'.state == t.procs[k].state
    requires (q'.pc.Forking? || t.procs[k].pc.Forking?) ==> q'.pc == t.procs[k].pc
    requires PcOk(q', k)
    requires q'.state == SLEEPING && q'.pc == Waiting ==> HasChild(t.procs, k) && !HasZombieChild(t.procs, k, |t.procs|)
    ensures Inv(t.(procs := t.procs[k := q']))
  {
    var t' := t.(procs := t.procs[k := q']);
    forall i: nat | i < |t.procs| ensures SlotOk(t', i) {
      assert SlotOk(t, i);
      if t'.procs[i].state == SLEEPING && t'.procs[i].pc == Waiting {
        ChildrenStay(t.procs, t'.procs, i);
        NoNewZombies(t.procs, t'.procs, i);
      }
    }
    forall i: nat, j: nat | i < |t.procs| && j < |t.procs| ensures OneForker(t', i, j) { assert OneForker(t, i, j); }
  }

  lemma ReapKeeps(t: Table, p: nat, k: nat)
    requires Inv(t) && p < |t.procs| && t.procs[p].state == RUNNING && k < |t.procs| && ZombieChild(t.procs[k], p)
    ensures Inv(t.(procs := t.procs[k := Reaped(t.procs[k])]))
  {
    var t' := t.(procs := t.procs[k := Reaped(t.procs[k])]);
    assert SlotOk(t, k);
    forall i: nat | i < |t.procs| ensures SlotOk(t', i) {
      assert SlotOk(t, i);
      if t'.procs[i].state == SLEEPING && t'.procs[i].pc == Waiting {
        ChildrenStay(t.procs, t'.procs, i);
        NoNewZombies(t.procs, t'.procs, i);
      }
    }
    forall i: nat, j: nat | i < |t.procs| && j < |t.procs| ensures OneForker(t', i, j) { assert OneForker(t, i, j); }
  }

  lemma WaitKeeps(t: Table, p: nat)
    requires Inv(t) && InUser(t, p)
    ensures Inv(WaitSpec(t, p))
  {
    hide Inv;
    var k := First(t.procs, (q: Proc) => ZombieChild(q, p), 0);
    if k < |t.procs| {
      ReapKeeps(t, p, k);
      InvOnly(t.(procs := t.procs[k := Reaped(t.procs[k])]), WaitSpec(t, p));
    } else {
      var j := First(t.procs, (q: Proc) => Child(q, p), 0);
      if j < |t.procs| && !t.procs[p].killed {
        assert Child(t.procs[j], p);
        SetKeeps(t, p, t.procs[p].(state := SLEEPING, chan := OnProc(p), pc := Waiting));
      } else {
        assert t.procs[p := t.procs[p].(pc := User)] == t.procs;
      }
    }
  }

  /** The invariant is about the slots and init alone. */
  lemma InvOnly(t: Table, t': Table)
    requires Inv(t) && t'.procs == t.procs && t'.init == t.init
    ensures Inv(t')
  {
    forall i: nat | i < |t.procs| ensures SlotOk(t', i) { assert SlotOk(t, i); }
    forall i: nat, j: nat | i < |t.procs| && j < |t.procs| ensures OneForker(t', i, j) { assert OneForker(t, i, j); }
  }

  lemma WakeKeeps(t: Table, c: int)
    requires Inv(t)
    ensures Inv(t.(procs := Wake(t.procs, OnOther(c))))
  {
    var t' := t.(procs := Wake(t.procs, OnOther(c)));
    forall i: nat | i < |t.procs| ensures SlotOk(t', i) {
      assert SlotOk(t, i);
      if t'.procs[i].state == SLEEPING && t'.procs[i].pc == Waiting {
        ChildrenStay(t.procs, t'.procs, i);
        NoNewZombies(t.procs, t'.procs, i);
      }
    }
    forall i: nat, j: nat | i < |t.procs| && j < |t.procs| ensures OneForker(t', i, j) { assert OneForker(t, i, j); }
  }

  lemma AllocSlot(t: Table, p: nat, i: nat)
    requires Inv(t) && InUser(t, p) && i < |t.procs|
    ensures SlotOk(AllocSpec(t, p), i)
  {
    var t' := AllocSpec(t, p);
    assert SlotOk(t, i) && SlotOk(t, p);
    var k := First(t.procs, (q: Proc) => q.state == UNUSED, 0);
    if k < |t.procs| { assert SlotOk(t, k); }
    if t'.procs[i].state == SLEEPING && t'.procs[i].pc == Waiting {
      ChildrenStay(t.procs, t'.procs, i);
      NoNewZombies(t.procs, t'.procs, i);
    }
  }

  lemma AllocKeeps(t: Table, p: nat)
    requires Inv(t) && InUser(t, p)
    ensures Inv(AllocSpec(t, p))
  {
    forall i: nat | i < |t.procs| ensures SlotOk(AllocSpec(t, p), i) { AllocSlot(t, p, i); }
    forall i: nat, j: nat | i < |t.procs| && j < |t.procs| ensures OneForker(AllocSpec(t, p), i, j) {
      assert OneForker(t, i, j) && SlotOk(t, i) && SlotOk(t, j);
    }
  }

  lemma ForkWaiter(t: Table, op: Op, i: nat)
    requires Inv(t) && (op.ForkFail? || op.ForkLink? || op.ForkRun?) && i < |t.procs|
    ensures |Apply(t, op).procs| == |t.procs| && Apply(t, op).init == t.init && WaiterOk(Apply(t, op), i)
  {
    var t', p := Apply(t, op), op.p;
    assert SlotOk(t, i);
    if t' != t && t'.procs[i].state == SLEEPING && t'.procs[i].pc == Waiting {
      assert SlotOk(t, p);
      ChildrenStay(t.procs, t'.procs, i);
      NoNewZombies(t.procs, t'.procs, i);
    }
  }

  lemma ForkSlot(t: Table, op: Op, i: nat)
    requires Inv(t) && (op.ForkFail? || op.ForkLink? || op.ForkRun?) && i < |t.procs|
    ensures |Apply(t, op).procs| == |t.procs| && Apply(t, op).init == t.init && SlotOk(Apply(t, op), i)
  {
    hide WaiterOk, OneForker;
    ForkWaiter(t, op, i);
    assert SlotOk(t, i);
    if Apply(t, op) != t {
      var p := op.p;
      var k := t.procs[p].pc.np;
      assert SlotOk(t, p);
      ForkersDiffer(t, p, i);
      assert SlotOk(t, k);
    }
  }

  lemma ForkersDiffer(t: Table, p: nat, i: nat)
    requires Inv(t) && p < |t.procs| && i < |t.procs|
    ensures t.procs[p].pc.Forking? && t.procs[i].pc.Forking? && p != i ==> t.procs[p].pc.np != t.procs[i].pc.np
  {
    assert OneForker(t, p, i);
  }

  lemma ForkKeeps(t: Table, op: Op)
    requires Inv(t) && (op.ForkFail? || op.ForkLink? || op.ForkRun?)
    ensures Inv(Apply(t, op))
  {
    var t' := Apply(t, op);
    forall i: nat | i < |t.procs| ensures |t'.procs| == |t.procs| && SlotOk(t', i) { ForkSlot(t, op, i); }
    forall i: nat, j: nat | i < |t.procs| && j < |t.procs| ensures OneForker(t', i, j) { assert OneForker(t, i, j); }
    if t' != t {
      assert SlotOk(t, op.p) && SlotOk(t, t.init);
    }
  }

  lemma PickKeeps(t: Table, p: nat)
    requires Inv(t)
    ensures Inv(Apply(t, Pick(p)))
  {
    if p < |t.procs| && t.procs[p].state == RUNNABLE {
      assert SlotOk(t, p);
      var q := t.procs[p].(state := RUNNING, chan := NoChan);
      if q.pc == Waiting {
        SetKeeps(t, p, q.(pc := User));
        WaitKeeps(t.(procs := t.procs[p := q.(pc := User)]), p);
      } else {
        SetKeeps(t, p, q);
      }
    }
  }

  lemma KillKeeps(t: Table, pid: int)
    requires Inv(t)
    ensures Inv(KillSpec(t, pid))
  {
    var k := First(t.procs, (q: Proc) => q.pid == pid, 0);
    if k < |t.procs| {
      assert SlotOk(t, k);
      var q := t.procs[k];
      SetKeeps(t, k, q.(killed := true, state := if q.state == SLEEPING then RUNNABLE else q.state));
    }
  }

  /** Every operation keeps the invariant. */
  lemma StepKeeps(t: Table, op: Op)
    requires Inv(t)
    ensures Inv(Apply(t, op))
  {
    hide Inv;
    match op
    case Alloc(p) => if InUser(t, p) { AllocKeeps(t, p); }
    case Exit(p) => if InUser(t, p) && p != t.init { ExitKeeps(t, p); }
    case Wait(p) => if InUser(t, p) { WaitKeeps(t, p); }
    case Pick(p) => PickKeeps(t, p);
    case Yield(p) => RunKeeps(t, op);
    case SleepOn(p, c) => RunKeeps(t, op);
    case WakeOn(c) => WakeKeeps(t, c);
    case Kill(pid) => KillKeeps(t, pid);
    case _ => ForkKeeps(t, op);
  }

  lemma RunKeeps(t: Table, op: Op)
    requires Inv(t) && (op.Yield? || op.SleepOn?)
    ensures Inv(Apply(t, op))
  {
    if op.p < |t.procs| && t.procs[op.p].state == RUNNING {
      assert SlotOk(t, op.p);
      SetKeeps(t, op.p, Apply(t, op).procs[op.p]);
    }
  }

  // ---------- pids: every exit is reaped at most once ----------

  predicate NoDup(s: seq<int>)
  {
    forall i, j :: 0 <= i < j < |s| ==> s[i] != s[j]
  }

  /** A slot in use has a pid given out before; it has exited exactly when it is a zombie, and is not reaped. */
  predicate PidOk(t: Table, p: nat)
    requires p < |t.procs|
  {
    var q := t.procs[p];
    q.state != UNUSED ==>
      0 < q.pid < t.nextpid && q.pid !in t.reaped && (q.pid in t.exited <==> q.state == ZOMBIE)
  }

  predicate PidsDiffer(t: Table, p: nat, q: nat)
    requires p < |t.procs| && q < |t.procs|
  {
    p != q && t.procs[p].state != UNUSED && t.procs[q].state != UNUSED ==> t.procs[p].pid != t.procs[q].pid
  }

  predicate IsZombie(q: Proc, pid: int) { q.state == ZOMBIE && q.pid == pid }

  /** Every pid that exited is reaped or still a zombie's. */
  predicate Accounted(t: Table, pid: int)
  {
    pid in t.reaped || exists p :: 0 <= p < |t.procs| && IsZombie(t.procs[p], pid)
  }

  ghost predicate Pids(t: Table)
  {
    && t.nextpid > 0 && NoDup(t.exited) && NoDup(t.reaped)
    && (forall x :: x in t.exited ==> 0 < x < t.nextpid && Accounted(t, x))
    && (forall x :: x in t.reaped ==> x in t.exited)
    && (forall p: nat :: p < |t.procs| ==> PidOk(t, p))
    && (forall p: nat, q: nat :: p < |t.procs| && q < |t.procs| ==> PidsDiffer(t, p, q))
  }

  /** Steps that give out, end or reap no process. */
  lemma SamePids(t: Table, t': Table)
    requires Pids(t) && |t'.procs| == |t.procs| && t'.nextpid == t.nextpid && t'.exited == t.exited
      && t'.reaped == t.reaped
    requires forall p {:trigger t'.procs[p]} :: 0 <= p < |t.procs| ==>
      && t'.procs[p].pid == t.procs[p].pid
      && (t'.procs[p].state == UNUSED <==> t.procs[p].state == UNUSED)
      && (t'.procs[p].state == ZOMBIE <==> t.procs[p].state == ZOMBIE)
    ensures Pids(t')
  {
    forall x | x in t.exited ensures Accounted(t', x) {
      assert Accounted(t, x);
      if x !in t.reaped {
        var p :| 0 <= p < |t.procs| && IsZombie(t.procs[p], x);
        assert IsZombie(t'.procs[p], x);
      }
    }
    forall p: nat | p < |t.procs| ensures PidOk(t', p) { assert PidOk(t, p); }
    forall p: nat, q: nat | p < |t.procs| && q < |t.procs| ensures PidsDiffer(t', p, q) { assert PidsDiffer(t, p, q); }
  }

  /** One slot leaves EMBRYO for UNUSED, or takes the next pid as an EMBRYO. */
  lemma EmbryoPids(t: Table, k: nat, q': Proc, nextpid: int)
    requires Pids(t) && k < |t.procs| && t.procs[k].state != ZOMBIE
    requires (q'.state == UNUSED && nextpid == t.nextpid)
             || (q'.state == EMBRYO && q'.pid == t.nextpid && nextpid == t.nextpid + 1)
    ensures Pids(t.(procs := t.procs[k := q'], nextpid := nextpid))
  {
    var t' := t.(procs := t.procs[k := q'], nextpid := nextpid);
    forall x | x in t.exited ensures Accounted(t', x) {
      assert Accounted(t, x);
      if x !in t.reaped {
        var p :| 0 <= p < |t.procs| && IsZombie(t.procs[p], x);
        assert IsZombie(t'.procs[p], x);
      }
    }
    forall p: nat | p < |t.procs| ensures PidOk(t', p) { assert PidOk(t, p); }
    forall p: nat, q: nat | p < |t.procs| && q < |t.procs| ensures PidsDiffer(t', p, q) {
      assert PidsDiffer(t, p, q) && PidOk(t, p) && PidOk(t, q);
    }
  }

  lemma ReapPids(t: Table, k: nat)
    requires Pids(t) && k < |t.procs| && t.procs[k].state == ZOMBIE
    ensures Pids(t.(procs := t.procs[k := Reaped(t.procs[k])], reaped := t.reaped + [t.procs[k].pid]))
  {
    var t' := t.(procs := t.procs[k := Reaped(t.procs[k])], reaped := t.reaped + [t.procs[k].pid]);
    assert PidOk(t, k);
    forall x | x in t.exited ensures Accounted(t', x) {
      assert Accounted(t, x);
      if x !in t'.reaped {
        var p :| 0 <= p < |t.procs| && IsZombie(t.procs[p], x);
        assert t'.reaped[|t.reaped|] == t.procs[k].pid;
        assert IsZombie(t'.procs[p], x);
      }
    }
    forall p: nat | p < |t.procs| ensures PidOk(t', p) { assert PidOk(t, p) && PidsDiffer(t, p, k); }
    forall p: nat, q: nat | p < |t.procs| && q < |t.procs| ensures PidsDiffer(t', p, q) { assert PidsDiffer(t, p, q); }
  }

  lemma ZombiePids(t: Table, p: nat)
    requires Pids(t) && p < |t.procs| && t.procs[p].state != UNUSED && t.procs[p].state != ZOMBIE
    ensures Pids(t.(procs := t.procs[p := t.procs[p].(state := ZOMBIE)], exited := t.exited + [t.procs[p].pid]))
  {
    var t' := t.(procs := t.procs[p := t.procs[p].(state := ZOMBIE)], exited := t.exited + [t.procs[p].pid]);
    assert PidOk(t, p);
    forall x | x in t'.exited ensures 0 < x < t.nextpid && Accounted(t', x) {
      if x == t.procs[p].pid {
        assert IsZombie(t'.procs[p], x);
      } else {
        assert Accounted(t, x);
        if x !in t.reaped {
          var q :| 0 <= q < |t.procs| && IsZombie(t.procs[q], x);
          assert IsZombie(t'.procs[q], x);
        }
      }
    }
    forall q: nat | q < |t.procs| ensures PidOk(t', q) { assert PidOk(t, q) && PidsDiffer(t, q, p); }
    forall q: nat, r: nat | q < |t.procs| && r < |t.procs| ensures PidsDiffer(t', q, r) { assert PidsDiffer(t, q, r); }
  }

  lemma WaitPids(t: Table, p: nat)
    requires Pids(t) && p < |t.procs| && t.procs[p].state == RUNNING
    ensures Pids(WaitSpec(t, p))
  {
    hide Pids;
    var k := First(t.procs, (q: Proc) => ZombieChild(q, p), 0);
    if k < |t.procs| {
      ReapPids(t, k);
      SamePids(t.(procs := t.procs[k := Reaped(t.procs[k])], reaped := t.reaped + [t.procs[k].pid]), WaitSpec(t, p));
    } else {
      SamePids(t, WaitSpec(t, p));
    }
  }

  lemma AllocPids(t: Table, p: nat)
    requires Pids(t) && p < |t.procs|
    ensures Pids(AllocSpec(t, p))
  {
    hide Pids;
    var k := First(t.procs, (q: Proc) => q.state == UNUSED, 0);
    if k < |t.procs| {
      EmbryoPids(t, k, t.procs[k].(state := EMBRYO, pid := t.nextpid), t.nextpid + 1);
      SamePids(t.(procs := t.procs[k := t.procs[k].(state := EMBRYO, pid := t.nextpid)], nextpid := t.nextpid + 1),
        AllocSpec(t, p));
    }
  }

  lemma ForkPids(t: Table, op: Op)
    requires Inv(t) && Pids(t) && (op.ForkFail? || op.ForkLink? || op.ForkRun?)
    ensures Pids(Apply(t, op))
  {
    hide Inv, Pids;
    if Apply(t, op) != t { InvSlot(t, op.p); }
    if op.ForkFail? && Running(t, op.p, false) {
      var k := t.procs[op.p].pc.np;
      EmbryoPids(t, k, t.procs[k].(state := UNUSED), t.nextpid);
      SamePids(t.(procs := t.procs[k := t.procs[k].(state := UNUSED)]), Apply(t, op));
    } else {
      SamePids(t, Apply(t, op));
    }
  }

  lemma StepPids(t: Table, op: Op)
    requires Inv(t) && Pids(t)
    ensures Pids(Apply(t, op))
  {
    hide Inv, Pids;
    match op
    case Alloc(p) => if InUser(t, p) { AllocPids(t, p); }
    case ForkFail(_) => ForkPids(t, op);
    case ForkLink(_) => ForkPids(t, op);
    case ForkRun(_) => ForkPids(t, op);
    case Exit(p) => if InUser(t, p) && p != t.init { ExitPids(t, p); }
    case Wait(p) => if InUser(t, p) { WaitPids(t, p); }
    case Pick(p) =>
      if p < |t.procs| && t.procs[p].state == RUNNABLE {
        var q := t.procs[p].(state := RUNNING, chan := NoChan);
        var t1 := t.(procs := t.procs[p := if q.pc == Waiting then q.(pc := User) else q]);
        SamePids(t, t1);
        if q.pc == Waiting { WaitPids(t1, p); }
      }
    case _ => SamePids(t, Apply(t, op));
  }

  lemma InvSlot(t: Table, p: nat)
    requires Inv(t) && p < |t.procs|
    ensures SlotOk(t, p)
  {
  }

  lemma ExitPids(t: Table, p: nat)
    requires Pids(t) && InUser(t, p)
    ensures Pids(ExitSpec(t, p))
  {
    hide Pids;
    var t1 := t.(procs := Adopt(Wake(t.procs, OnProc(t.procs[p].parent)), p, t.init));
    SamePids(t, t1);
    ZombiePids(t1, p);
  }

  // ---------- every run ----------

  function Run(t: Table, ops: seq<Op>): Table
    decreases |ops|
  {
    if ops == [] then t else Run(Apply(t, ops[0]), ops[1..])
  }

  /** After userinit: init runnable, every other slot unused, no pid given out but init's. */
  predicate Initial(t: Table)
  {
    && t.init < |t.procs| && t.procs[t.init] == Proc(RUNNABLE, 1, -1, NoChan, false, User)
    && (forall i: nat :: i < |t.procs| && i != t.init ==> t.procs[i] == Proc(UNUSED, 0, -1, NoChan, false, User))
    && t.nextpid == 2 && t.exited == [] && t.reaped == []
  }

  lemma {:induction false} RunKeepsInv(t: Table, ops: seq<Op>)
    requires Inv(t) && Pids(t)
    ensures Inv(Run(t, ops)) && Pids(Run(t, ops))
    decreases |ops|
  {
    hide Inv, Pids, Apply;
    if ops != [] {
      StepKeeps(t, ops[0]);
      StepPids(t, ops[0]);
      RunKeepsInv(Apply(t, ops[0]), ops[1..]);
    }
  }

  /** In every reachable state: a process other than init, alive or a zombie, has an alive parent. */
  lemma ParentsAlive(t: Table, ops: seq<Op>, p: nat)
    requires Initial(t) && p < |Run(t, ops).procs| && p != Run(t, ops).init
    requires Alive(Run(t, ops).procs[p].state) || Run(t, ops).procs[p].state == ZOMBIE
    ensures 0 <= Run(t, ops).procs[p].parent < |Run(t, ops).procs|
      && Alive(Run(t, ops).procs[Run(t, ops).procs[p].parent].state)
  {
    assert Inv(t) && Pids(t);
    RunKeepsInv(t, ops);
    InvSlot(Run(t, ops), p);
  }

  /** In every reachable state: a process asleep in wait has a child that has yet to exit, and none that has exited. */
  lemma NoWaiterMissesZombie(t: Table, ops: seq<Op>, p: nat)
    requires Initial(t) && p < |Run(t, ops).procs|
    requires Run(t, ops).procs[p].state == SLEEPING && Run(t, ops).procs[p].chan == OnProc(p)
    ensures HasChild(Run(t, ops).procs, p) && !HasZombieChild(Run(t, ops).procs, p, |Run(t, ops).procs|)
    ensures !Run(t, ops).procs[p].killed
  {
    assert Inv(t) && Pids(t);
    RunKeepsInv(t, ops);
    InvSlot(Run(t, ops), p);
  }

  /** In every reachable state: no pid is reaped twice, only exited processes are reaped, and every
      exited process is reaped or still in the table as a zombie. */
  lemma ReapedOnce(t: Table, ops: seq<Op>)
    requires Initial(t)
    ensures NoDup(Run(t, ops).reaped) && NoDup(Run(t, ops).exited)
    ensures forall x :: x in Run(t, ops).reaped ==> x in Run(t, ops).exited
    ensures forall x :: x in Run(t, ops).exited ==> Accounted(Run(t, ops), x)
  {
    assert Inv(t) && Pids(t);
    RunKeepsInv(t, ops);
  }
}
