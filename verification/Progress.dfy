/** What a process can always do (proc.c, spinlock.c): every context moves on or waits for a lock that
    another CPU owns, locks can always be drained, the scheduler takes any runnable process, and so a
    process woken from sleep can always get back to testing its condition with its lock held. */
module Progress {
  import opened SleepWakeup

  // ---------- who can take a step ----------

  /** The lock that a process at pc acquires next, or -1. */
  function Wants(lk: Locks, pc: Pc): int
  {
    match pc
    case WantLk(ch) => if ch < |lk| then lk[ch] else -1
    case Relock(ch) => if ch < |lk| then lk[ch] else -1
    case MakeWant(ch) => if ch < |lk| then lk[ch] else -1
    case SleepWant(_) => PTABLE
    case WakeWant(_, _) => PTABLE
    case YieldWant => PTABLE
    case ExitWant => PTABLE
    case KillWant(_) => PTABLE
    case _ => -1
  }

  /** Nobody owns the lock that p wants, if it wants one. */
  predicate Free(lk: Locks, s: State, pc: Pc)
  {
    Wants(lk, pc) == -1 || (Wants(lk, pc) < |s.owner| && s.owner[Wants(lk, pc)] == -1)
  }

  lemma BlockedIff(lk: Locks, s: State, c: nat, p: nat, choice: Choice)
    requires Shape(lk, s) && c < |s.cpus| && p < |s.procs| && PcOk(lk, s, s.procs[p].pc) && !s.procs[p].pc.Idle?
    ensures RunProc(lk, s, c, p, choice).Blocked? ==> !Free(lk, s, s.procs[p].pc)
    ensures RunProc(lk, s, c, p, choice).To? ==> Free(lk, s, s.procs[p].pc)
  {
    hide Wake;
  }

  /** A process on a CPU takes its next step exactly if the lock it wants, if any, is free; else another
      CPU owns it. */
  lemma Moves(lk: Locks, s: State, c: nat, p: nat, choice: Choice)
    requires Current(lk, s, c, p) && p < |s.procs| && !s.procs[p].pc.Idle?
    ensures Next(lk, s, ProcStep(c, choice)).To? <==> Free(lk, s, s.procs[p].pc)
    ensures !Free(lk, s, s.procs[p].pc) ==>
      var l := Wants(lk, s.procs[p].pc); 0 <= l < |s.owner| && 0 <= s.owner[l] < |s.cpus| && s.owner[l] != c
  {
    assert WellFormed(lk, s) && PcOk(lk, s, s.procs[p].pc);
    var l := Wants(lk, s.procs[p].pc);
    if l != -1 { assert LockInv(lk, s, l); }
    hide Inv, Current;
    RunInv(lk, s, c, p, choice);
    BlockedIff(lk, s, c, p, choice);
    hide RunProc;
  }

  /** At its choice of what to do next a process can always go on. */
  lemma IdleMoves(lk: Locks, s: State, c: nat, p: nat)
    requires Current(lk, s, c, p) && p < |s.procs| && s.procs[p].pc.Idle?
    ensures Next(lk, s, ProcStep(c, Yield)) == To(Goto(s, p, YieldWant))
  {
  }

  /** The scheduler of a CPU: without ptable.lock it takes it once it is free, with it it can give it up. */
  lemma SchedMoves(lk: Locks, s: State, c: nat)
    requires Inv(lk, s) && c < |s.cpus| && s.cpus[c].Sched?
    ensures !s.cpus[c].locked ==> (Next(lk, s, SchedLock(c)).To? <==> s.owner[PTABLE] == -1)
    ensures s.cpus[c].locked ==> Next(lk, s, SchedUnlock(c)).To?
  {
    assert CpuInv(s, c) && LockInv(lk, s, PTABLE);
  }

  /** With ptable.lock it can switch to any runnable process: that then runs on this CPU, with the lock,
      where it left off, and nothing else has changed. */
  lemma PicksAny(lk: Locks, s: State, c: nat, p: nat)
    requires Inv(lk, s) && c < |s.cpus| && s.cpus[c] == Sched(true, 1) && p < |s.procs| && s.procs[p].state == RUNNABLE
    ensures var o := Next(lk, s, SchedPick(c, p));
            && o.To? && Inv(lk, o.s) && o.s.owner == s.owner && s.owner[PTABLE] == c && o.s.value == s.value
            && o.s.cpus == s.cpus[c := Run(p, 1)]
            && o.s.procs[p].state == RUNNING && o.s.procs[p].cpu == c && o.s.procs[p].chan == s.procs[p].chan
            && |o.s.procs| == |s.procs| && (forall q: nat :: q < |s.procs| && q != p ==> o.s.procs[q] == s.procs[q])
            && (s.procs[p].pc.Asleep? ==> o.s.procs[p].pc == Woken(s.procs[p].pc.ch))
            && (!s.procs[p].pc.Asleep? ==> o.s.procs[p].pc == Resumed)
  {
    assert CpuInv(s, c);
    SchedPickInv(lk, s, c, p);
  }

  // ---------- what a step leaves alone ----------

  predicate Roused(q: Proc, q': Proc)
  {
    q' == q || (q.state == SLEEPING && q' == q.(state := RUNNABLE))
  }

  predicate On(s: State, c: nat, p: nat)
    requires c < |s.cpus|
  {
    s.cpus[c].Run? && s.cpus[c].p == p
  }

  /** A step of CPU c that is not a switch to a process: the other CPUs stay, and a process not on c at
      most becomes runnable. */
  predicate Apart(s: State, s': State, c: nat)
    requires c < |s.cpus|
  {
    && |s'.procs| == |s.procs| && |s'.cpus| == |s.cpus| && |s'.owner| == |s.owner|
    && (forall d: nat :: d < |s.cpus| && d != c ==> s'.cpus[d] == s.cpus[d])
    && (forall q: nat :: q < |s.procs| && !On(s, c, q) ==> Roused(s.procs[q], s'.procs[q]))
  }

  /** How many steps, at most, a process takes to the next switch if it yields when idle. */
  function Rank(pc: Pc): nat
  {
    match pc
    case SleepSched(_) => 1 case YieldSched => 1 case ExitSched => 1
    case SleepSet(_) => 2 case YieldSet => 2 case ExitSet => 2
    case SleepDrop(_) => 3 case YieldWant => 3 case ExitWant => 3
    case SleepWant(_) => 4 case Idle => 4
    case Resumed => 5 case KillDone => 5 case Consumed(_) => 5 case MakeDrop(_) => 5
    case Killing(_) => 6 case Test(_) => 6 case Woke(_, _) => 6
    case KillWant(_) => 7 case WantLk(_) => 7 case Relock(_) => 7 case Waking(_, _) => 7
    case Woken(_) => 8 case WakeWant(_, _) => 8
    case Made(_) => 9
    case Make(_) => 10
    case MakeWant(_) => 11
    case _ => 0
  }

  /** p's own step: it stays on its CPU with a lower rank, or gives the CPU to the scheduler. */
  predicate Falls(s: State, o: Outcome, c: nat, p: nat)
    requires c < |s.cpus| && p < |s.procs|
  {
    o.To? ==>
      && Apart(s, o.s, c)
      && if o.s.cpus[c].Run? then
         o.s.cpus[c].p == p && Rank(o.s.procs[p].pc) < Rank(s.procs[p].pc) else o.s.cpus[c].locked
  }

  lemma LockFalls(s: State, c: nat, p: nat, l: nat, pc: Pc)
    requires c < |s.cpus| && p < |s.procs| && l < |s.owner| && On(s, c, p) && Rank(pc) < Rank(s.procs[p].pc)
    ensures Falls(s, Then(Acquire(s, c, l), p, pc), c, p) && Falls(s, Then(Release(s, c, l), p, pc), c, p)
  {
    hide Rank;
  }

  lemma OutFalls(s: State, c: nat, p: nat, pc: Pc)
    requires c < |s.cpus| && p < |s.procs| && PTABLE < |s.owner| && On(s, c, p)
    ensures Falls(s, SwitchOut(s, c, p, pc), c, p)
  {
    hide Rank;
  }

  /** p's own record changes, values change, sleepers are roused. */
  lemma SetFalls(s: State, t: State, c: nat, p: nat)
    requires c < |s.cpus| && p < |s.procs| && On(s, c, p) && t.cpus == s.cpus && t.owner == s.owner
    requires |t.procs| == |s.procs| && (forall q: nat :: q < |s.procs| && q != p ==> Roused(s.procs[q], t.procs[q]))
    requires Rank(t.procs[p].pc) < Rank(s.procs[p].pc)
    ensures Falls(s, To(t), c, p)
  {
    hide Rank;
  }

  predicate Ready(lk: Locks, s: State, c: nat, p: nat)
  {
    Shape(lk, s) && c < |s.cpus| && p < |s.procs| && PcOk(lk, s, s.procs[p].pc) && On(s, c, p)
  }

  lemma TakeFalls(lk: Locks, s: State, c: nat, p: nat)
    requires Ready(lk, s, c, p) && Wants(lk, s.procs[p].pc) != -1
    ensures Falls(s, RunProc(lk, s, c, p, Yield), c, p)
  {
    hide Acquire, Release, Then, SwitchOut, Wake, Falls;
    match s.procs[p].pc
    case WantLk(ch) => LockFalls(s, c, p, lk[ch], Test(ch));
    case Relock(ch) => LockFalls(s, c, p, lk[ch], Test(ch));
    case MakeWant(ch) => LockFalls(s, c, p, lk[ch], Make(ch));
    case SleepWant(ch) => LockFalls(s, c, p, PTABLE, SleepDrop(ch));
    case WakeWant(ch, h) => LockFalls(s, c, p, PTABLE, Waking(ch, h));
    case YieldWant => LockFalls(s, c, p, PTABLE, YieldSet);
    case ExitWant => LockFalls(s, c, p, PTABLE, ExitSet);
    case KillWant(t) => LockFalls(s, c, p, PTABLE, Killing(t));
  }

  predicate Drops(pc: Pc)
  {
    pc.Consumed? || pc.SleepDrop? || pc.Woke? || pc.MakeDrop? || pc.Resumed? || pc.KillDone?
  }

  lemma DropFalls(lk: Locks, s: State, c: nat, p: nat)
    requires Ready(lk, s, c, p) && Drops(s.procs[p].pc)
    ensures Falls(s, RunProc(lk, s, c, p, Yield), c, p)
  {
    hide Acquire, Release, Then, SwitchOut, Wake, Falls;
    match s.procs[p].pc
    case Consumed(ch) => LockFalls(s, c, p, lk[ch], Idle);
    case SleepDrop(ch) => LockFalls(s, c, p, lk[ch], SleepSet(ch));
    case Woke(ch, h) => LockFalls(s, c, p, PTABLE, if h then MakeDrop(ch) else Idle);
    case MakeDrop(ch) => LockFalls(s, c, p, lk[ch], Idle);
    case Resumed => LockFalls(s, c, p, PTABLE, Idle);
    case KillDone => LockFalls(s, c, p, PTABLE, Idle);
  }

  predicate Switches(pc: Pc) { pc.SleepSched? || pc.YieldSched? || pc.ExitSched? || Out(pc) }

  lemma SwitchFalls(lk: Locks, s: State, c: nat, p: nat)
    requires Ready(lk, s, c, p) && Switches(s.procs[p].pc)
    ensures Falls(s, RunProc(lk, s, c, p, Yield), c, p)
  {
    hide Acquire, Release, Then, SwitchOut, Wake, Falls;
    match s.procs[p].pc
    case SleepSched(ch) => OutFalls(s, c, p, Asleep(ch));
    case YieldSched => OutFalls(s, c, p, Yielded);
    case ExitSched => OutFalls(s, c, p, Dead);
    case _ => NoStep(s, c, p);
  }

  predicate Plain(pc: Pc)
  {
    pc.Idle? || pc.Test? || pc.SleepSet? || pc.YieldSet? || pc.ExitSet? || pc.Make? || pc.Made? || pc.Waking?
      || pc.Killing?
  }

  lemma PlainFalls(lk: Locks, s: State, c: nat, p: nat)
    requires Ready(lk, s, c, p) && Plain(s.procs[p].pc)
    ensures Falls(s, RunProc(lk, s, c, p, Yield), c, p)
  {
    hide Acquire, Release, Then, SwitchOut, Falls;
    SetFalls(s, RunProc(lk, s, c, p, Yield).s, c, p);
  }

  lemma ProcFalls(lk: Locks, s: State, c: nat, p: nat)
    requires Ready(lk, s, c, p)
    ensures Falls(s, RunProc(lk, s, c, p, Yield), c, p)
  {
    hide RunProc, Falls, Shape, On;
    var pc := s.procs[p].pc;
    if Plain(pc) { PlainFalls(lk, s, c, p); }
    else if Drops(pc) { DropFalls(lk, s, c, p); }
    else if Switches(pc) { SwitchFalls(lk, s, c, p); }
    else if pc.Woken? { WokenFalls(lk, s, c, p); }
    else { TakeFalls(lk, s, c, p); }
  }

  lemma NoStep(s: State, c: nat, p: nat)
    requires c < |s.cpus| && p < |s.procs|
    ensures Falls(s, Panic, c, p)
  {
  }

  lemma WokenFalls(lk: Locks, s: State, c: nat, p: nat)
    requires Ready(lk, s, c, p) && s.procs[p].pc.Woken?
    ensures Falls(s, RunProc(lk, s, c, p, Yield), c, p)
  {
  }

  // ---------- runs from any state ----------

  /** The steps lead from s to t, none of them waiting. */
  ghost predicate Leads(lk: Locks, s: State, steps: seq<Step>, t: State)
    decreases |steps|
  {
    if steps == [] then t == s
    else WellFormed(lk, s) && Next(lk, s, steps[0]).To? && Leads(lk, Next(lk, s, steps[0]).s, steps[1..], t)
  }

  lemma {:induction false} LeadsJoin(lk: Locks, s: State, a: seq<Step>, t: State, b: seq<Step>, u: State)
    requires Leads(lk, s, a, t) && Leads(lk, t, b, u)
    ensures Leads(lk, s, a + b, u)
    decreases |a|
  {
    hide Next, WellFormed;
    if a == [] {
      assert a + b == b;
    } else {
      LeadsJoin(lk, Next(lk, s, a[0]).s, a[1..], t, b, u);
      assert (a + b)[0] == a[0] && (a + b)[1..] == a[1..] + b;
    }
  }

  lemma OneStep(lk: Locks, s: State, step: Step, t: State)
    requires WellFormed(lk, s) && Next(lk, s, step) == To(t)
    ensures Leads(lk, s, [step], t)
  {
    hide Next, WellFormed;
    assert [step][1..] == [];
    assert Leads(lk, t, [], t);
  }

  // ---------- no deadlock ----------

  /** Whoever owns a lock, some owner of a lock can take a step: the owner of ptable.lock, or else this one. */
  lemma OwnerMoves(lk: Locks, s: State, l: nat) returns (c: nat, step: Step)
    requires Inv(lk, s) && l < |s.owner| && s.owner[l] != -1
    ensures c < |s.cpus| && (exists x: nat :: x < |s.owner| && s.owner[x] == c)
    ensures step == (if s.cpus[c].Run? then ProcStep(c, Yield) else SchedUnlock(c)) && Next(lk, s, step).To?
    ensures s.cpus[c].Sched? ==> s.cpus[c].locked
  {
    assert LockInv(lk, s, l) && LockInv(lk, s, PTABLE);
    var x: nat := if s.owner[PTABLE] != -1 then PTABLE else l;
    c := s.owner[x];
    assert LockInv(lk, s, x) && CpuInv(s, c);
    if s.cpus[c].Run? {
      var p := s.cpus[c].p;
      step := ProcStep(c, Yield);
      assert ProcInv(lk, s, p);
      HoldersWant(lk, s, p, x);
      hide Inv;
      Moves(lk, s, c, p, Yield);
    } else {
      step := SchedUnlock(c);
      SchedMoves(lk, s, c);
    }
  }

  /** A process that holds ptable.lock wants no lock, and one that holds another wants at most ptable.lock. */
  lemma HoldersWant(lk: Locks, s: State, p: nat, l: nat)
    requires p < |s.procs| && ProcInv(lk, s, p) && Holds(lk, s.procs[p].pc, l)
    ensures !s.procs[p].pc.Idle?
    ensures Wants(lk, s.procs[p].pc) == -1 || (l != PTABLE && Wants(lk, s.procs[p].pc) == PTABLE)
  {
  }

  /** In every state some CPU can take a step. */
  lemma SomeMoves(lk: Locks, s: State) returns (step: Step)
    requires Inv(lk, s) && |s.cpus| > 0
    ensures Next(lk, s, step).To?
  {
    if l: nat :| l < |s.owner| && s.owner[l] != -1 {
      var c;
      c, step := OwnerMoves(lk, s, l);
    } else {
      assert CpuInv(s, 0);
      if s.cpus[0].Sched? {
        SchedMoves(lk, s, 0);
        step := SchedLock(0);
      } else {
        var p := s.cpus[0].p;
        step := ProcStep(0, Yield);
        assert PcOk(lk, s, s.procs[p].pc);
        if s.procs[p].pc.Idle? { IdleMoves(lk, s, 0, p); } else { Moves(lk, s, 0, p, Yield); }
      }
    }
  }

  // ---------- draining the locks ----------

  function CpuRank(s: State, c: nat): nat
    requires c < |s.cpus|
  {
    match s.cpus[c]
    case Sched(locked, _) => if locked then 1 else 0
    case Run(p, _) => if p < |s.procs| then Rank(s.procs[p].pc) + 2 else 0
  }

  function Total(s: State, n: nat): nat
    requires n <= |s.cpus|
  {
    if n == 0 then 0 else Total(s, n - 1) + CpuRank(s, n - 1)
  }

  lemma OtherRank(lk: Locks, s: State, s': State, c: nat, d: nat)
    requires Inv(lk, s) && c < |s.cpus| && d < |s.cpus| && d != c && Apart(s, s', c)
    ensures CpuRank(s', d) == CpuRank(s, d)
    ensures s.cpus[d].Run? ==> s.cpus[d].p < |s.procs| && s'.procs[s.cpus[d].p].pc == s.procs[s.cpus[d].p].pc
  {
    assert CpuInv(s, d) && CpuInv(s, c);
  }

  lemma {:induction false} TotalFalls(lk: Locks, s: State, s': State, c: nat, n: nat)
    requires Inv(lk, s) && c < |s.cpus| && Apart(s, s', c) && n <= |s.cpus| && CpuRank(s', c) < CpuRank(s, c)
    ensures Total(s', n) == Total(s, n) + if c < n then CpuRank(s', c) - CpuRank(s, c) else 0
  {
    hide Inv, Apart, CpuRank;
    if n > 0 {
      assert |s'.cpus| == |s.cpus| by { SameSize(s, s', c); }
      TotalFalls(lk, s, s', c, n - 1);
      if n - 1 != c { OtherRank(lk, s, s', c, n - 1); }
    }
  }

  lemma SameSize(s: State, s': State, c: nat)
    requires c < |s.cpus| && Apart(s, s', c)
    ensures |s'.cpus| == |s.cpus| && |s'.procs| == |s.procs| && |s'.owner| == |s.owner|
  {
  }

  /** Processes switched out stay so, and at most become runnable. */
  ghost predicate OutStay(s: State, t: State)
  {
    && |t.procs| == |s.procs| && |t.cpus| == |s.cpus| && |t.owner| == |s.owner|
    && forall q: nat :: q < |s.procs| && Out(s.procs[q].pc) ==> Roused(s.procs[q], t.procs[q])
  }

  lemma OutStayTrans(s: State, t: State, u: State)
    requires OutStay(s, t) && OutStay(t, u)
    ensures OutStay(s, u)
  {
    forall q: nat | q < |s.procs| && Out(s.procs[q].pc) ensures Roused(s.procs[q], u.procs[q]) {
      assert Roused(s.procs[q], t.procs[q]);
      assert Roused(t.procs[q], u.procs[q]);
    }
  }

  lemma ApartOut(lk: Locks, s: State, s': State, c: nat)
    requires Inv(lk, s) && c < |s.cpus| && Apart(s, s', c)
    ensures OutStay(s, s')
  {
    assert CpuInv(s, c);
  }

  /** A step of CPU c that ends a context's hold a little further. */
  lemma CpuFalls(lk: Locks, s: State, c: nat)
    requires Inv(lk, s) && c < |s.cpus|
    requires var step := (if s.cpus[c].Run? then ProcStep(c, Yield) else SchedUnlock(c)); Next(lk, s, step).To?
    ensures var step := (if s.cpus[c].Run? then ProcStep(c, Yield) else SchedUnlock(c));
            var s' := Next(lk, s, step).s;
            Inv(lk, s') && Apart(s, s', c) && CpuRank(s', c) < CpuRank(s, c)
  {
    assert CpuInv(s, c);
    if s.cpus[c].Run? {
      StepInv(lk, s, ProcStep(c, Yield));
      ProcFalls(lk, s, c, s.cpus[c].p);
    } else {
      StepInv(lk, s, SchedUnlock(c));
    }
  }

  predicate AllFree(s: State)
  {
    forall l: nat :: l < |s.owner| ==> s.owner[l] == -1
  }

  /** From every state some steps lead to one in which all locks are free. */
  lemma {:induction false} Drain(lk: Locks, s: State) returns (steps: seq<Step>, t: State)
    requires Inv(lk, s)
    ensures Leads(lk, s, steps, t) && Inv(lk, t) && AllFree(t) && OutStay(s, t)
    decreases Total(s, |s.cpus|)
  {
    if AllFree(s) {
      steps, t := [], s;
    } else {
      var l: nat :| l < |s.owner| && s.owner[l] != -1;
      assert WellFormed(lk, s);
      hide Inv, Next, WellFormed, Apart, CpuRank, Total, OutStay;
      var c, step := OwnerMoves(lk, s, l);
      CpuFalls(lk, s, c);
      var s1 := Next(lk, s, step).s;
      SameSize(s, s1, c);
      TotalFalls(lk, s, s1, c, |s.cpus|);
      ApartOut(lk, s, s1, c);
      OneStep(lk, s, step, s1);
      var rest;
      rest, t := Drain(lk, s1);
      LeadsJoin(lk, s, [step], s1, rest, t);
      OutStayTrans(s, s1, t);
      steps := [step] + rest;
    }
  }

  // ---------- one CPU alone ----------

  /** Every lock is free or c's. */
  predicate Mine(s: State, c: nat)
  {
    forall l: nat :: l < |s.owner| ==> s.owner[l] == -1 || s.owner[l] == c
  }

  lemma OwnerStays(lk: Locks, s: State, s': State, c: nat, l: nat)
    requires Inv(lk, s) && Inv(lk, s') && c < |s.cpus| && Apart(s, s', c) && l < |s'.owner|
    requires s'.owner[l] != -1 && s'.owner[l] != c
    ensures s.owner[l] == s'.owner[l]
  {
    assert LockInv(lk, s', l);
    var d := s'.owner[l];
    OtherRank(lk, s, s', c, d);
    assert CpuInv(s, d);
    if s.cpus[d].Run? { assert ProcInv(lk, s, s.cpus[d].p); }
  }

  lemma StaysMine(lk: Locks, s: State, s': State, c: nat)
    requires Inv(lk, s) && Inv(lk, s') && c < |s.cpus| && Apart(s, s', c) && Mine(s, c)
    ensures Mine(s', c)
  {
    forall l: nat | l < |s'.owner| && s'.owner[l] != -1 && s'.owner[l] != c ensures s.owner[l] == s'.owner[l] {
      OwnerStays(lk, s, s', c, l);
    }
  }

  /** A CPU that no other holds up gets to its scheduler with ptable.lock. */
  lemma {:induction false} Solo(lk: Locks, s: State, c: nat) returns (steps: seq<Step>, t: State)
    requires Inv(lk, s) && c < |s.cpus| && Mine(s, c)
    ensures Leads(lk, s, steps, t) && Inv(lk, t) && Mine(t, c) && OutStay(s, t) && t.cpus[c] == Sched(true, 1)
    decreases if s.cpus[c].Run? then CpuRank(s, c) + 1 else if s.cpus[c].locked then 0 else 1
  {
    assert CpuInv(s, c) && WellFormed(lk, s);
    if s.cpus[c].Sched? && s.cpus[c].locked {
      steps, t := [], s;
    } else {
      var step := SoloStep(lk, s, c);
      hide Inv, Next, WellFormed, Apart, Mine, OutStay;
      var s1 := Next(lk, s, step).s;
      SameSize(s, s1, c);
      StaysMine(lk, s, s1, c);
      ApartOut(lk, s, s1, c);
      OneStep(lk, s, step, s1);
      var rest;
      rest, t := Solo(lk, s1, c);
      LeadsJoin(lk, s, [step], s1, rest, t);
      OutStayTrans(s, s1, t);
      steps := [step] + rest;
    }
  }

  lemma SoloStep(lk: Locks, s: State, c: nat) returns (step: Step)
    requires Inv(lk, s) && c < |s.cpus| && Mine(s, c) && !(s.cpus[c].Sched? && s.cpus[c].locked)
    ensures WellFormed(lk, s) && Next(lk, s, step).To?
    ensures var s' := Next(lk, s, step).s;
            && Inv(lk, s') && Apart(s, s', c)
            && (s'.cpus[c].Sched? ==> s'.cpus[c].locked)
            && (s'.cpus[c].Run? ==> s.cpus[c].Run? && CpuRank(s', c) < CpuRank(s, c))
  {
    assert CpuInv(s, c);
    if s.cpus[c].Run? {
      var p := s.cpus[c].p;
      step := ProcStep(c, Yield);
      assert PcOk(lk, s, s.procs[p].pc);
      if s.procs[p].pc.Idle? { IdleMoves(lk, s, c, p); } else { Moves(lk, s, c, p, Yield); }
      ProcFalls(lk, s, c, p);
      StepInv(lk, s, step);
    } else {
      step := SchedLock(c);
      SchedMoves(lk, s, c);
      assert LockInv(lk, s, PTABLE);
      StepInv(lk, s, step);
    }
  }

  // ---------- back from sleep ----------

  /** p tests the condition of ch with its lock held. */
  predicate Testing(lk: Locks, s: State, p: nat, ch: nat)
  {
    && p < |s.procs| && s.procs[p].pc == Test(ch) && s.procs[p].state == RUNNING
    && ch < |lk| && lk[ch] < |s.owner| && s.owner[lk[ch]] == s.procs[p].cpu
  }

  lemma AtTest(lk: Locks, s: State, p: nat)
    requires Inv(lk, s) && p < |s.procs| && s.procs[p].pc.Test?
    ensures Testing(lk, s, p, s.procs[p].pc.ch)
  {
    assert ProcInv(lk, s, p) && Holds(lk, s.procs[p].pc, lk[s.procs[p].pc.ch]);
  }

  /** The rest of `sleep` on a CPU that owns ptable.lock alone. */
  lemma FinishSleep(lk: Locks, s: State, c: nat, p: nat) returns (steps: seq<Step>, t: State)
    requires Current(lk, s, c, p) && p < |s.procs| && s.procs[p].pc.Woken?
    requires forall l: nat :: l < |s.owner| ==> s.owner[l] == if l == PTABLE then c else -1
    ensures Leads(lk, s, steps, t) && Inv(lk, t) && Testing(lk, t, p, s.procs[p].pc.ch)
  {
    CurrentFacts(lk, s, c, p);
    var ch, step := s.procs[p].pc.ch, ProcStep(c, Yield);
    assert WellFormed(lk, s);
    Moves(lk, s, c, p, Yield);
    StepInv(lk, s, step);
    var s1 := Next(lk, s, step).s;
    OneStep(lk, s, step, s1);
    if lk[ch] == PTABLE {
      steps, t := [step], s1;
    } else {
      assert s1.procs[p].pc == Relock(ch) && s1.owner[lk[ch]] == -1 && s1.cpus[c].Run? && s1.cpus[c].p == p;
      hide Inv;
      steps, t := FinishRelock(lk, s1, c, p);
      LeadsJoin(lk, s, [step], s1, steps, t);
      steps := [step] + steps;
    }
    AtTest(lk, t, p);
  }

  lemma FinishRelock(lk: Locks, s: State, c: nat, p: nat) returns (steps: seq<Step>, t: State)
    requires Current(lk, s, c, p) && p < |s.procs| && s.procs[p].pc.Relock? && s.procs[p].pc.ch < |lk|
    requires lk[s.procs[p].pc.ch] < |s.owner| && s.owner[lk[s.procs[p].pc.ch]] == -1
    ensures Leads(lk, s, steps, t) && Inv(lk, t) && p < |t.procs| && t.procs[p].pc == Test(s.procs[p].pc.ch)
  {
    var step := ProcStep(c, Yield);
    assert WellFormed(lk, s);
    Moves(lk, s, c, p, Yield);
    StepInv(lk, s, step);
    t := Next(lk, s, step).s;
    OneStep(lk, s, step, t);
    steps := [step];
  }

  /** A process woken from sleep on ch can get back to testing the condition, with the lock held. */
  lemma Returns(lk: Locks, s: State, p: nat) returns (steps: seq<Step>, t: State)
    requires Inv(lk, s) && |s.cpus| > 0 && p < |s.procs| && s.procs[p].pc.Asleep? && s.procs[p].state == RUNNABLE
    ensures Leads(lk, s, steps, t) && Inv(lk, t) && Testing(lk, t, p, s.procs[p].pc.ch)
  {
    hide Inv, Next, WellFormed, Leads;
    var a, s1 := Drain(lk, s);
    assert Roused(s.procs[p], s1.procs[p]);
    var b, s2 := Solo(lk, s1, 0);
    assert Roused(s1.procs[p], s2.procs[p]);
    LeadsJoin(lk, s, a, s1, b, s2);
    OnlyTable(lk, s2, 0);
    InvShape(lk, s2);
    PicksAny(lk, s2, 0, p);
    var s3 := Next(lk, s2, SchedPick(0, p)).s;
    OneStep(lk, s2, SchedPick(0, p), s3);
    LeadsJoin(lk, s, a + b, s2, [SchedPick(0, p)], s3);
    var d;
    d, t := FinishSleep(lk, s3, 0, p);
    LeadsJoin(lk, s, a + b + [SchedPick(0, p)], s3, d, t);
    steps := a + b + [SchedPick(0, p)] + d;
  }

  lemma InvShape(lk: Locks, s: State)
    requires Inv(lk, s)
    ensures WellFormed(lk, s)
  {
  }

  lemma OnlyTable(lk: Locks, s: State, c: nat)
    requires Inv(lk, s) && c < |s.cpus| && s.cpus[c] == Sched(true, 1) && Mine(s, c)
    ensures forall l: nat :: l < |s.owner| ==> s.owner[l] == if l == PTABLE then c else -1
  {
    assert CpuInv(s, c);
    forall l: nat | l < |s.owner| ensures s.owner[l] == if l == PTABLE then c else -1 { assert LockInv(lk, s, l); }
  }

  // ---------- asleep while somebody is about to wake it ----------

  /** p is asleep on its channel, and runnable or with a wakeup of that channel to come. */
  predicate Awaits(s: State, p: nat)
  {
    && p < |s.procs| && s.procs[p].pc.Asleep?
    && (s.procs[p].state == RUNNABLE
        || (s.procs[p].state == SLEEPING && s.procs[p].chan == s.procs[p].pc.ch && SomeoneWaking(s, s.procs[p].pc.ch)))
  }

  lemma WakerGoesOn(lk: Locks, s: State, c: nat, w: nat, ch: nat)
    requires Ready(lk, s, c, w) && Pending(s.procs[w].pc, ch) && RunProc(lk, s, c, w, Yield).To?
    ensures var s' := RunProc(lk, s, c, w, Yield).s;
            && |s'.procs| == |s.procs|
            && (Pending(s'.procs[w].pc, ch)
                || (s.procs[w].pc.Waking? && forall q: nat ::
                   q < |s.procs| && q != w ==> s'.procs[q] == Wake(s.procs, ch)[q]))
  {
    hide Wake;
  }

  lemma AwaitsStep(lk: Locks, s: State, c: nat, p: nat)
    requires Inv(lk, s) && c < |s.cpus| && Awaits(s, p)
    requires var step := (if s.cpus[c].Run? then ProcStep(c, Yield) else SchedUnlock(c)); Next(lk, s, step).To?
    ensures var step := (if s.cpus[c].Run? then ProcStep(c, Yield) else SchedUnlock(c));
            Awaits(Next(lk, s, step).s, p) && Next(lk, s, step).s.procs[p].pc == s.procs[p].pc
  {
    CpuFalls(lk, s, c);
    assert CpuInv(s, c);
    var ch := s.procs[p].pc.ch;
    if s.cpus[c].Run? {
      var me, s' := s.cpus[c].p, Next(lk, s, ProcStep(c, Yield)).s;
      assert Roused(s.procs[p], s'.procs[p]);
      if s'.procs[p].state == SLEEPING {
        var w: nat :| w < |s.procs| && Pending(s.procs[w].pc, ch);
        if w == me { WakerGoesOn(lk, s, c, w, ch); } else { assert Roused(s.procs[w], s'.procs[w]); }
        assert Pending(s'.procs[w].pc, ch);
      }
    } else {
      var s' := Next(lk, s, SchedUnlock(c)).s;
      assert s'.procs == s.procs;
      if s.procs[p].state == SLEEPING {
        var w: nat :| w < |s.procs| && Pending(s.procs[w].pc, ch);
        assert Pending(s'.procs[w].pc, ch);
      }
    }
  }

  lemma {:induction false} DrainFor(lk: Locks, s: State, p: nat) returns (steps: seq<Step>, t: State)
    requires Inv(lk, s) && Awaits(s, p)
    ensures Leads(lk, s, steps, t) && Inv(lk, t) && AllFree(t) && |t.cpus| == |s.cpus|
    ensures Awaits(t, p) && t.procs[p].pc == s.procs[p].pc
    decreases Total(s, |s.cpus|)
  {
    if AllFree(s) {
      steps, t := [], s;
    } else {
      var l: nat :| l < |s.owner| && s.owner[l] != -1;
      InvShape(lk, s);
      hide Inv, Next, WellFormed, Apart, CpuRank, Total, Awaits;
      var c, step := OwnerMoves(lk, s, l);
      CpuFalls(lk, s, c);
      AwaitsStep(lk, s, c, p);
      var s1 := Next(lk, s, step).s;
      SameSize(s, s1, c);
      TotalFalls(lk, s, s1, c, |s.cpus|);
      OneStep(lk, s, step, s1);
      var rest;
      rest, t := DrainFor(lk, s1, p);
      LeadsJoin(lk, s, [step], s1, rest, t);
      steps := [step] + rest;
    }
  }

  /** With all locks free, the process about to wake the channel does so in two steps. */
  lemma WakesUp(lk: Locks, s: State, p: nat) returns (steps: seq<Step>, t: State)
    requires Inv(lk, s) && AllFree(s) && Awaits(s, p) && s.procs[p].state == SLEEPING
    ensures Leads(lk, s, steps, t) && Inv(lk, t) && |t.cpus| == |s.cpus|
    ensures p < |t.procs| && t.procs[p].pc == s.procs[p].pc && t.procs[p].state == RUNNABLE
  {
    var ch := s.procs[p].pc.ch;
    var w: nat :| w < |s.procs| && Pending(s.procs[w].pc, ch);
    assert ProcInv(lk, s, w);
    NoLocks(lk, s, w, ch);
    var c, step := s.procs[w].cpu, ProcStep(s.procs[w].cpu, Yield);
    Moves(lk, s, c, w, Yield);
    StepInv(lk, s, step);
    var s1 := Next(lk, s, step).s;
    OneStep(lk, s, step, s1);
    assert s1.procs[w].pc == Waking(ch, false) && s1.procs[p] == s.procs[p] && s1.cpus[c].Run? && s1.cpus[c].p == w;
    Moves(lk, s1, c, w, Yield);
    StepInv(lk, s1, step);
    t := Next(lk, s1, step).s;
    OneStep(lk, s1, step, t);
    LeadsJoin(lk, s, [step], s1, [step], t);
    steps := [step] + [step];
  }

  lemma NoLocks(lk: Locks, s: State, w: nat, ch: nat)
    requires AllFree(s) && Shape(lk, s) && w < |s.procs| && ProcInv(lk, s, w) && Pending(s.procs[w].pc, ch)
    ensures s.procs[w].pc == WakeWant(ch, false)
  {
    var pc := s.procs[w].pc;
    forall l: nat | l < |s.owner| ensures !Holds(lk, pc, l) {}
    assert !Holds(lk, pc, PTABLE) && !Holds(lk, pc, lk[ch]);
  }

  /** A process asleep on ch while somebody has yet to wake ch can get back to its test too. */
  lemma SleeperReturns(lk: Locks, s: State, p: nat) returns (steps: seq<Step>, t: State)
    requires Inv(lk, s) && |s.cpus| > 0 && Awaits(s, p)
    ensures Leads(lk, s, steps, t) && Inv(lk, t) && Testing(lk, t, p, s.procs[p].pc.ch)
  {
    hide Inv, Leads;
    var a, s1 := DrainFor(lk, s, p);
    var b, s2 := [], s1;
    if s1.procs[p].state == SLEEPING {
      b, s2 := WakesUp(lk, s1, p);
    } else {
      LeadsNowhere(lk, s1);
    }
    LeadsJoin(lk, s, a, s1, b, s2);
    var d;
    d, t := Returns(lk, s2, p);
    LeadsJoin(lk, s, a + b, s2, d, t);
    steps := a + b + d;
  }

  lemma LeadsNowhere(lk: Locks, s: State)
    ensures Leads(lk, s, [], s)
  {
  }

  // ---------- every run ----------

  /** In every state of every run: a process asleep on a channel whose condition is true can reach the
      test of the condition again, holding the lock: no wakeup is lost. */
  lemma TrueConditionIsTested(lk: Locks, run: seq<State>, steps: seq<Step>, i: nat, p: nat)
    returns (more: seq<Step>, t: State)
    requires IsRun(lk, run, steps) && i < |run| && |run[i].cpus| > 0 && p < |run[i].procs|
    requires run[i].procs[p].pc.Asleep? && run[i].procs[p].pc.ch < |run[i].value|
      && run[i].value[run[i].procs[p].pc.ch] > 0
    ensures Leads(lk, run[i], more, t) && Testing(lk, t, p, run[i].procs[p].pc.ch)
  {
    RunKeepsInv(lk, run, steps, i);
    assert ProcInv(lk, run[i], p);
    more, t := SleeperReturns(lk, run[i], p);
  }

  /** In every state of every run: a process woken from sleep on ch can reach the test of its condition
      again, holding the lock of ch. */
  lemma WokenReturns(lk: Locks, run: seq<State>, steps: seq<Step>, i: nat, p: nat) returns (more: seq<Step>, t: State)
    requires IsRun(lk, run, steps) && i < |run| && |run[i].cpus| > 0
    requires p < |run[i].procs| && run[i].procs[p].pc.Asleep? && run[i].procs[p].state == RUNNABLE
    ensures Leads(lk, run[i], more, t) && Testing(lk, t, p, run[i].procs[p].pc.ch)
  {
    RunKeepsInv(lk, run, steps, i);
    more, t := Returns(lk, run[i], p);
  }

  /** In every state of every run some CPU can take a step. */
  lemma NeverStuck(lk: Locks, run: seq<State>, steps: seq<Step>, i: nat) returns (step: Step)
    requires IsRun(lk, run, steps) && i < |run| && |run[i].cpus| > 0
    ensures WellFormed(lk, run[i]) && Next(lk, run[i], step).To?
  {
    RunKeepsInv(lk, run, steps, i);
    step := SomeMoves(lk, run[i]);
  }
}
