/** sleep, wakeup, sched and scheduler (proc.c) with spin locks (spinlock.c), as interleaved
    steps of any number of CPUs and processes.  Processes repeatedly consume from or produce for
    a condition protected by a lock, yield, exit, or kill one another. */
module SleepWakeup {

  const PTABLE := 0          // ptable.lock; other locks are numbered from 1

  datatype PState = SLEEPING | RUNNABLE | RUNNING | ZOMBIE

  /** Where a process is in kernel code; `ch` is a channel with its condition and lock. */
  datatype Pc =
    | Idle
    // acquire(lk); while(!cond) sleep(ch, lk); consume; release(lk)
    | WantLk(ch: nat) | Test(ch: nat) | Consumed(ch: nat)
    | SleepWant(ch: nat) | SleepDrop(ch: nat) | SleepSet(ch: nat) | SleepSched(ch: nat)
    | Asleep(ch: nat) | Woken(ch: nat) | Relock(ch: nat)
    // acquire(lk); produce; wakeup(ch) before or after release(lk)
    | MakeWant(ch: nat) | Make(ch: nat) | Made(ch: nat)
    | WakeWant(ch: nat, held: bool) | Waking(ch: nat, held: bool) | Woke(ch: nat, held: bool) | MakeDrop(ch: nat)
    // yield, exit, kill
    | YieldWant | YieldSet | YieldSched | Yielded | Resumed
    | ExitWant | ExitSet | ExitSched | Dead
    | KillWant(t: nat) | Killing(t: nat) | KillDone

  /** cpu is meaningful while the process is on one. */
  datatype Proc = Proc(state: PState, chan: int, pc: Pc, cpu: nat)

  datatype Cpu = Sched(locked: bool, ncli: int) | Run(p: nat, ncli: int)

  /** owner of each lock: a cpu, or -1; value of each channel's condition: true when positive. */
  datatype State = State(procs: seq<Proc>, cpus: seq<Cpu>, owner: seq<int>, value: seq<nat>)

  type Locks = seq<nat>      // the lock of each channel

  datatype Outcome = Blocked | Panic | To(s: State)

  // ---------- spinlock.c ----------

  function SetNcli(c: Cpu, n: int): Cpu
  {
    match c
    case Sched(b, _) => Sched(b, n)
    case Run(p, _) => Run(p, n)
  }

  function Acquire(s: State, c: nat, l: nat): Outcome
    requires c < |s.cpus| && l < |s.owner|
  {
    if s.owner[l] == c then Panic
    else if s.owner[l] != -1 then Blocked
    else To(s.(owner := s.owner[l := c], cpus := s.cpus[c := SetNcli(s.cpus[c], s.cpus[c].ncli + 1)]))
  }

  function Release(s: State, c: nat, l: nat): Outcome
    requires c < |s.cpus| && l < |s.owner|
  {
    if s.owner[l] != c || s.cpus[c].ncli < 1 then Panic
    else To(s.(owner := s.owner[l := -1], cpus := s.cpus[c := SetNcli(s.cpus[c], s.cpus[c].ncli - 1)]))
  }

  // ---------- one step ----------

  datatype Choice = Consume(ch: nat) | Produce(ch: nat) | Yield | Exit | Kill(t: nat) | Early | Late

  datatype Step =
    | ProcStep(c: nat, choice: Choice)
    | SchedLock(c: nat)
    | SchedPick(c: nat, p: nat)
    | SchedUnlock(c: nat)

  function Goto(s: State, p: nat, pc: Pc): State
    requires p < |s.procs|
  {
    s.(procs := s.procs[p := s.procs[p].(pc := pc)])
  }

  function Then(o: Outcome, p: nat, pc: Pc): Outcome
  {
    match o
    case To(s) => if p < |s.procs| then To(Goto(s, p, pc)) else Panic
    case _ => o
  }

  /** `wakeup1(ch)`. */
  function Wake(procs: seq<Proc>, ch: nat): (r: seq<Proc>)
    ensures |r| == |procs|
    ensures forall i :: 0 <= i < |r| ==>
      r[i] == if procs[i].state == SLEEPING && procs[i].chan == ch then procs[i].(state := RUNNABLE) else procs[i]
  {
    seq(|procs|, i requires 0 <= i < |procs| =>
      if procs[i].state == SLEEPING && procs[i].chan == ch then procs[i].(state := RUNNABLE) else procs[i])
  }

  /** `sched()`: its panics, then the switch to this CPU's scheduler. */
  function SwitchOut(s: State, c: nat, p: nat, saved: Pc): Outcome
    requires c < |s.cpus| && p < |s.procs| && PTABLE < |s.owner|
  {
    if s.owner[PTABLE] != c || s.cpus[c].ncli != 1 || s.procs[p].state == RUNNING then Panic
    else To(Goto(s.(cpus := s.cpus[c := Sched(true, s.cpus[c].ncli)]), p, saved))
  }

  /** The context a process resumes in when the scheduler switches to it. */
  function Resume(pc: Pc): Pc
  {
    match pc
    case Asleep(ch) => Woken(ch)
    case _ => Resumed
  }

  predicate Shape(lk: Locks, s: State)
  {
    && |s.owner| > 0 && |s.value| == |lk|
    && (forall ch :: 0 <= ch < |lk| ==> lk[ch] < |s.owner|)
  }

  /** The channel a pc mentions exists. */
  predicate PcOk(lk: Locks, s: State, pc: Pc)
  {
    match pc
    case Idle => true
    case YieldWant => true case YieldSet => true case YieldSched => true case Yielded => true case Resumed => true
    case ExitWant => true case ExitSet => true case ExitSched => true case Dead => true
    case KillWant(t) => t < |s.procs| case Killing(t) => t < |s.procs| case KillDone => true
    case _ => pc.ch < |lk|
  }

  predicate WellFormed(lk: Locks, s: State)
  {
    Shape(lk, s) && forall p: nat :: p < |s.procs| ==> PcOk(lk, s, s.procs[p].pc)
  }

  function RunProc(lk: Locks, s: State, c: nat, p: nat, choice: Choice): Outcome
    requires Shape(lk, s) && c < |s.cpus| && p < |s.procs| && PcOk(lk, s, s.procs[p].pc)
  {
    var me := s.procs[p];
    match me.pc
    case Idle =>
      (match choice
       case Consume(ch) => if ch < |lk| then To(Goto(s, p, WantLk(ch))) else Blocked
       case Produce(ch) => if ch < |lk| then To(Goto(s, p, MakeWant(ch))) else Blocked
       case Yield => To(Goto(s, p, YieldWant))
       case Exit => To(Goto(s, p, ExitWant))
       case Kill(t) => if t < |s.procs| then To(Goto(s, p, KillWant(t))) else Blocked
       case _ => Blocked)
    // the consumer
    case WantLk(ch) => Then(Acquire(s, c, lk[ch]), p, Test(ch))
    case Test(ch) =>
      if s.value[ch] > 0 then To(Goto(s.(value := s.value[ch := s.value[ch] - 1]), p, Consumed(ch)))
      else To(Goto(s, p, if lk[ch] == PTABLE then SleepSet(ch) else SleepWant(ch)))
    case Consumed(ch) => Then(Release(s, c, lk[ch]), p, Idle)
    // sleep
    case SleepWant(ch) => Then(Acquire(s, c, PTABLE), p, SleepDrop(ch))
    case SleepDrop(ch) => Then(Release(s, c, lk[ch]), p, SleepSet(ch))
    case SleepSet(ch) => To(s.(procs := s.procs[p := me.(state := SLEEPING, chan := ch, pc := SleepSched(ch))]))
    case SleepSched(ch) => SwitchOut(s, c, p, Asleep(ch))
    case Woken(ch) =>
      var s1 := s.(procs := s.procs[p := me.(chan := -1)]);
      if lk[ch] == PTABLE then To(Goto(s1, p, Test(ch))) else Then(Release(s1, c, PTABLE), p, Relock(ch))
    case Relock(ch) => Then(Acquire(s, c, lk[ch]), p, Test(ch))
    // the producer
    case MakeWant(ch) => Then(Acquire(s, c, lk[ch]), p, Make(ch))
    case Make(ch) => To(Goto(s.(value := s.value[ch := s.value[ch] + 1]), p, Made(ch)))
    case Made(ch) =>
      if lk[ch] == PTABLE then To(Goto(s, p, Waking(ch, true)))
      else if choice == Late then Then(Release(s, c, lk[ch]), p, WakeWant(ch, false))
      else To(Goto(s, p, WakeWant(ch, true)))
    case WakeWant(ch, h) => Then(Acquire(s, c, PTABLE), p, Waking(ch, h))
    case Waking(ch, h) =>
      To(Goto(s.(procs := Wake(s.procs, ch)), p, if lk[ch] == PTABLE then MakeDrop(ch) else Woke(ch, h)))
    case Woke(ch, h) => Then(Release(s, c, PTABLE), p, if h then MakeDrop(ch) else Idle)
    case MakeDrop(ch) => Then(Release(s, c, lk[ch]), p, Idle)
    // yield, exit, kill
    case YieldWant => Then(Acquire(s, c, PTABLE), p, YieldSet)
    case YieldSet => To(s.(procs := s.procs[p := me.(state := RUNNABLE, pc := YieldSched)]))
    case YieldSched => SwitchOut(s, c, p, Yielded)
    case Resumed => Then(Release(s, c, PTABLE), p, Idle)
    case ExitWant => Then(Acquire(s, c, PTABLE), p, ExitSet)
    case ExitSet => To(s.(procs := s.procs[p := me.(state := ZOMBIE, pc := ExitSched)]))
    case ExitSched => SwitchOut(s, c, p, Dead)
    case KillWant(t) => Then(Acquire(s, c, PTABLE), p, Killing(t))
    case Killing(t) =>
      var procs1 := if s.procs[t].state == SLEEPING then s.procs[t := s.procs[t].(state := RUNNABLE)] else s.procs;
      To(Goto(s.(procs := procs1), p, KillDone))
    case KillDone => Then(Release(s, c, PTABLE), p, Idle)
    // switched out: never current on a CPU
    case Asleep(_) => Panic
    case Yielded => Panic
    case Dead => Panic
  }

  function Next(lk: Locks, s: State, step: Step): Outcome
    requires WellFormed(lk, s)
  {
    if step.c >= |s.cpus| then Blocked
    else
      var c, cpu := step.c, s.cpus[step.c];
      match step
      case ProcStep(_, choice) => if cpu.Run? && cpu.p < |s.procs| then RunProc(lk, s, c, cpu.p, choice) else Blocked
      case SchedLock(_) =>
        if cpu.Sched? && !cpu.locked then
          (match Acquire(s, c, PTABLE)
           case To(s1) => To(s1.(cpus := s1.cpus[c := Sched(true, s1.cpus[c].ncli)]))
           case o => o)
        else Blocked
      case SchedPick(_, p) =>
        if cpu.Sched? && cpu.locked && p < |s.procs| && s.procs[p].state == RUNNABLE then
          To(s.(cpus := s.cpus[c := Run(p, cpu.ncli)],
                procs := s.procs[p := s.procs[p].(state := RUNNING, cpu := c, pc := Resume(s.procs[p].pc))]))
        else Blocked
      case SchedUnlock(_) =>
        if cpu.Sched? && cpu.locked then
          (match Release(s, c, PTABLE)
           case To(s1) => To(s1.(cpus := s1.cpus[c := Sched(false, s1.cpus[c].ncli)]))
           case o => o)
        else Blocked
  }

  // ---------- the invariant ----------

  /** Switched out: not current on any CPU. */
  predicate Out(pc: Pc) { pc.Asleep? || pc.Yielded? || pc.Dead? }

  /** Holds ptable.lock. */
  predicate HoldsP(pc: Pc)
  {
    pc.SleepDrop? || pc.SleepSet? || pc.SleepSched? || pc.Woken? || pc.Waking? || pc.Woke? || pc.YieldSet?
      || pc.YieldSched? || pc.Resumed?
    || pc.ExitSet? || pc.ExitSched? || pc.Killing? || pc.KillDone?
  }

  /** Holds the lock of its channel. */
  predicate HoldsK(pc: Pc)
  {
    pc.Test? || pc.Consumed? || pc.SleepWant? || pc.SleepDrop? || pc.Make? || pc.Made? || pc.MakeDrop?
    || (pc.WakeWant? && pc.held) || (pc.Waking? && pc.held) || (pc.Woke? && pc.held)
  }

  predicate Holds(lk: Locks, pc: Pc, l: nat)
  {
    (HoldsP(pc) && l == PTABLE) || (HoldsK(pc) && pc.ch < |lk| && lk[pc.ch] == l)
  }

  function Count(lk: Locks, pc: Pc): int
  {
    (if HoldsP(pc) then 1 else 0)
    + (if HoldsK(pc) && pc.ch < |lk| && !(HoldsP(pc) && lk[pc.ch] == PTABLE) then 1 else 0)
  }

  /** Pcs that exist only for channels whose lock is not ptable.lock. */
  predicate OwnLockPc(pc: Pc)
  {
    pc.SleepWant? || pc.SleepDrop? || pc.Relock? || pc.WakeWant? || pc.Woke? || (pc.Waking? && !pc.held)
  }

  predicate StateOk(me: Proc)
  {
    match me.pc
    case SleepSched(ch) => me.state == SLEEPING && me.chan == ch
    case Asleep(ch) => (me.state == SLEEPING && me.chan == ch) || me.state == RUNNABLE
    case YieldSched => me.state == RUNNABLE
    case Yielded => me.state == RUNNABLE
    case ExitSched => me.state == ZOMBIE
    case Dead => me.state == ZOMBIE
    case _ => me.state == RUNNING
  }

  /** Has made the condition true and has yet to run wakeup1. */
  predicate Pending(pc: Pc, ch: nat)
  {
    (pc.Made? || pc.WakeWant? || pc.Waking?) && pc.ch == ch
  }

  predicate SomeoneWaking(s: State, ch: nat)
  {
    exists q :: 0 <= q < |s.procs| && Pending(s.procs[q].pc, ch)
  }

  /** Committed to sleeping on its channel, or asleep on it. */
  predicate InSleep(me: Proc)
  {
    me.pc.SleepSet? || me.pc.SleepSched? || (me.pc.Asleep? && me.state == SLEEPING)
  }

  predicate SleepOk(lk: Locks, s: State, me: Proc)
  {
    && ((me.pc.SleepWant? || me.pc.SleepDrop?) && me.pc.ch < |s.value| ==> s.value[me.pc.ch] == 0)
    && (InSleep(me) && me.pc.ch < |s.value| && s.value[me.pc.ch] > 0 ==> SomeoneWaking(s, me.pc.ch))
  }

  predicate ProcInv(lk: Locks, s: State, p: nat)
    requires p < |s.procs|
  {
    var me := s.procs[p];
    && PcOk(lk, s, me.pc) && StateOk(me) && SleepOk(lk, s, me)
    && (OwnLockPc(me.pc) && me.pc.ch < |lk| ==> lk[me.pc.ch] != PTABLE)
    && (!Out(me.pc) ==>
          && me.cpu < |s.cpus| && s.cpus[me.cpu] == Run(p, Count(lk, me.pc))
          && forall l :: 0 <= l < |s.owner| && Holds(lk, me.pc, l) ==> s.owner[l] == me.cpu)
  }

  predicate CpuInv(s: State, c: nat)
    requires c < |s.cpus|
  {
    match s.cpus[c]
    case Run(p, _) => p < |s.procs| && !Out(s.procs[p].pc) && s.procs[p].cpu == c
    case Sched(b, n) => n == (if b then 1 else 0) && (b ==> |s.owner| > 0 && s.owner[PTABLE] == c)
  }

  predicate CpuHolds(lk: Locks, s: State, c: nat, l: nat)
    requires c < |s.cpus|
  {
    match s.cpus[c]
    case Sched(b, _) => b && l == PTABLE
    case Run(p, _) => p < |s.procs| && Holds(lk, s.procs[p].pc, l)
  }

  /** A lock is free, or owned by the CPU whose current context holds it. */
  predicate LockInv(lk: Locks, s: State, l: nat)
    requires l < |s.owner|
  {
    s.owner[l] == -1 || (0 <= s.owner[l] < |s.cpus| && CpuHolds(lk, s, s.owner[l], l))
  }

  predicate Inv(lk: Locks, s: State)
  {
    && WellFormed(lk, s)
    && (forall p: nat :: p < |s.procs| ==> ProcInv(lk, s, p))
    && (forall c: nat :: c < |s.cpus| ==> CpuInv(s, c))
    && (forall l: nat :: l < |s.owner| ==> LockInv(lk, s, l))
  }

  // ---------- frames ----------

  /** Between two states in which only CPU c and process p acted: what keeps the others' invariant. */
  predicate Others(lk: Locks, s: State, s': State, c: nat, p: nat)
    requires p < |s.procs| && c < |s.cpus|
  {
    && |s'.procs| == |s.procs| && |s'.cpus| == |s.cpus| && |s'.owner| == |s.owner| && |s'.value| == |s.value|
    && (forall q: nat :: q < |s.procs| && q != p ==>
          s'.procs[q] == s.procs[q] || (s.procs[q].pc.Asleep? && s'.procs[q] == s.procs[q].(state := RUNNABLE)))
    && (forall d: nat :: d < |s.cpus| && d != c ==> s'.cpus[d] == s.cpus[d])
    && (s.cpus[c].Run? ==> s.cpus[c].p == p) && (Out(s.procs[p].pc) || s.procs[p].cpu == c)
    && (forall l: nat :: l < |s.owner| && s'.owner[l] != s.owner[l] ==> s.owner[l] == -1 || s.owner[l] == c)
    && (forall ch: nat ::
       ch < |s.value| && s'.value[ch] != s.value[ch] ==> ch < |lk| && lk[ch] < |s.owner| && s.owner[lk[ch]] == c)
    && (forall q: nat ::
          q < |s.procs| && q != p && InSleep(s'.procs[q]) && s'.procs[q].pc.ch < |s'.value|
          && s'.value[s'.procs[q].pc.ch] > 0
          ==> SomeoneWaking(s', s'.procs[q].pc.ch))
  }

  lemma OtherProc(lk: Locks, s: State, s': State, c: nat, p: nat, q: nat)
    requires Inv(lk, s) && p < |s.procs| && c < |s.cpus| && Others(lk, s, s', c, p) && q < |s.procs| && q != p
    ensures ProcInv(lk, s', q)
  {
    assert ProcInv(lk, s, q) && CpuInv(s, c);
    var me := s.procs[q];
    if !Out(me.pc) {
      assert me.cpu != c;
    }
  }

  /** The invariant after a step of CPU c for process p, from what changed. */
  lemma Assemble(lk: Locks, s: State, s': State, c: nat, p: nat)
    requires Inv(lk, s) && p < |s.procs| && c < |s.cpus| && Others(lk, s, s', c, p)
    requires ProcInv(lk, s', p) && CpuInv(s', c)
    requires forall l: nat :: l < |s.owner| ==>
      (s'.owner[l] == s.owner[l] && s.owner[l] != c) || s'.owner[l] == -1
        || (s'.owner[l] == c && CpuHolds(lk, s', c, l))
    ensures Inv(lk, s')
  {
    forall q: nat | q < |s'.procs| ensures ProcInv(lk, s', q) {
      if q != p { OtherProc(lk, s, s', c, p, q); }
    }
    forall d: nat | d < |s'.cpus| ensures CpuInv(s', d) {
      if d != c { assert CpuInv(s, d) && ProcInv(lk, s, p); }
    }
    forall l: nat | l < |s'.owner| ensures LockInv(lk, s', l) {
      assert LockInv(lk, s, l);
      if s'.owner[l] != -1 && s'.owner[l] != c {
        var d := s.owner[l];
        assert CpuInv(s, d) && ProcInv(lk, s, p);
      }
    }
  }

  // ---------- steps of a running process ----------

  predicate Current(lk: Locks, s: State, c: nat, p: nat)
  {
    Inv(lk, s) && c < |s.cpus| && s.cpus[c].Run? && s.cpus[c].p == p
  }

  lemma CurrentFacts(lk: Locks, s: State, c: nat, p: nat)
    requires Current(lk, s, c, p)
    ensures p < |s.procs| && s.procs[p].cpu == c && !Out(s.procs[p].pc) && ProcInv(lk, s, p)
    ensures s.cpus[c] == Run(p, Count(lk, s.procs[p].pc))
    ensures forall l: nat :: l < |s.owner| ==> (s.owner[l] == c <==> Holds(lk, s.procs[p].pc, l))
  {
    assert CpuInv(s, c);
    assert ProcInv(lk, s, p);
    forall l: nat | l < |s.owner| ensures s.owner[l] == c <==> Holds(lk, s.procs[p].pc, l) {
      assert LockInv(lk, s, l);
    }
  }

  /** What p's own pc and state must satisfy in any state in which p is current on c. */
  predicate SelfOk(lk: Locks, s: State, me: Proc, c: nat)
  {
    && me.cpu == c && !Out(me.pc) && PcOk(lk, s, me.pc) && StateOk(me) && SleepOk(lk, s, me)
    && (OwnLockPc(me.pc) && me.pc.ch < |lk| ==> lk[me.pc.ch] != PTABLE)
  }

  /** p stays on c; the locks it takes were free and the locks it drops become free. */
  lemma StayInv(lk: Locks, s: State, s': State, c: nat, p: nat)
    requires Current(lk, s, c, p) && p < |s.procs| && Others(lk, s, s', c, p)
    requires SelfOk(lk, s', s'.procs[p], c) && s'.cpus[c] == Run(p, Count(lk, s'.procs[p].pc))
    requires forall l: nat :: l < |s.owner| ==>
      s'.owner[l] == if Holds(lk, s'.procs[p].pc, l) then c else if s.owner[l] == c then -1 else s.owner[l]
    ensures Inv(lk, s')
  {
    Assemble(lk, s, s', c, p);
  }

  /** Pending wakeups survive when p's own does. */
  lemma StillWaking(s: State, s': State, p: nat, ch: nat)
    requires |s'.procs| == |s.procs| && SomeoneWaking(s, ch) && p < |s.procs|
    requires Pending(s.procs[p].pc, ch) ==> Pending(s'.procs[p].pc, ch)
    requires forall q: nat :: q < |s.procs| && q != p ==> s'.procs[q].pc == s.procs[q].pc
    ensures SomeoneWaking(s', ch)
  {
    var q :| 0 <= q < |s.procs| && Pending(s.procs[q].pc, ch);
    assert Pending(s'.procs[q].pc, ch);
  }

  /** A step that changes p's own record, and nothing else but locks. */
  lemma OwnStepInv(lk: Locks, s: State, s': State, c: nat, p: nat, me': Proc)
    requires Current(lk, s, c, p) && p < |s.procs|
    requires s'.procs == s.procs[p := me'] && s'.value == s.value
    requires s'.cpus == s.cpus[c := Run(p, Count(lk, me'.pc))]
    requires |s'.owner| == |s.owner|
    requires forall l: nat :: l < |s.owner| ==>
      s'.owner[l] == if Holds(lk, me'.pc, l) then c else if s.owner[l] == c then -1 else s.owner[l]
    requires forall l: nat :: l < |s.owner| && Holds(lk, me'.pc, l) ==> s.owner[l] == -1 || s.owner[l] == c
    requires SelfOk(lk, s, me', c)
    requires forall ch: nat :: Pending(s.procs[p].pc, ch) ==> Pending(me'.pc, ch)
    ensures Inv(lk, s')
  {
    CurrentFacts(lk, s, c, p);
    if InSleep(me') && me'.pc.ch < |s.value| && s.value[me'.pc.ch] > 0 {
      StillWaking(s, s', p, me'.pc.ch);
    }
    forall q: nat | q < |s.procs| && q != p && InSleep(s'.procs[q]) && s'.procs[q].pc.ch < |s'.value|
      && s'.value[s'.procs[q].pc.ch] > 0
      ensures SomeoneWaking(s', s'.procs[q].pc.ch)
    {
      assert ProcInv(lk, s, q);
      StillWaking(s, s', p, s'.procs[q].pc.ch);
    }
    StayInv(lk, s, s', c, p);
  }

  lemma AcquireInv(lk: Locks, s: State, c: nat, p: nat, l: nat, pc': Pc)
    requires Current(lk, s, c, p) && p < |s.procs| && l < |s.owner|
    requires !Holds(lk, s.procs[p].pc, l)
    requires forall x: nat :: Holds(lk, pc', x) <==> Holds(lk, s.procs[p].pc, x) || x == l
    requires Count(lk, pc') == Count(lk, s.procs[p].pc) + 1
    requires SelfOk(lk, s, s.procs[p].(pc := pc'), c)
    requires forall ch: nat :: Pending(s.procs[p].pc, ch) ==> Pending(pc', ch)
    ensures Then(Acquire(s, c, l), p, pc').To? ==> Inv(lk, Then(Acquire(s, c, l), p, pc').s)
    ensures !Then(Acquire(s, c, l), p, pc').Panic?
  {
    CurrentFacts(lk, s, c, p);
    if s.owner[l] == -1 {
      OwnStepInv(lk, s, Then(Acquire(s, c, l), p, pc').s, c, p, s.procs[p].(pc := pc'));
    }
  }

  lemma ReleaseInv(lk: Locks, s: State, c: nat, p: nat, l: nat, pc': Pc)
    requires Current(lk, s, c, p) && p < |s.procs| && l < |s.owner|
    requires Holds(lk, s.procs[p].pc, l)
    requires forall x: nat :: Holds(lk, pc', x) <==> Holds(lk, s.procs[p].pc, x) && x != l
    requires Count(lk, pc') == Count(lk, s.procs[p].pc) - 1
    requires SelfOk(lk, s, s.procs[p].(pc := pc'), c)
    requires forall ch: nat :: Pending(s.procs[p].pc, ch) ==> Pending(pc', ch)
    ensures Then(Release(s, c, l), p, pc').To?
    ensures Inv(lk, Then(Release(s, c, l), p, pc').s)
  {
    CurrentFacts(lk, s, c, p);
    OwnStepInv(lk, s, Then(Release(s, c, l), p, pc').s, c, p, s.procs[p].(pc := pc'));
  }

  /** A step that only changes p's record, with the same locks held. */
  lemma SetInv(lk: Locks, s: State, c: nat, p: nat, me': Proc)
    requires Current(lk, s, c, p) && p < |s.procs|
    requires forall x: nat :: Holds(lk, me'.pc, x) <==> Holds(lk, s.procs[p].pc, x)
    requires Count(lk, me'.pc) == Count(lk, s.procs[p].pc)
    requires SelfOk(lk, s, me', c)
    requires forall ch: nat :: Pending(s.procs[p].pc, ch) ==> Pending(me'.pc, ch)
    ensures Inv(lk, s.(procs := s.procs[p := me']))
  {
    CurrentFacts(lk, s, c, p);
    var s' := s.(procs := s.procs[p := me']);
    assert s'.cpus == s.cpus[c := Run(p, Count(lk, me'.pc))];
    OwnStepInv(lk, s, s', c, p, me');
  }

  /** Changing the condition of a channel whose lock p holds: to false, or to true with a wakeup pending. */
  lemma ValueInv(lk: Locks, s: State, c: nat, p: nat, ch: nat, v: nat, pc': Pc)
    requires Current(lk, s, c, p) && p < |s.procs| && ch < |lk|
    requires (s.procs[p].pc.Test? || s.procs[p].pc.Make?) && s.procs[p].pc.ch == ch
    requires if s.procs[p].pc.Test? then v <= s.value[ch] && pc' == Consumed(ch) else pc' == Made(ch)
    ensures Inv(lk, Goto(s.(value := s.value[ch := v]), p, pc'))
  {
    CurrentFacts(lk, s, c, p);
    var s' := Goto(s.(value := s.value[ch := v]), p, pc');
    forall q: nat | q < |s.procs| && q != p && InSleep(s'.procs[q]) && s'.procs[q].pc.ch < |s'.value|
      && s'.value[s'.procs[q].pc.ch] > 0
      ensures SomeoneWaking(s', s'.procs[q].pc.ch)
    {
      assert ProcInv(lk, s, q);
      if pc'.Made? && s'.procs[q].pc.ch == ch {
        assert Pending(s'.procs[p].pc, ch);
      } else {
        StillWaking(s, s', p, s'.procs[q].pc.ch);
      }
    }
    StayInv(lk, s, s', c, p);
  }

  /** With ptable.lock held, a process still marked SLEEPING has been switched out. */
  lemma SleeperIsOut(lk: Locks, s: State, c: nat, p: nat, q: nat)
    requires Current(lk, s, c, p) && p < |s.procs| && HoldsP(s.procs[p].pc) && q < |s.procs| && q != p
    requires s.procs[q].state == SLEEPING || InSleep(s.procs[q])
    ensures s.procs[q].pc.Asleep?
  {
    CurrentFacts(lk, s, c, p);
    assert Holds(lk, s.procs[p].pc, PTABLE);
    assert ProcInv(lk, s, q);
    if HoldsP(s.procs[q].pc) {
      assert Holds(lk, s.procs[q].pc, PTABLE);
    }
  }

  /** Making sleepers runnable under ptable.lock; a process whose wakeup is no longer pending
      leaves nobody asleep on that channel. */
  lemma RouseInv(lk: Locks, s: State, procs1: seq<Proc>, c: nat, p: nat, pc': Pc)
    requires Current(lk, s, c, p) && p < |s.procs| && HoldsP(s.procs[p].pc)
    requires |procs1| == |s.procs| && procs1[p] == s.procs[p]
    requires forall q: nat :: q < |s.procs| ==>
      procs1[q] == s.procs[q] || (s.procs[q].state == SLEEPING && procs1[q] == s.procs[q].(state := RUNNABLE))
    requires forall q: nat ::
      q < |s.procs| && q != p && procs1[q].pc.Asleep? && procs1[q].state == SLEEPING ==>
      !Pending(s.procs[p].pc, procs1[q].pc.ch)
    requires forall x: nat :: Holds(lk, pc', x) <==> Holds(lk, s.procs[p].pc, x)
    requires Count(lk, pc') == Count(lk, s.procs[p].pc)
    requires SelfOk(lk, s, s.procs[p].(pc := pc'), c) && !InSleep(s.procs[p].(pc := pc'))
    ensures Inv(lk, Goto(s.(procs := procs1), p, pc'))
  {
    CurrentFacts(lk, s, c, p);
    var s' := Goto(s.(procs := procs1), p, pc');
    forall q: nat | q < |s.procs| && q != p
      ensures s'.procs[q] == s.procs[q] || (s.procs[q].pc.Asleep? && s'.procs[q] == s.procs[q].(state := RUNNABLE))
    {
      if s.procs[q].state == SLEEPING { SleeperIsOut(lk, s, c, p, q); }
    }
    forall q: nat | q < |s.procs| && q != p && InSleep(s'.procs[q]) && s'.procs[q].pc.ch < |s'.value|
      && s'.value[s'.procs[q].pc.ch] > 0
      ensures SomeoneWaking(s', s'.procs[q].pc.ch)
    {
      assert ProcInv(lk, s, q);
      SleeperIsOut(lk, s, c, p, q);
      StillWaking(s, s', p, s'.procs[q].pc.ch);
    }
    StayInv(lk, s, s', c, p);
  }

  /** wakeup1 leaves nobody asleep on the channel. */
  lemma WakeInv(lk: Locks, s: State, c: nat, p: nat, ch: nat, pc': Pc)
    requires Current(lk, s, c, p) && p < |s.procs| && ch < |lk|
    requires s.procs[p].pc.Waking? && s.procs[p].pc.ch == ch
    requires pc' == if lk[ch] == PTABLE then MakeDrop(ch) else Woke(ch, s.procs[p].pc.held)
    ensures Inv(lk, Goto(s.(procs := Wake(s.procs, ch)), p, pc'))
  {
    CurrentFacts(lk, s, c, p);
    forall q: nat | q < |s.procs| && q != p && Wake(s.procs, ch)[q].pc.Asleep? && Wake(s.procs, ch)[q].state == SLEEPING
      ensures Wake(s.procs, ch)[q].pc.ch != ch
    {
      assert ProcInv(lk, s, q);
    }
    RouseInv(lk, s, Wake(s.procs, ch), c, p, pc');
  }

  /** kill makes a sleeper runnable. */
  lemma KillInv(lk: Locks, s: State, c: nat, p: nat, t: nat, procs1: seq<Proc>)
    requires Current(lk, s, c, p) && p < |s.procs| && t < |s.procs|
    requires s.procs[p].pc == Killing(t)
    requires procs1 == if s.procs[t].state == SLEEPING then s.procs[t := s.procs[t].(state := RUNNABLE)] else s.procs
    ensures Inv(lk, Goto(s.(procs := procs1), p, KillDone))
  {
    CurrentFacts(lk, s, c, p);
    RouseInv(lk, s, procs1, c, p, KillDone);
  }

  /** The switch from p to the scheduler of its CPU: ptable.lock passes to the scheduler. */
  lemma SwitchInv(lk: Locks, s: State, c: nat, p: nat, saved: Pc)
    requires Current(lk, s, c, p) && p < |s.procs|
    requires (s.procs[p].pc.SleepSched? && saved == Asleep(s.procs[p].pc.ch))
      || (s.procs[p].pc.YieldSched? && saved == Yielded)
             || (s.procs[p].pc.ExitSched? && saved == Dead)
    ensures SwitchOut(s, c, p, saved).To? && Inv(lk, SwitchOut(s, c, p, saved).s)
  {
    CurrentFacts(lk, s, c, p);
    assert Holds(lk, s.procs[p].pc, PTABLE);
    var s' := SwitchOut(s, c, p, saved).s;
    forall q: nat | q < |s.procs| && InSleep(s'.procs[q]) && s'.procs[q].pc.ch < |s'.value|
      && s'.value[s'.procs[q].pc.ch] > 0
      ensures SomeoneWaking(s', s'.procs[q].pc.ch)
    {
      assert ProcInv(lk, s, q);
      StillWaking(s, s', p, s'.procs[q].pc.ch);
    }
    Assemble(lk, s, s', c, p);
  }

  /** No step of a running process panics, and every one keeps the invariant. */
  ghost predicate Keeps(lk: Locks, o: Outcome)
  {
    match o
    case Blocked => true
    case Panic => false
    case To(s) => Inv(lk, s)
  }

  lemma IdleInv(lk: Locks, s: State, c: nat, p: nat, choice: Choice)
    requires Shape(lk, s) && Current(lk, s, c, p) && p < |s.procs| && PcOk(lk, s, s.procs[p].pc)
    requires var pc := s.procs[p].pc; pc.Idle?
    ensures Keeps(lk, RunProc(lk, s, c, p, choice))
  {
    hide Inv, Current, Acquire, Release, Then, SwitchOut, Wake;
    CurrentFacts(lk, s, c, p);
    match choice
    case Consume(ch) => if ch < |lk| { SetInv(lk, s, c, p, s.procs[p].(pc := WantLk(ch))); }
    case Produce(ch) => if ch < |lk| { SetInv(lk, s, c, p, s.procs[p].(pc := MakeWant(ch))); }
    case Yield => SetInv(lk, s, c, p, s.procs[p].(pc := YieldWant));
    case Exit => SetInv(lk, s, c, p, s.procs[p].(pc := ExitWant));
    case Kill(t) => if t < |s.procs| { SetInv(lk, s, c, p, s.procs[p].(pc := KillWant(t))); }
    case _ =>
  }

  lemma ConsumerInv(lk: Locks, s: State, c: nat, p: nat, choice: Choice)
    requires Shape(lk, s) && Current(lk, s, c, p) && p < |s.procs| && PcOk(lk, s, s.procs[p].pc)
    requires var pc := s.procs[p].pc; pc.WantLk? || pc.Test? || pc.Consumed?
    ensures Keeps(lk, RunProc(lk, s, c, p, choice))
  {
    hide Inv, Current, Acquire, Release, Then, SwitchOut, Wake;
    CurrentFacts(lk, s, c, p);
    match s.procs[p].pc
    case WantLk(ch) => AcquireInv(lk, s, c, p, lk[ch], Test(ch));
    case Test(ch) =>
      if s.value[ch] > 0 { ValueInv(lk, s, c, p, ch, s.value[ch] - 1, Consumed(ch)); }
      else { SetInv(lk, s, c, p, s.procs[p].(pc := if lk[ch] == PTABLE then SleepSet(ch) else SleepWant(ch))); }
    case Consumed(ch) => ReleaseInv(lk, s, c, p, lk[ch], Idle);
  }

  lemma SleeperInv(lk: Locks, s: State, c: nat, p: nat, choice: Choice)
    requires Shape(lk, s) && Current(lk, s, c, p) && p < |s.procs| && PcOk(lk, s, s.procs[p].pc)
    requires var pc := s.procs[p].pc; pc.SleepWant? || pc.SleepDrop? || pc.SleepSched? || pc.Relock?
    ensures Keeps(lk, RunProc(lk, s, c, p, choice))
  {
    hide Inv, Current, Acquire, Release, Then, SwitchOut, Wake;
    CurrentFacts(lk, s, c, p);
    match s.procs[p].pc
    case SleepWant(ch) => AcquireInv(lk, s, c, p, PTABLE, SleepDrop(ch));
    case SleepDrop(ch) => ReleaseInv(lk, s, c, p, lk[ch], SleepSet(ch));
    case SleepSched(ch) => SwitchInv(lk, s, c, p, Asleep(ch));
    case Relock(ch) => AcquireInv(lk, s, c, p, lk[ch], Test(ch));
  }

  lemma ProducerInv(lk: Locks, s: State, c: nat, p: nat, choice: Choice)
    requires Shape(lk, s) && Current(lk, s, c, p) && p < |s.procs| && PcOk(lk, s, s.procs[p].pc)
    requires var pc := s.procs[p].pc; pc.MakeWant? || pc.Make? || pc.Made? || pc.MakeDrop?
    ensures Keeps(lk, RunProc(lk, s, c, p, choice))
  {
    hide Inv, Current, Acquire, Release, Then, SwitchOut, Wake;
    CurrentFacts(lk, s, c, p);
    match s.procs[p].pc
    case MakeWant(ch) => AcquireInv(lk, s, c, p, lk[ch], Make(ch));
    case Make(ch) => ValueInv(lk, s, c, p, ch, s.value[ch] + 1, Made(ch));
    case Made(ch) =>
      if lk[ch] == PTABLE { SetInv(lk, s, c, p, s.procs[p].(pc := Waking(ch, true))); }
      else if choice == Late { ReleaseInv(lk, s, c, p, lk[ch], WakeWant(ch, false)); }
      else { SetInv(lk, s, c, p, s.procs[p].(pc := WakeWant(ch, true))); }
    case MakeDrop(ch) => ReleaseInv(lk, s, c, p, lk[ch], Idle);
  }

  lemma WakerInv(lk: Locks, s: State, c: nat, p: nat, choice: Choice)
    requires Shape(lk, s) && Current(lk, s, c, p) && p < |s.procs| && PcOk(lk, s, s.procs[p].pc)
    requires var pc := s.procs[p].pc; pc.WakeWant? || pc.Waking? || pc.Woke?
    ensures Keeps(lk, RunProc(lk, s, c, p, choice))
  {
    hide Inv, Current, Acquire, Release, Then, SwitchOut, Wake;
    CurrentFacts(lk, s, c, p);
    match s.procs[p].pc
    case WakeWant(ch, h) => AcquireInv(lk, s, c, p, PTABLE, Waking(ch, h));
    case Waking(ch, h) => WakeInv(lk, s, c, p, ch, if lk[ch] == PTABLE then MakeDrop(ch) else Woke(ch, h));
    case Woke(ch, h) => ReleaseInv(lk, s, c, p, PTABLE, if h then MakeDrop(ch) else Idle);
  }

  lemma YieldInv(lk: Locks, s: State, c: nat, p: nat, choice: Choice)
    requires Shape(lk, s) && Current(lk, s, c, p) && p < |s.procs| && PcOk(lk, s, s.procs[p].pc)
    requires var pc := s.procs[p].pc; pc.YieldWant? || pc.YieldSched? || pc.Resumed? || pc.ExitWant? || pc.ExitSched?
    ensures Keeps(lk, RunProc(lk, s, c, p, choice))
  {
    hide Inv, Current, Acquire, Release, Then, SwitchOut, Wake;
    CurrentFacts(lk, s, c, p);
    match s.procs[p].pc
    case YieldWant => AcquireInv(lk, s, c, p, PTABLE, YieldSet);
    case YieldSched => SwitchInv(lk, s, c, p, Yielded);
    case Resumed => ReleaseInv(lk, s, c, p, PTABLE, Idle);
    case ExitWant => AcquireInv(lk, s, c, p, PTABLE, ExitSet);
    case ExitSched => SwitchInv(lk, s, c, p, Dead);
  }

  lemma KillerInv(lk: Locks, s: State, c: nat, p: nat, choice: Choice)
    requires Shape(lk, s) && Current(lk, s, c, p) && p < |s.procs| && PcOk(lk, s, s.procs[p].pc)
    requires var pc := s.procs[p].pc; pc.KillWant? || pc.Killing? || pc.KillDone?
    ensures Keeps(lk, RunProc(lk, s, c, p, choice))
  {
    hide Inv, Current, Acquire, Release, Then, SwitchOut, Wake;
    CurrentFacts(lk, s, c, p);
    match s.procs[p].pc
    case KillWant(t) => AcquireInv(lk, s, c, p, PTABLE, Killing(t));
    case Killing(t) =>
      KillInv(lk, s, c, p, t, if s.procs[t].state == SLEEPING then
        s.procs[t := s.procs[t].(state := RUNNABLE)] else s.procs);
    case KillDone => ReleaseInv(lk, s, c, p, PTABLE, Idle);
  }

  lemma StateInv(lk: Locks, s: State, c: nat, p: nat, choice: Choice)
    requires Shape(lk, s) && Current(lk, s, c, p) && p < |s.procs| && PcOk(lk, s, s.procs[p].pc)
    requires var pc := s.procs[p].pc; pc.SleepSet? || pc.YieldSet? || pc.ExitSet?
    ensures Keeps(lk, RunProc(lk, s, c, p, choice))
  {
    hide Inv, Current, Acquire, Release, Then, SwitchOut, Wake;
    CurrentFacts(lk, s, c, p);
    var me := s.procs[p];
    match me.pc
    case SleepSet(ch) => SetInv(lk, s, c, p, me.(state := SLEEPING, chan := ch, pc := SleepSched(ch)));
    case YieldSet => SetInv(lk, s, c, p, me.(state := RUNNABLE, pc := YieldSched));
    case ExitSet => SetInv(lk, s, c, p, me.(state := ZOMBIE, pc := ExitSched));
  }

  lemma WokenInv(lk: Locks, s: State, c: nat, p: nat, choice: Choice)
    requires Shape(lk, s) && Current(lk, s, c, p) && p < |s.procs| && PcOk(lk, s, s.procs[p].pc)
    requires s.procs[p].pc.Woken?
    ensures Keeps(lk, RunProc(lk, s, c, p, choice))
  {
    hide Inv, Acquire, Release, Then, SwitchOut, Wake;
    CurrentFacts(lk, s, c, p);
    var me, ch := s.procs[p], s.procs[p].pc.ch;
    var s1 := s.(procs := s.procs[p := me.(chan := -1)]);
    if lk[ch] == PTABLE {
      SetInv(lk, s, c, p, me.(chan := -1, pc := Test(ch)));
      assert Goto(s1, p, Test(ch)).procs == s.procs[p := me.(chan := -1, pc := Test(ch))];
    } else {
      SetInv(lk, s, c, p, me.(chan := -1));
      CurrentFacts(lk, s1, c, p);
      ReleaseInv(lk, s1, c, p, PTABLE, Relock(ch));
    }
  }

  // ---------- the scheduler ----------

  lemma SchedLockInv(lk: Locks, s: State, c: nat)
    requires Inv(lk, s) && c < |s.cpus|
    ensures Keeps(lk, Next(lk, s, SchedLock(c)))
  {
    assert CpuInv(s, c) && LockInv(lk, s, PTABLE);
    var o := Next(lk, s, SchedLock(c));
    if o.To? {
      forall q: nat | q < |s.procs| ensures ProcInv(lk, o.s, q) { assert ProcInv(lk, s, q); }
      forall d: nat | d < |s.cpus| ensures CpuInv(o.s, d) { assert CpuInv(s, d); }
      forall l: nat | l < |s.owner| ensures LockInv(lk, o.s, l) { assert LockInv(lk, s, l); }
    }
  }

  lemma SchedUnlockInv(lk: Locks, s: State, c: nat)
    requires Inv(lk, s) && c < |s.cpus|
    ensures Keeps(lk, Next(lk, s, SchedUnlock(c)))
  {
    assert CpuInv(s, c) && LockInv(lk, s, PTABLE);
    var o := Next(lk, s, SchedUnlock(c));
    if o.To? {
      forall q: nat | q < |s.procs| ensures ProcInv(lk, o.s, q) { assert ProcInv(lk, s, q); }
      forall d: nat | d < |s.cpus| ensures CpuInv(o.s, d) { assert CpuInv(s, d); }
      forall l: nat | l < |s.owner| ensures LockInv(lk, o.s, l) { assert LockInv(lk, s, l); }
    }
  }

  /** The switch from the scheduler to p: ptable.lock passes from the scheduler to p. */
  lemma SchedPickInv(lk: Locks, s: State, c: nat, p: nat)
    requires Inv(lk, s) && c < |s.cpus|
    ensures Keeps(lk, Next(lk, s, SchedPick(c, p)))
  {
    assert CpuInv(s, c);
    var o := Next(lk, s, SchedPick(c, p));
    if o.To? {
      var s' := o.s;
      assert ProcInv(lk, s, p);
      assert Out(s.procs[p].pc) by {
        if s.procs[p].pc.YieldSched? { assert Holds(lk, s.procs[p].pc, PTABLE); }
      }
      forall q: nat | q < |s.procs| && q != p && InSleep(s'.procs[q]) && s'.procs[q].pc.ch < |s'.value|
        && s'.value[s'.procs[q].pc.ch] > 0
        ensures SomeoneWaking(s', s'.procs[q].pc.ch)
      {
        assert ProcInv(lk, s, q);
        StillWaking(s, s', p, s'.procs[q].pc.ch);
      }
      forall l: nat | l < |s.owner| && s.owner[l] == c ensures l == PTABLE { assert LockInv(lk, s, l); }
      Assemble(lk, s, s', c, p);
    }
  }

  // ---------- every run ----------

  lemma RunInv(lk: Locks, s: State, c: nat, p: nat, choice: Choice)
    requires WellFormed(lk, s) && Current(lk, s, c, p) && p < |s.procs|
    ensures Keeps(lk, RunProc(lk, s, c, p, choice))
  {
    hide RunProc, Keeps;
    CurrentFacts(lk, s, c, p);
    match s.procs[p].pc
    case Idle => IdleInv(lk, s, c, p, choice);
    case WantLk(_) => ConsumerInv(lk, s, c, p, choice);
    case Test(_) => ConsumerInv(lk, s, c, p, choice);
    case Consumed(_) => ConsumerInv(lk, s, c, p, choice);
    case SleepWant(_) => SleeperInv(lk, s, c, p, choice);
    case SleepDrop(_) => SleeperInv(lk, s, c, p, choice);
    case SleepSched(_) => SleeperInv(lk, s, c, p, choice);
    case Relock(_) => SleeperInv(lk, s, c, p, choice);
    case Woken(_) => WokenInv(lk, s, c, p, choice);
    case SleepSet(_) => StateInv(lk, s, c, p, choice);
    case YieldSet => StateInv(lk, s, c, p, choice);
    case ExitSet => StateInv(lk, s, c, p, choice);
    case MakeWant(_) => ProducerInv(lk, s, c, p, choice);
    case Make(_) => ProducerInv(lk, s, c, p, choice);
    case Made(_) => ProducerInv(lk, s, c, p, choice);
    case MakeDrop(_) => ProducerInv(lk, s, c, p, choice);
    case WakeWant(_, _) => WakerInv(lk, s, c, p, choice);
    case Waking(_, _) => WakerInv(lk, s, c, p, choice);
    case Woke(_, _) => WakerInv(lk, s, c, p, choice);
    case KillWant(_) => KillerInv(lk, s, c, p, choice);
    case Killing(_) => KillerInv(lk, s, c, p, choice);
    case KillDone => KillerInv(lk, s, c, p, choice);
    case _ => YieldInv(lk, s, c, p, choice);
  }

  /** No step panics, and every step keeps the invariant. */
  lemma StepInv(lk: Locks, s: State, step: Step)
    requires Inv(lk, s)
    ensures Keeps(lk, Next(lk, s, step))
  {
    hide ProcInv, CpuInv, LockInv, RunProc;
    if step.c < |s.cpus| {
      match step
      case ProcStep(c, choice) => if s.cpus[c].Run? && s.cpus[c].p < |s.procs| {
        RunInv(lk, s, c, s.cpus[c].p, choice); }
      case SchedLock(c) => SchedLockInv(lk, s, c);
      case SchedPick(c, p) => SchedPickInv(lk, s, c, p);
      case SchedUnlock(c) => SchedUnlockInv(lk, s, c);
    }
  }

  /** Every process created and runnable, every CPU entering its scheduler loop, every lock free. */
  predicate Initial(lk: Locks, s: State)
  {
    && Shape(lk, s)
    && (forall p :: 0 <= p < |s.procs| ==> s.procs[p].state == RUNNABLE && s.procs[p].pc == Yielded)
    && (forall c :: 0 <= c < |s.cpus| ==> s.cpus[c] == Sched(false, 0))
    && (forall l :: 0 <= l < |s.owner| ==> s.owner[l] == -1)
  }

  /** The states of a run: each step goes on from the one before, or waits for a lock. */
  ghost predicate IsRun(lk: Locks, run: seq<State>, steps: seq<Step>)
  {
    && |run| == |steps| + 1 && Initial(lk, run[0])
    && forall i :: 0 <= i < |steps| ==> WellFormed(lk, run[i]) && Follows(lk, run[i], steps[i], run[i + 1])
  }

  ghost predicate Follows(lk: Locks, s: State, step: Step, s': State)
    requires WellFormed(lk, s)
  {
    match Next(lk, s, step)
    case To(t) => s' == t
    case Blocked => s' == s
    case Panic => true
  }

  lemma {:induction false} RunKeepsInv(lk: Locks, run: seq<State>, steps: seq<Step>, i: nat)
    requires IsRun(lk, run, steps) && i < |run|
    ensures Inv(lk, run[i])
  {
    if i > 0 {
      RunKeepsInv(lk, run, steps, i - 1);
      StepInv(lk, run[i - 1], steps[i - 1]);
      assert Follows(lk, run[i - 1], steps[i - 1], run[i]);
    }
  }

  /** No lost wakeup: in every state of every run, a process asleep on a channel whose condition
      is true is there only while some process that made it true has yet to call wakeup1. */
  lemma NoLostWakeup(lk: Locks, run: seq<State>, steps: seq<Step>, i: nat, p: nat)
    requires IsRun(lk, run, steps) && i < |run| && p < |run[i].procs|
    requires run[i].procs[p].state == SLEEPING
    ensures 0 <= run[i].procs[p].chan < |run[i].value|
    ensures run[i].value[run[i].procs[p].chan] > 0 ==> SomeoneWaking(run[i], run[i].procs[p].chan)
  {
    RunKeepsInv(lk, run, steps, i);
    assert ProcInv(lk, run[i], p);
  }

  predicate NobodyAsleep(s: State, ch: nat)
  {
    forall q :: 0 <= q < |s.procs| && s.procs[q].state == SLEEPING ==> s.procs[q].chan != ch
  }

  /** When that process runs wakeup1, nobody stays asleep on the channel. */
  lemma WakeupWakes(lk: Locks, run: seq<State>, steps: seq<Step>, i: nat, c: nat, p: nat, choice: Choice)
    requires IsRun(lk, run, steps) && i < |steps| && steps[i] == ProcStep(c, choice)
    requires c < |run[i].cpus| && run[i].cpus[c].Run? && run[i].cpus[c].p == p < |run[i].procs|
      && run[i].procs[p].pc.Waking?
    ensures NobodyAsleep(run[i + 1], run[i].procs[p].pc.ch)
  {
    RunKeepsInv(lk, run, steps, i);
    CurrentFacts(lk, run[i], c, p);
    assert Follows(lk, run[i], steps[i], run[i + 1]);
  }

  /** No step of any run reaches a panic of acquire, release, popcli or sched. */
  lemma NeverPanics(lk: Locks, run: seq<State>, steps: seq<Step>, i: nat)
    requires IsRun(lk, run, steps) && i < |steps|
    ensures !Next(lk, run[i], steps[i]).Panic?
  {
    RunKeepsInv(lk, run, steps, i);
    StepInv(lk, run[i], steps[i]);
  }

  /** The process or the scheduler that CPU c is running holds lock l. */
  predicate ContextHolds(lk: Locks, s: State, c: nat, l: nat)
  {
    c < |s.cpus| && CpuHolds(lk, s, c, l)
  }

  /** c owns lock l, and no other context holds it. */
  ghost predicate SoleHolder(lk: Locks, s: State, c: nat, l: nat)
  {
    && l < |s.owner| && s.owner[l] == c && ContextHolds(lk, s, c, l)
    && forall d: nat :: ContextHolds(lk, s, d, l) ==> d == c
  }

  lemma OwnerHolds(lk: Locks, s: State, l: nat, c: nat)
    requires Inv(lk, s) && l < |s.owner| && c < |s.cpus|
    ensures s.owner[l] == c <==> ContextHolds(lk, s, c, l)
  {
    assert CpuInv(s, c) && LockInv(lk, s, l);
    if s.cpus[c].Run? {
      CurrentFacts(lk, s, c, s.cpus[c].p);
    }
  }

  /** Every lock that is held, in every state of every run, is held by exactly one context, on the CPU it names. */
  lemma OneOwner(lk: Locks, run: seq<State>, steps: seq<Step>, i: nat, l: nat)
    requires IsRun(lk, run, steps) && i < |run| && l < |run[i].owner|
    ensures if run[i].owner[l] == -1 then forall c: nat :: !ContextHolds(lk, run[i], c, l)
            else run[i].owner[l] >= 0 && SoleHolder(lk, run[i], run[i].owner[l], l)
  {
    RunKeepsInv(lk, run, steps, i);
    assert LockInv(lk, run[i], l);
    forall c: nat | c < |run[i].cpus| ensures run[i].owner[l] == c <==> ContextHolds(lk, run[i], c, l) {
      OwnerHolds(lk, run[i], l, c);
    }
  }

  /** Only CPU c changes, and it goes to its scheduler only with ptable.lock held on both sides. */
  predicate CpuStep(s: State, s': State, c: nat)
    requires c < |s.cpus| && |s.owner| > 0
  {
    && |s'.cpus| == |s.cpus| && |s'.owner| == |s.owner|
       && (forall d: nat :: d < |s.cpus| && d != c ==> s'.cpus[d] == s.cpus[d])
    && (s'.cpus[c].Sched? ==> s.owner[PTABLE] == c && s'.owner[PTABLE] == c)
  }

  lemma LockSteps(s: State, c: nat, p: nat, l: nat, pc': Pc)
    requires c < |s.cpus| && s.cpus[c].Run? && l < |s.owner|
    ensures Then(Acquire(s, c, l), p, pc').To? ==> CpuStep(s, Then(Acquire(s, c, l), p, pc').s, c)
    ensures Then(Release(s, c, l), p, pc').To? ==> CpuStep(s, Then(Release(s, c, l), p, pc').s, c)
  {
  }

  lemma ProcSwitch(lk: Locks, s: State, c: nat, p: nat, choice: Choice)
    requires WellFormed(lk, s) && c < |s.cpus| && s.cpus[c].Run? && p < |s.procs|
    requires RunProc(lk, s, c, p, choice).To?
    ensures CpuStep(s, RunProc(lk, s, c, p, choice).s, c)
  {
    hide Acquire, Release, Then, Wake;
    forall l: nat, pc' | l < |s.owner|
      ensures Then(Acquire(s, c, l), p, pc').To? ==> CpuStep(s, Then(Acquire(s, c, l), p, pc').s, c)
      ensures Then(Release(s, c, l), p, pc').To? ==> CpuStep(s, Then(Release(s, c, l), p, pc').s, c)
    {
      LockSteps(s, c, p, l, pc');
    }
    if s.procs[p].pc.Woken? {
      LockSteps(s.(procs := s.procs[p := s.procs[p].(chan := -1)]), c, p, PTABLE, Relock(s.procs[p].pc.ch));
    }
  }

  /** Across each switch between a process and a scheduler, in either direction, the CPU that
      switches is the one owner of ptable.lock before and after. */
  lemma HandOff(lk: Locks, run: seq<State>, steps: seq<Step>, i: nat, c: nat)
    requires IsRun(lk, run, steps) && i < |steps| && c < |run[i].cpus| && c < |run[i + 1].cpus|
    requires run[i].cpus[c].Run? != run[i + 1].cpus[c].Run?
    ensures SoleHolder(lk, run[i], c, PTABLE) && SoleHolder(lk, run[i + 1], c, PTABLE)
  {
    var s, s' := run[i], run[i + 1];
    RunKeepsInv(lk, run, steps, i);
    NeverPanics(lk, run, steps, i);
    assert Follows(lk, s, steps[i], s');
    SwitchHolds(lk, s, s', steps[i], c);
    OneOwner(lk, run, steps, i, PTABLE);
    OneOwner(lk, run, steps, i + 1, PTABLE);
  }

  lemma SwitchHolds(lk: Locks, s: State, s': State, step: Step, c: nat)
    requires Inv(lk, s) && Next(lk, s, step) == To(s') && c < |s.cpus| && c < |s'.cpus|
      && s.cpus[c].Run? != s'.cpus[c].Run?
    ensures |s'.owner| == |s.owner| && s.owner[PTABLE] == c && s'.owner[PTABLE] == c
  {
    hide RunProc;
    assert CpuInv(s, c);
    if step.ProcStep? {
      ProcSwitch(lk, s, step.c, s.cpus[step.c].p, step.choice);
    }
  }
}
