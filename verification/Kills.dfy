/** Whom `kill` marks (proc.c): it looks at pids and not at states, and allocproc leaves `killed` as
    it finds it. */
module Kills {
  import opened ExitWait

  /** The slot `kill` marks, or the size of the table. */
  function Victim(t: Table, pid: int): nat { First(t.procs, (q: Proc) => q.pid == pid, 0) }

  /** The slot allocproc takes, or the size of the table. */
  function Vacant(t: Table): nat { First(t.procs, (q: Proc) => q.state == UNUSED, 0) }

  /** The pids of processes that this step kills by name. */
  function Names(t: Table, op: Op): set<int>
  {
    if op.Kill? && Victim(t, op.pid) < |t.procs| && t.procs[Victim(t, op.pid)].state != UNUSED then {op.pid} else {}
  }

  /** Fork takes a slot that is marked killed already. */
  predicate TakesMarked(t: Table, op: Op)
  {
    op.Alloc? && InUser(t, op.p) && Vacant(t) < |t.procs| && t.procs[Vacant(t)].killed
  }

  /** An unused slot is marked: kill found its pid, 0 or that of a failed fork; or fork failed after
      kill had named its embryo. */
  predicate Strays(t: Table, op: Op)
  {
    || (op.Kill? && Victim(t, op.pid) < |t.procs| && t.procs[Victim(t, op.pid)].state == UNUSED)
    || (op.ForkFail? && Running(t, op.p, false) && t.procs[t.procs[op.p].pc.np].killed)
  }

  predicate DeservedAt(q: Proc, named: set<int>)
  {
    q.state != UNUSED && q.killed ==> q.pid in named
  }

  /** Every process marked killed was named by a kill. */
  predicate Deserved(t: Table, named: set<int>)
  {
    forall i: nat :: i < |t.procs| ==> DeservedAt(t.procs[i], named)
  }

  predicate Unmarked(q: Proc) { q.state == UNUSED ==> !q.killed }

  predicate NoneMarked(t: Table)
  {
    forall i: nat :: i < |t.procs| ==> Unmarked(t.procs[i])
  }

  /** Only pids already given out. */
  predicate GivenOut(t: Table, named: set<int>)
  {
    forall x :: x in named ==> x < t.nextpid
  }

  /** A step other than kill, allocproc and a failed fork changes no pid and marks nobody, and a slot
      it empties is not marked. */
  predicate Calm(q: Proc, q': Proc)
  {
    && (q'.state == UNUSED && q'.killed ==> q.state == UNUSED && q.killed)
    && (q'.state != UNUSED ==> q.state != UNUSED && q'.pid == q.pid && q'.killed == q.killed)
  }

  lemma CalmStep(t: Table, op: Op, i: nat)
    requires Inv(t) && i < |t.procs| && !op.Kill? && !op.Alloc? && !op.ForkFail?
    ensures |Apply(t, op).procs| == |t.procs| && Calm(t.procs[i], Apply(t, op).procs[i])
    ensures Apply(t, op).nextpid == t.nextpid
  {
    hide Inv, WaitSpec, ExitSpec, Calm;
    match op
    case Exit(p) =>
      if InUser(t, p) && p != t.init { CalmExit(t, p, i); } else { CalmSelf(t.procs[i]); }
    case Wait(p) =>
      if InUser(t, p) { CalmWait(t, p, i); } else { CalmSelf(t.procs[i]); }
    case Pick(p) => CalmPick(t, p, i);
    case _ => CalmOther(t, op, i);
  }

  lemma CalmSelf(q: Proc)
    ensures Calm(q, q)
  {
  }

  lemma CalmExit(t: Table, p: nat, i: nat)
    requires InUser(t, p) && i < |t.procs|
    ensures Calm(t.procs[i], ExitSpec(t, p).procs[i]) && ExitSpec(t, p).nextpid == t.nextpid
  {
    hide Wake, Adopt;
    assert Wake(t.procs, OnProc(t.procs[p].parent))[i] == WakeOne(t.procs[i], OnProc(t.procs[p].parent));
  }

  lemma CalmPick(t: Table, p: nat, i: nat)
    requires i < |t.procs|
    ensures |Apply(t, Pick(p)).procs| == |t.procs| && Calm(t.procs[i], Apply(t, Pick(p)).procs[i])
    ensures Apply(t, Pick(p)).nextpid == t.nextpid
  {
    hide WaitSpec;
    if p < |t.procs| && t.procs[p].state == RUNNABLE && t.procs[p].pc == Waiting {
      CalmWait(t.(procs := t.procs[p := t.procs[p].(state := RUNNING, chan := NoChan, pc := User)]), p, i);
    }
  }

  lemma CalmOther(t: Table, op: Op, i: nat)
    requires Inv(t) && i < |t.procs| && (op.ForkLink? || op.ForkRun? || op.Yield? || op.SleepOn? || op.WakeOn?)
    ensures |Apply(t, op).procs| == |t.procs| && Calm(t.procs[i], Apply(t, op).procs[i])
    ensures Apply(t, op).nextpid == t.nextpid
  {
    hide Inv;
    if op.ForkRun? && Running(t, op.p, true) { InvSlot(t, op.p); }
  }

  lemma CalmWait(t: Table, p: nat, i: nat)
    requires p < |t.procs| && i < |t.procs| && t.procs[p].state == RUNNING
    ensures |WaitSpec(t, p).procs| == |t.procs| && Calm(t.procs[i], WaitSpec(t, p).procs[i])
    ensures WaitSpec(t, p).nextpid == t.nextpid
  {
  }

  /** Named pids are pids given out before. */
  lemma StepGiven(t: Table, op: Op, named: set<int>)
    requires Inv(t) && Pids(t) && GivenOut(t, named)
    ensures GivenOut(Apply(t, op), named + Names(t, op))
  {
    if op.Kill? {
      if Names(t, op) != {} { assert PidOk(t, Victim(t, op.pid)); }
    } else if !op.Alloc? && !op.ForkFail? {
      CalmStep(t, op, t.init);
    }
  }

  /** A step from a table where every mark was named: it stays so exactly if fork takes no marked slot. */
  lemma StepDeserved(t: Table, op: Op, named: set<int>)
    requires Inv(t) && Pids(t) && GivenOut(t, named) && Deserved(t, named)
    ensures Deserved(Apply(t, op), named + Names(t, op)) <==> !TakesMarked(t, op)
  {
    hide Inv, Pids;
    var t', named' := Apply(t, op), named + Names(t, op);
    if TakesMarked(t, op) {
      assert t'.procs[Vacant(t)].pid == t.nextpid && t.nextpid !in named;
      assert !DeservedAt(t'.procs[Vacant(t)], named');
    } else {
      forall i: nat | i < |t'.procs| ensures DeservedAt(t'.procs[i], named') { SlotDeserved(t, op, named, i); }
    }
  }

  lemma SlotDeserved(t: Table, op: Op, named: set<int>, i: nat)
    requires Inv(t) && Deserved(t, named) && !TakesMarked(t, op) && i < |Apply(t, op).procs|
    ensures DeservedAt(Apply(t, op).procs[i], named + Names(t, op))
  {
    if !op.Kill? && !op.Alloc? && !op.ForkFail? { CalmSize(t, op); }
    assert i < |t.procs| && DeservedAt(t.procs[i], named);
    if !op.Kill? && !op.Alloc? && !op.ForkFail? { CalmStep(t, op, i); }
  }

  lemma CalmSize(t: Table, op: Op)
    requires Inv(t) && !op.Kill? && !op.Alloc? && !op.ForkFail?
    ensures |Apply(t, op).procs| == |t.procs|
  {
    CalmStep(t, op, t.init);
  }

  /** Marks on unused slots come from stray kills and failed forks alone. */
  lemma StepUnmarked(t: Table, op: Op)
    requires Inv(t) && NoneMarked(t)
    ensures NoneMarked(Apply(t, op)) <==> !Strays(t, op)
  {
    var t' := Apply(t, op);
    if Strays(t, op) {
      if op.Kill? { assert !Unmarked(t'.procs[Victim(t, op.pid)]); }
      else { InvSlot(t, op.p); assert !Unmarked(t'.procs[t.procs[op.p].pc.np]); }
    } else {
      forall i: nat | i < |t'.procs| ensures Unmarked(t'.procs[i]) { SlotUnmarked(t, op, i); }
    }
  }

  lemma SlotUnmarked(t: Table, op: Op, i: nat)
    requires Inv(t) && NoneMarked(t) && !Strays(t, op) && i < |Apply(t, op).procs|
    ensures Unmarked(Apply(t, op).procs[i])
  {
    if !op.Kill? && !op.Alloc? && !op.ForkFail? { CalmSize(t, op); }
    assert i < |t.procs| && Unmarked(t.procs[i]);
    if !op.Kill? && !op.Alloc? && !op.ForkFail? { CalmStep(t, op, i); }
  }

  // ---------- every run ----------

  /** The table after the first n operations. */
  function At(t: Table, ops: seq<Op>, n: nat): Table
    requires n <= |ops|
  {
    if n == 0 then t else Apply(At(t, ops, n - 1), ops[n - 1])
  }

  /** The pids killed by name in the first n operations. */
  function Named(t: Table, ops: seq<Op>, n: nat): set<int>
    requires n <= |ops|
  {
    if n == 0 then {} else Named(t, ops, n - 1) + Names(At(t, ops, n - 1), ops[n - 1])
  }

  lemma {:induction false} RunAt(t: Table, ops: seq<Op>, n: nat)
    requires n <= |ops|
    ensures At(t, ops, n) == Run(t, ops[..n])
  {
    hide Apply;
    if n == 0 {
      assert ops[..0] == [];
    } else {
      RunAt(t, ops, n - 1);
      RunLast(t, ops[..n]);
      assert ops[..n][..n - 1] == ops[..n - 1];
    }
  }

  lemma {:induction false} RunLast(t: Table, ops: seq<Op>)
    requires ops != []
    ensures Run(t, ops) == Apply(Run(t, ops[..|ops| - 1]), ops[|ops| - 1])
    decreases |ops|
  {
    hide Apply;
    if |ops| == 1 {
      assert ops[..0] == [] && ops[1..] == [];
    } else {
      RunLast(Apply(t, ops[0]), ops[1..]);
      assert ops[1..][..|ops| - 2] == ops[..|ops| - 1][1..];
    }
  }

  lemma {:induction false} AlwaysInv(t: Table, ops: seq<Op>, n: nat)
    requires Initial(t) && n <= |ops|
    ensures Inv(At(t, ops, n)) && Pids(At(t, ops, n)) && GivenOut(At(t, ops, n), Named(t, ops, n))
  {
    if n == 0 {
      assert Inv(t) && Pids(t);
    } else {
      AlwaysInv(t, ops, n - 1);
      hide Inv, Pids, GivenOut, Apply, Names;
      StepKeeps(At(t, ops, n - 1), ops[n - 1]);
      StepPids(At(t, ops, n - 1), ops[n - 1]);
      StepGiven(At(t, ops, n - 1), ops[n - 1], Named(t, ops, n - 1));
    }
  }

  lemma {:induction false} DeservedSoFar(t: Table, ops: seq<Op>, n: nat)
    requires Initial(t) && n <= |ops|
    requires forall k: nat :: k < n ==> !TakesMarked(At(t, ops, k), ops[k])
    ensures Deserved(At(t, ops, n), Named(t, ops, n))
  {
    hide Inv, Pids, GivenOut, Apply, Names, TakesMarked;
    if n == 0 {
      forall i: nat | i < |t.procs| ensures DeservedAt(t.procs[i], {}) {}
    } else {
      DeservedSoFar(t, ops, n - 1);
      AlwaysInv(t, ops, n - 1);
      StepDeserved(At(t, ops, n - 1), ops[n - 1], Named(t, ops, n - 1));
    }
  }

  /** In every state of the run, each process marked killed was killed by its own pid. */
  predicate AllByName(t: Table, ops: seq<Op>)
  {
    forall n: nat :: n <= |ops| ==> Deserved(At(t, ops, n), Named(t, ops, n))
  }

  /** No fork of the run takes a slot marked before. */
  predicate AllUnmarked(t: Table, ops: seq<Op>)
  {
    forall k: nat :: k < |ops| ==> !TakesMarked(At(t, ops, k), ops[k])
  }

  /** In every run these two agree. */
  lemma KilledByName(t: Table, ops: seq<Op>)
    requires Initial(t)
    ensures AllByName(t, ops) <==> AllUnmarked(t, ops)
  {
    hide Deserved, TakesMarked, Inv, Pids, GivenOut, Apply, Names;
    if AllUnmarked(t, ops) {
      forall n: nat | n <= |ops| ensures Deserved(At(t, ops, n), Named(t, ops, n)) { DeservedSoFar(t, ops, n); }
    }
    if AllByName(t, ops) {
      forall k: nat | k < |ops| ensures !TakesMarked(At(t, ops, k), ops[k]) {
        var n := k + 1;
        assert Deserved(At(t, ops, k), Named(t, ops, k)) && Deserved(At(t, ops, n), Named(t, ops, n));
        AlwaysInv(t, ops, k);
        StepDeserved(At(t, ops, k), ops[k], Named(t, ops, k));
      }
    }
  }

  lemma {:induction false} UnmarkedSoFar(t: Table, ops: seq<Op>, n: nat)
    requires Initial(t) && n <= |ops|
    requires forall k: nat :: k < n ==> !Strays(At(t, ops, k), ops[k])
    ensures NoneMarked(At(t, ops, n))
  {
    hide Inv, Pids, GivenOut, Apply, Names, Strays;
    if n == 0 {
      forall i: nat | i < |t.procs| ensures Unmarked(t.procs[i]) {}
    } else {
      UnmarkedSoFar(t, ops, n - 1);
      AlwaysInv(t, ops, n - 1);
      StepUnmarked(At(t, ops, n - 1), ops[n - 1]);
    }
  }

  /** It is enough that kill finds no unused slot and no fork of a killed embryo fails. */
  lemma NoStrays(t: Table, ops: seq<Op>)
    requires Initial(t) && forall k: nat :: k < |ops| ==> !Strays(At(t, ops, k), ops[k])
    ensures AllByName(t, ops)
  {
    forall k: nat | k < |ops| ensures !TakesMarked(At(t, ops, k), ops[k]) {
      UnmarkedSoFar(t, ops, k);
      hide Apply, At;
      var t' := At(t, ops, k);
      if Vacant(t') < |t'.procs| { assert Unmarked(t'.procs[Vacant(t')]); }
    }
    KilledByName(t, ops);
  }

  lemma KillFirst(t: Table, pid: int, k: nat)
    requires k < |t.procs| && t.procs[k].pid == pid && t.procs[k].state == UNUSED
    requires forall j: nat :: j < k ==> t.procs[j].pid != pid
    ensures Apply(t, Kill(pid)) == t.(procs := t.procs[k := t.procs[k].(killed := true)]) && Names(t, Kill(pid)) == {}
  {
  }

  lemma AllocFirst(t: Table, p: nat, k: nat)
    requires InUser(t, p) && k < |t.procs| && t.procs[k].state == UNUSED
    requires forall j: nat :: j < k ==> t.procs[j].state != UNUSED
    ensures |Apply(t, Alloc(p)).procs| == |t.procs|
    ensures Apply(t, Alloc(p)).procs[k] == t.procs[k].(state := EMBRYO, pid := t.nextpid)
  {
  }

  lemma NamesKill(t: Table, op: Op)
    requires !op.Kill?
    ensures Names(t, op) == {}
  {
  }

  /** kill(0) before any fork: the first child is born killed, though no kill names its pid. */
  lemma BornKilled(t: Table) returns (k: nat)
    requires Initial(t) && |t.procs| > 1
    ensures var ops := [Pick(t.init), Kill(0), Alloc(t.init)];
            && k < |Run(t, ops).procs| && Run(t, ops).procs[k] == Proc(EMBRYO, 2, -1, NoChan, true, User)
            && !Deserved(Run(t, ops), Named(t, ops, 3)) && Named(t, ops, 3) == {}
  {
    var ops := [Pick(t.init), Kill(0), Alloc(t.init)];
    RunAt(t, ops, 3);
    assert ops[..3] == ops;
    k := if t.init == 0 then 1 else 0;
    var t1 := t.(procs := t.procs[t.init := Proc(RUNNING, 1, -1, NoChan, false, User)]);
    var t2 := t1.(procs := t1.procs[k := Proc(UNUSED, 0, -1, NoChan, true, User)]);
    assert Apply(t, ops[0]) == t1;
    KillFirst(t1, 0, k);
    AllocFirst(t2, t.init, k);
    hide Apply, Names;
    assert At(t, ops, 0) == t;
    assert At(t, ops, 1) == t1;
    assert At(t, ops, 2) == t2;
    assert At(t, ops, 3) == Apply(t2, ops[2]);
    assert Names(t, ops[0]) == {} && Names(t2, ops[2]) == {} by { NamesKill(t, ops[0]); NamesKill(t2, ops[2]); }
    assert Named(t, ops, 0) == {};
    assert Named(t, ops, 1) == {};
    assert Named(t, ops, 2) == {};
    assert !DeservedAt(At(t, ops, 3).procs[k], {});
  }
}
