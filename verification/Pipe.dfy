/** The pipe (pipe.c): a ring buffer indexed by 32-bit counters that wrap, with readers and
    writers that sleep and wake.  Each call runs in segments under the pipe's lock: from taking
    the lock, or waking with it, to returning or going to sleep. */
module Pipe {
  import opened Sectors

  const PIPESIZE := 512
  const WORD := 0x1_0000_0000

  datatype Result = Done(n: int) | Failed | Asleep(at: nat)

  // ---------- the abstract pipe ----------

  /** buf is what was written and not yet read; readers and writers are the processes asleep on
      &nread and on &nwrite; sent and got are all bytes written and read so far. */
  datatype Queue = Queue(buf: seq<byte>, readopen: bool, writeopen: bool, readers: set<nat>, writers: set<nat>,
    sent: seq<byte>, got: seq<byte>)

  function Min(a: int, b: int): int { if a < b then a else b }

  /** How far a write segment that starts at byte i gets before the pipe is full. */
  function WriteStop(q: Queue, addr: seq<byte>, i: nat): (j: nat)
    requires i <= |addr| && |q.buf| <= PIPESIZE
    ensures i <= j <= |addr|
  {
    Min(|addr|, i + PIPESIZE - |q.buf|)
  }

  function WriteResult(q: Queue, addr: seq<byte>, i: nat, killed: bool): Result
    requires i <= |addr| && |q.buf| <= PIPESIZE
  {
    var j := WriteStop(q, addr, i);
    if j == |addr| then Done(|addr|) else if !q.readopen || killed then Failed else Asleep(j)
  }

  function WriteStep(q: Queue, me: nat, addr: seq<byte>, i: nat, killed: bool): Queue
    requires i <= |addr| && |q.buf| <= PIPESIZE
  {
    var j := WriteStop(q, addr, i);
    var q1 := q.(buf := q.buf + addr[i..j], sent := q.sent + addr[i..j]);
    match WriteResult(q, addr, i, killed)
    case Done(_) => q1.(readers := {})
    case Failed => q1
    case Asleep(_) => q1.(readers := {}, writers := q.writers + {me})
  }

  function ReadResult(q: Queue, n: int, killed: bool): Result
  {
    if q.buf == [] && q.writeopen then (if killed then Failed else Asleep(0))
    else Done(if n < 0 then 0 else Min(n, |q.buf|))
  }

  function ReadStep(q: Queue, me: nat, n: int, killed: bool): Queue
  {
    match ReadResult(q, n, killed)
    case Done(k) => if 0 <= k <= |q.buf| then q.(buf := q.buf[k..], got := q.got + q.buf[..k], writers := {}) else q
    case Failed => q
    case Asleep(_) => q.(readers := q.readers + {me})
  }

  /** What a segment of a write that starts at byte i does, on the bytes sent and received alone: the
      next bytes of addr go out in order, all that are left or until 512 wait to be read. */
  predicate WritesOut(q: Queue, q': Queue, me: nat, addr: seq<byte>, i: nat, killed: bool, r: Result)
  {
    var k := |q'.sent| - |q.sent|;
    && q'.got == q.got && q'.readopen == q.readopen && q'.writeopen == q.writeopen
    && 0 <= k <= |addr| - i && q'.sent == q.sent + addr[i..i + k]
    && (k == |addr| - i || |q'.sent| == |q.got| + 512)
    && (r.Done? <==> k == |addr| - i)
    && match r
       case Done(n) => n == |addr| && q'.readers == {} && q'.writers == q.writers
       case Failed => (!q.readopen || killed) && q'.readers == q.readers && q'.writers == q.writers
       case Asleep(at) => q.readopen && !killed && at == i + k && q'.readers == {} && q'.writers == q.writers + {me}
  }

  /** What a segment of a read does: the oldest bytes not yet received, as many as asked for or as
      there are; zero of some asked for is the end of the file and nothing else. */
  predicate ReadsIn(q: Queue, q': Queue, me: nat, n: int, killed: bool, r: Result)
  {
    var k := |q'.got| - |q.got|;
    && q'.sent == q.sent && q'.readopen == q.readopen && q'.writeopen == q.writeopen
    && 0 <= k <= |q.sent| - |q.got| && q'.got == q.got + q.sent[|q.got|..|q.got| + k]
    && (n > 0 ==> (r == Done(0) <==> |q.got| == |q.sent| && !q.writeopen))
    && if |q.got| == |q.sent| && q.writeopen then
         && k == 0 && q'.writers == q.writers
         && if killed then r == Failed && q'.readers == q.readers else r == Asleep(0) && q'.readers == q.readers + {me}
       else
         && r == Done(k) && k == (if n < 0 then 0 else if n < |q.sent| - |q.got| then n else |q.sent| - |q.got|)
         && q'.writers == {} && q'.readers == q.readers
  }

  lemma WriteExact(q: Queue, me: nat, addr: seq<byte>, i: nat, killed: bool)
    requires Fifo(q) && i <= |addr|
    ensures WritesOut(q, WriteStep(q, me, addr, i, killed), me, addr, i, killed, WriteResult(q, addr, i, killed))
  {
  }

  /** A write segment that got to byte i, the end or a full pipe. */
  lemma WriteEnds(q: Queue, me: nat, addr: seq<byte>, from: nat, i: nat, killed: bool)
    requires Fifo(q) && from <= i <= |addr| && |q.buf| + i - from <= PIPESIZE
    requires i == |addr| || |q.buf| + i - from == PIPESIZE
    ensures WriteResult(q, addr, from, killed) ==
            if i == |addr| then Done(|addr|) else if !q.readopen || killed then Failed else Asleep(i)
    ensures var sent := q.sent + addr[from..i];
            && sent[|q.got|..] == q.buf + addr[from..i]
            && WriteStep(q, me, addr, from, killed) ==
               Queue(sent[|q.got|..], q.readopen, q.writeopen,
                     if WriteResult(q, addr, from, killed) == Failed then q.readers else {},
                     if i == |addr| || !q.readopen || killed then q.writers else q.writers + {me}, sent, q.got)
  {
    assert q.sent[|q.got|..] == q.buf;
  }

  lemma ReadExact(q: Queue, me: nat, n: int, killed: bool)
    requires Fifo(q)
    ensures ReadsIn(q, ReadStep(q, me, n, killed), me, n, killed, ReadResult(q, n, killed))
  {
    assert q.sent[|q.got|..] == q.buf;
    if ReadResult(q, n, killed).Done? {
      var k := ReadResult(q, n, killed).n;
      assert q.sent[|q.got|..|q.got| + k] == q.buf[..k];
    }
  }

  function CloseStep(q: Queue, writable: bool): Queue
  {
    if writable then q.(writeopen := false, readers := {}) else q.(readopen := false, writers := {})
  }

  /** The counters are the numbers of bytes written and read, modulo 2^32, at most PIPESIZE apart; the
      ring holds the bytes between them. */
  predicate RingOk(ring: seq<byte>, nread: int, nwrite: int, sent: seq<byte>, got: seq<byte>)
    requires |ring| == PIPESIZE
  {
    && |got| <= |sent| <= |got| + PIPESIZE && got == sent[..|got|]
    && nread == |got| % WORD && nwrite == |sent| % WORD
    && forall k :: |got| <= k < |sent| ==> ring[k % PIPESIZE] == sent[k]
  }

  // ---------- pipe.c ----------

  class Pipe {
    const data: array<byte>
    var nread: int
    var nwrite: int
    var readopen: bool
    var writeopen: bool
    var readers: set<nat>
    var writers: set<nat>
    ghost var sent: seq<byte>
    ghost var got: seq<byte>

    ghost predicate Valid()
      reads this, data
    {
      data.Length == PIPESIZE && RingOk(data[..], nread, nwrite, sent, got)
    }

    ghost function View(): Queue
      reads this, data
      requires Valid()
    {
      Queue(sent[|got|..], readopen, writeopen, readers, writers, sent, got)
    }

    lemma QueueOk()
      requires Valid()
      ensures Fifo(View()) && |got| <= |sent| <= |got| + PIPESIZE
      ensures View() == Queue(sent[|got|..], readopen, writeopen, readers, writers, sent, got)
    {
    }

    /** `pipealloc`. */
    constructor ()
      ensures Valid() && fresh(data)
      ensures View() == Queue([], true, true, {}, {}, [], [])
    {
      data := new byte[PIPESIZE];
      nread, nwrite, readopen, writeopen, readers, writers := 0, 0, true, true, {}, {};
      sent, got := [], [];
    }

    method Full() returns (full: bool)
      requires Valid()
      ensures full <==> |sent| == |got| + PIPESIZE
    {
      full := nwrite == (nread + PIPESIZE) % WORD;
      Apart(|got|, |sent|);
    }

    method Empty() returns (empty: bool)
      requires Valid()
      ensures empty <==> |sent| == |got|
    {
      empty := nread == nwrite;
      Apart(|got|, |sent|);
    }

    method Put(b: byte)
      requires Valid() && |sent| < |got| + PIPESIZE
      modifies this`nwrite, this`sent, data
      ensures Valid() && sent == old(sent) + [b]
    {
      Wraps(|sent|);
      data[nwrite % PIPESIZE] := b;
      nwrite := (nwrite + 1) % WORD;
      forall k | |got| <= k < |sent| ensures data[k % PIPESIZE] == sent[k] {
        Slots(k, |sent|);
      }
      sent := sent + [b];
    }

    method Get() returns (b: byte)
      requires Valid() && |got| < |sent|
      modifies this`nread, this`got
      ensures Valid() && got == old(got) + [sent[|old(got)|]] && b == sent[|old(got)|]
    {
      Wraps(|got|);
      b := data[nread % PIPESIZE];
      nread := (nread + 1) % WORD;
      got := got + [b];
    }

    /** `pipewrite` from byte i on, with the lock held, until it returns or sleeps. */
    method Write(me: nat, addr: seq<byte>, from: nat, killed: bool) returns (r: Result)
      requires Valid() && from <= |addr|
      modifies this, data
      ensures Valid()
      ensures r == WriteResult(old(View()), addr, from, killed)
      ensures View() == WriteStep(old(View()), me, addr, from, killed)
      ensures WritesOut(old(View()), View(), me, addr, from, killed, r)
    {
      hide WritesOut, WriteStep, WriteResult, RingOk;
      ghost var q := View();
      QueueOk();
      WriteExact(q, me, addr, from, killed);
      var i := from;
      while i < |addr|
        invariant from <= i <= |addr| && Valid() && got == old(got)
        invariant sent == old(sent) + addr[from..i]
        invariant readopen == old(readopen) && writeopen == old(writeopen) && readers == old(readers)
          && writers == old(writers)
      {
        QueueOk();
        var full := Full();
        if full {
          WriteEnds(q, me, addr, from, i, killed);
          if !readopen || killed { return Failed; }
          readers := {};
          writers := writers + {me};
          QueueOk();
          return Asleep(i);
        }
        Put(addr[i]);
        i := i + 1;
      }
      QueueOk();
      WriteEnds(q, me, addr, from, i, killed);
      readers := {};
      r := Done(|addr|);
      QueueOk();
    }

    /** The copying loop of `piperead`. */
    method Copy(n: int) returns (bytes: seq<byte>)
      requires Valid()
      modifies this`nread, this`got
      ensures Valid() && got == old(got) + bytes
      ensures |bytes| == if n < 0 then 0 else Min(n, |sent| - |old(got)|)
    {
      bytes := [];
      var i := 0;
      while i < n
        invariant 0 <= i && (n >= 0 ==> i <= n) && (n < 0 ==> i == 0) && Valid() && |bytes| == i
        invariant got == old(got) + bytes
      {
        var empty := Empty();
        if empty { break; }
        var b := Get();
        bytes := bytes + [b];
        i := i + 1;
      }
    }

    /** `piperead`, with the lock held, until it returns or sleeps. */
    method Read(me: nat, n: int, killed: bool) returns (r: Result, bytes: seq<byte>)
      requires Valid()
      modifies this
      ensures Valid()
      ensures r == ReadResult(old(View()), n, killed)
      ensures View() == ReadStep(old(View()), me, n, killed)
      ensures ReadsIn(old(View()), View(), me, n, killed, r) && got == old(got) + bytes
    {
      hide ReadsIn;
      ghost var q := View();
      QueueOk();
      ReadExact(q, me, n, killed);
      bytes := [];
      var empty := Empty();
      if empty && writeopen {
        if killed { return Failed, []; }
        readers := readers + {me};
        return Asleep(0), [];
      }
      bytes := Copy(n);
      writers := {};
      r := Done(|bytes|);
    }

    /** `pipeclose`. */
    method Close(writable: bool) returns (freed: bool)
      requires Valid()
      modifies this
      ensures Valid() && View() == CloseStep(old(View()), writable)
      ensures freed <==> !readopen && !writeopen
    {
      if writable {
        writeopen := false;
        readers := {};
      } else {
        readopen := false;
        writers := {};
      }
      freed := !readopen && !writeopen;
    }
  }

  // ---------- wrap-around ----------

  /** Two counters at most PIPESIZE apart are told apart by their values modulo 2^32. */
  lemma Apart(a: nat, b: nat)
    requires a <= b <= a + PIPESIZE
    ensures a % WORD == b % WORD <==> a == b
    ensures b % WORD == (a % WORD + PIPESIZE) % WORD <==> b == a + PIPESIZE
  {
  }

  /** Wrapping at 2^32 keeps the position in the ring. */
  lemma Wraps(n: nat)
    ensures n % WORD % PIPESIZE == n % PIPESIZE && (n % WORD + 1) % WORD == (n + 1) % WORD
  {
  }

  lemma Slots(k: nat, n: nat)
    requires k < n < k + PIPESIZE
    ensures k % PIPESIZE != n % PIPESIZE
  {
  }

  // ---------- whole calls ----------

  /** The segments of one `pipewrite` of addr: segment k met the pipe qs[k] and started at byte ats[k],
      where the one before it fell asleep. */
  predicate Segments(qs: seq<Queue>, ats: seq<nat>, addr: seq<byte>)
  {
    && |qs| == |ats| && (ats != [] ==> ats[0] == 0)
    && (forall k: nat :: k < |qs| ==> Fifo(qs[k]) && ats[k] <= |addr|)
    && (forall k: nat :: k + 1 < |qs| ==> WriteResult(qs[k], addr, ats[k], false) == Asleep(ats[k + 1]))
  }

  /** What they added to the stream. */
  function Added(qs: seq<Queue>, ats: seq<nat>, addr: seq<byte>): seq<byte>
    requires Segments(qs, ats, addr)
  {
    if qs == [] then []
    else
      var k := |qs| - 1;
      Added(qs[..k], ats[..k], addr) + WriteStep(qs[k], 0, addr, ats[k], false).sent[|qs[k].sent|..]
  }

  /** However other calls come in between, the segments add the bytes of addr in order, each once: all
      of them when the last one returns. */
  lemma {:induction false} AddedInOrder(qs: seq<Queue>, ats: seq<nat>, addr: seq<byte>)
    requires Segments(qs, ats, addr) && qs != []
    ensures match WriteResult(qs[|qs| - 1], addr, ats[|qs| - 1], false)
      case Done(_) => Added(qs, ats, addr) == addr
      case Failed => Added(qs, ats, addr) <= addr
      case Asleep(at) => at <= |addr| && Added(qs, ats, addr) == addr[..at]
  {
    var k := |qs| - 1;
    var q, i := qs[k], ats[k];
    var j := WriteStop(q, addr, i);
    assert WriteStep(q, 0, addr, i, false).sent[|q.sent|..] == addr[i..j];
    if k > 0 {
      AddedInOrder(qs[..k], ats[..k], addr);
      assert WriteResult(qs[k - 1], addr, ats[k - 1], false) == Asleep(i);
    }
    assert addr[..i] + addr[i..j] == addr[..j];
    assert addr[..|addr|] == addr;
  }

  // ---------- runs ----------

  datatype Op =
    | Write(me: nat, addr: seq<byte>, from: nat, killed: bool)
    | Read(me: nat, n: int, killed: bool)
    | Close(writable: bool)
    | Kill(p: nat)

  /** A segment in turn; kill wakes a process without running it.  A process reads or writes through
      a file it keeps open, so an end is used only while open and closed only when nobody sleeps in it. */
  function Apply(q: Queue, op: Op): Queue
  {
    match op
    case Write(me, addr, from, killed) => if q.writeopen && from <= |addr| && |q.buf| <= PIPESIZE then
      WriteStep(q, me, addr, from, killed) else q
    case Read(me, n, killed) => if q.readopen then ReadStep(q, me, n, killed) else q
    case Close(writable) => if (if writable then q.writers else q.readers) == {} then CloseStep(q, writable) else q
    case Kill(p) => q.(readers := q.readers - {p}, writers := q.writers - {p})
  }

  function Run(q: Queue, ops: seq<Op>): Queue
    decreases |ops|
  {
    if ops == [] then q else Run(Apply(q, ops[0]), ops[1..])
  }

  /** First in, first out, with at most PIPESIZE bytes in between. */
  predicate Fifo(q: Queue)
  {
    q.sent == q.got + q.buf && |q.buf| <= PIPESIZE
  }

  /** A sleeping reader has nothing to read and may yet get some; a sleeping writer has no room and may yet get some. */
  predicate SleepOk(q: Queue)
  {
    && (q.readers != {} ==> q.buf == [] && q.writeopen && q.readopen)
    && (q.writers != {} ==> |q.buf| == PIPESIZE && q.readopen)
  }

  const EMPTY := Queue([], true, true, {}, {}, [], [])

  lemma WriteFifo(q: Queue, me: nat, addr: seq<byte>, from: nat, killed: bool)
    requires Fifo(q) && from <= |addr|
    ensures Fifo(WriteStep(q, me, addr, from, killed))
  {
    var more := addr[from..WriteStop(q, addr, from)];
    assert (q.got + q.buf) + more == q.got + (q.buf + more);
  }

  lemma ReadFifo(q: Queue, me: nat, n: int, killed: bool)
    requires Fifo(q)
    ensures Fifo(ReadStep(q, me, n, killed))
  {
    if ReadResult(q, n, killed).Done? {
      var k := ReadResult(q, n, killed).n;
      assert q.got + q.buf == (q.got + q.buf[..k]) + q.buf[k..];
    }
  }

  lemma StepFifo(q: Queue, op: Op)
    requires Fifo(q)
    ensures Fifo(Apply(q, op))
  {
    hide WriteStep, ReadStep;
    match op
    case Write(me, addr, from, killed) => if from <= |addr| { WriteFifo(q, me, addr, from, killed); }
    case Read(me, n, killed) => ReadFifo(q, me, n, killed);
    case _ =>
  }

  /** In every run, kills included, the bytes read are a prefix of the bytes written and the rest are buffered. */
  lemma {:induction false} AlwaysFifo(q: Queue, ops: seq<Op>)
    requires Fifo(q)
    ensures Fifo(Run(q, ops))
    decreases |ops|
  {
    if ops != [] {
      StepFifo(q, ops[0]);
      AlwaysFifo(Apply(q, ops[0]), ops[1..]);
    }
  }

  /** The write that leaves readers asleep over a full pipe: killed, with more to write than fits,
      while readers sleep. */
  predicate Strands(q: Queue, op: Op)
  {
    op.Write? && op.killed && q.readers != {} && |op.addr| - op.from > PIPESIZE
  }

  /** A step keeps sleepers sound exactly when it is not such a write. */
  lemma StepSleep(q: Queue, op: Op)
    requires Fifo(q) && SleepOk(q)
    ensures SleepOk(Apply(q, op)) <==> !Strands(q, op)
  {
    if op.Kill? {
      assert q.readers == {} ==> q.readers - {op.p} == {};
      assert q.writers == {} ==> q.writers - {op.p} == {};
    }
    if op.Write? && op.from <= |op.addr| {
      var j := WriteStop(q, op.addr, op.from);
      assert |WriteStep(q, op.me, op.addr, op.from, op.killed).buf| == |q.buf| + j - op.from;
    }
  }

  predicate NoKilledWriter(ops: seq<Op>)
  {
    forall i :: 0 <= i < |ops| && ops[i].Write? ==> !ops[i].killed
  }

  /** With no killed writers, in every run: sleepers are sound, and readers and writers never sleep at once. */
  lemma {:induction false} NeverBothAsleep(q: Queue, ops: seq<Op>)
    requires Fifo(q) && SleepOk(q) && NoKilledWriter(ops)
    ensures SleepOk(Run(q, ops))
    ensures Run(q, ops).readers == {} || Run(q, ops).writers == {}
    decreases |ops|
  {
    if ops != [] {
      StepFifo(q, ops[0]);
      StepSleep(q, ops[0]);
      assert NoKilledWriter(ops[1..]);
      NeverBothAsleep(Apply(q, ops[0]), ops[1..]);
    }
  }

  /** A killed writer of 513 bytes: the reader that was waiting stays asleep while 512 bytes wait for it. */
  lemma KilledWriterStrandsReader(addr: seq<byte>)
    requires |addr| == PIPESIZE + 1
    ensures var q := Run(EMPTY, [Read(1, 10, false), Write(2, addr, 0, true)]);
      q.readers == {1} && q.buf == addr[..PIPESIZE]
  {
    var r, w := Read(1, 10, false), Write(2, addr, 0, true);
    assert [r, w][1..] == [w] && [w][1..] == [];
    var q := Apply(EMPTY, r);
    assert Run(EMPTY, [r, w]) == Run(q, [w]) == Apply(q, w);
  }
}
