/**
  Pipes (pipe.c:59-121): a 512-byte ring with 32-bit counters that wrap, any
  number of readers and writers, sleeping on `nread` when it is empty and on
  `nwrite` when it is full.

  The pipe's lock is held except while asleep, so a call is a series of turns,
  each from a return of `acquire` or `sleep` to the next `sleep` or `release`.
  kill holds only `ptable.lock`. Between a turn's test of `killed` and the moment
  `sleep` has that lock, kill can still come; so going to sleep is a step of its
  own. The wakeup a writer does in between is part of its turn: only kill can come
  between them, and a kill and a wakeup leave the same in either order.
 */
module Pipe {

  /** `data` holds 512 bytes; the counters are 32-bit unsigned. */
  datatype Ring = Ring(data: seq<int>, nread: int, nwrite: int, readopen: bool, writeopen: bool)

  predicate Empty(p: Ring) { p.nread == p.nwrite }

  predicate Full(p: Ring) { p.nwrite == (p.nread + 512) % 0x1_0000_0000 }

  function Put(p: Ring, b: int): Ring
    requires |p.data| == 512
  {
    p.(data := p.data[p.nwrite % 512 := b], nwrite := (p.nwrite + 1) % 0x1_0000_0000)
  }

  function First(p: Ring): int
    requires |p.data| == 512
  {
    p.data[p.nread % 512]
  }

  function Drop(p: Ring): Ring { p.(nread := (p.nread + 1) % 0x1_0000_0000) }

  // ----- the queue a ring stands for -----

  function Count(p: Ring): int {
    if p.nwrite >= p.nread then p.nwrite - p.nread else p.nwrite - p.nread + 0x1_0000_0000
  }

  predicate Valid(p: Ring) {
    && |p.data| == 512 && 0 <= p.nread < 0x1_0000_0000 && 0 <= p.nwrite < 0x1_0000_0000
    && Count(p) <= 512
  }

  /** The bytes written and not yet read, oldest first. */
  function Queue(p: Ring): (q: seq<int>)
    requires Valid(p)
    ensures |q| == Count(p)
  {
    seq(Count(p), k requires 0 <= k => p.data[(p.nread + k) % 512])
  }

  /** The tests of the code are exact across wraparound. */
  lemma TestsExact(p: Ring)
    requires Valid(p)
    ensures Empty(p) <==> Queue(p) == []
    ensures Full(p) <==> |Queue(p)| == 512
  {
  }

  lemma SlotFree(nread: int, nwrite: int, count: int, k: int)
    requires 0 <= k < count < 512 && (nwrite == nread + count || nwrite == nread + count - 0x1_0000_0000)
    ensures nwrite % 512 == (nread + count) % 512
    ensures (nread + k) % 512 != nwrite % 512
  {
  }

  lemma PutCount(p: Ring, b: int)
    requires Valid(p) && !Full(p)
    ensures Valid(Put(p, b)) && Count(Put(p, b)) == Count(p) + 1 && Count(p) < 512
    ensures p.nwrite % 512 == (p.nread + Count(p)) % 512
  {
  }

  lemma PutQueue(p: Ring, b: int)
    requires Valid(p) && !Full(p)
    ensures Valid(Put(p, b)) && Queue(Put(p, b)) == Queue(p) + [b]
  {
    var p' := Put(p, b);
    PutCount(p, b);
    forall k | 0 <= k < Count(p)
      ensures Queue(p')[k] == Queue(p)[k]
    {
      SlotFree(p.nread, p.nwrite, Count(p), k);
    }
  }

  lemma NextSlot(nread: int, k: int)
    requires 0 <= nread < 0x1_0000_0000 && 0 <= k
    ensures ((nread + 1) % 0x1_0000_0000 + k) % 512 == (nread + (k + 1)) % 512
  {
  }

  lemma DropCount(p: Ring)
    requires Valid(p) && !Empty(p)
    ensures Valid(Drop(p)) && Count(Drop(p)) == Count(p) - 1
  {
  }

  lemma DropQueue(p: Ring)
    requires Valid(p) && !Empty(p)
    ensures Valid(Drop(p)) && Queue(p) == [First(p)] + Queue(Drop(p))
  {
    var p' := Drop(p);
    DropCount(p);
    forall k | 0 <= k < Count(p')
      ensures Queue(p')[k] == Queue(p)[k + 1]
    {
      NextSlot(p.nread, k);
    }
  }

  // ----- one turn of a call -----

  /** Bytes `addr[i..]` go in until the ring is full or they are all in. */
  function Fill(p: Ring, addr: seq<int>, i: int): (Ring, int)
    requires 0 <= i <= |addr| && |p.data| == 512
    decreases |addr| - i
  {
    if i < |addr| && !Full(p) then Fill(Put(p, addr[i]), addr, i + 1) else (p, i)
  }

  /** Up to `n` bytes come out, appended to `got`. */
  function Drain(p: Ring, n: int, got: seq<int>): (Ring, seq<int>)
    requires |p.data| == 512
    decreases n - |got|
  {
    if |got| < n && !Empty(p) then Drain(Drop(p), n, got + [First(p)]) else (p, got)
  }

  lemma {:induction false} FillQueue(p: Ring, addr: seq<int>, i: int)
    requires Valid(p) && 0 <= i <= |addr|
    ensures var (p', i') := Fill(p, addr, i);
            && Valid(p') && i <= i' <= |addr| && Queue(p') == Queue(p) + addr[i..i']
            && (i' == |addr| || Full(p')) && p'.readopen == p.readopen && p'.writeopen == p.writeopen
            && (i' == i ==> p' == p)
    decreases |addr| - i
  {
    if i < |addr| && !Full(p) {
      PutQueue(p, addr[i]);
      FillQueue(Put(p, addr[i]), addr, i + 1);
      var (p', i') := Fill(p, addr, i);
      assert [addr[i]] + addr[i + 1..i'] == addr[i..i'];
      assert Queue(p) + [addr[i]] + addr[i + 1..i'] == Queue(p) + ([addr[i]] + addr[i + 1..i']);
    }
  }

  lemma {:induction false} DrainQueue(p: Ring, n: int, got: seq<int>)
    requires Valid(p)
    ensures var (p', got') := Drain(p, n, got);
            && Valid(p') && got + Queue(p) == got' + Queue(p') && got <= got'
            && (|got'| >= n || Empty(p')) && (|got'| > |got| ==> |got'| <= n)
            && p'.readopen == p.readopen && p'.writeopen == p.writeopen
    decreases n - |got|
  {
    if |got| < n && !Empty(p) {
      DropQueue(p);
      DrainQueue(Drop(p), n, got + [First(p)]);
      assert got + [First(p)] + Queue(Drop(p)) == got + ([First(p)] + Queue(Drop(p)));
    }
  }

  /** As many of `n` bytes as there are; a negative `n` asks for none. */
  function Least(n: int, m: int): int { if n <= 0 then 0 else if n < m then n else m }

  datatype Outcome = Sleeps | Returns(r: int)

  /** How a turn of `pipewrite` ends that has got `i` of `n` bytes in. */
  function WriteOutcome(n: int, i: int, readopen: bool, killed: bool): Outcome {
    if i == n then Returns(n) else if !readopen || killed then Returns(-1) else Sleeps
  }

  /** How a turn of `piperead` ends that finds nothing to read. */
  function WaitOutcome(killed: bool): Outcome { if killed then Returns(-1) else Sleeps }

  /** The pipe structure, changed in place under its lock. */
  class PipeBuffer {
    const data: array<int>
    var nread: int
    var nwrite: int
    var readopen: bool
    var writeopen: bool

    constructor ()
      ensures fresh(data) && Shape() && Valid(Value()) && Queue(Value()) == [] && readopen && writeopen
    {
      data := new int[512];
      nread, nwrite, readopen, writeopen := 0, 0, true, true;
    }

    predicate Shape()
      reads this
    {
      data.Length == 512 && 0 <= nread < 0x1_0000_0000 && 0 <= nwrite < 0x1_0000_0000
    }

    ghost function Value(): Ring
      reads this, data
    {
      Ring(data[..], nread, nwrite, readopen, writeopen)
    }

    /** A turn of `pipewrite` from byte `i0`; `wakes` says whether it wakes the readers. */
    method WriteTurn(addr: seq<int>, i0: int, killed: bool) returns (i: int, out: Outcome, wakes: bool)
      requires Shape() && 0 <= i0 <= |addr|
      modifies data, `nwrite
      ensures Shape() && (Value(), i) == Fill(old(Value()), addr, i0)
      ensures out == WriteOutcome(|addr|, i, readopen, killed)
      ensures out == Returns(|addr|) <==> i == |addr|
      ensures out == Returns(-1) <==> i < |addr| && (!readopen || killed)
      ensures out == Sleeps <==> i < |addr| && readopen && !killed
      ensures wakes <==> out != Returns(-1)
      ensures old(Valid(Value())) ==>
                && Valid(Value()) && i0 <= i <= |addr| && Queue(Value()) == old(Queue(Value())) + addr[i0..i]
                && (i < |addr| ==> |Queue(Value())| == 512)
    {
      if Valid(Value()) {
        FillQueue(Value(), addr, i0);
        TestsExact(Fill(Value(), addr, i0).0);
      }
      i := i0;
      while i < |addr|
        invariant i0 <= i <= |addr| && Shape() && Fill(old(Value()), addr, i0) == Fill(Value(), addr, i)
      {
        if nwrite == (nread + 512) % 0x1_0000_0000 {
          if !readopen || killed {
            return i, Returns(-1), false;
          }
          return i, Sleeps, true;
        }
        ghost var was := Value();
        data[nwrite % 512] := addr[i];
        nwrite := (nwrite + 1) % 0x1_0000_0000;
        assert Value() == Put(was, addr[i]);
        i := i + 1;
      }
      return i, Returns(|addr|), true;
    }

    /** A turn of `piperead`; `wakes` says whether it wakes the writers. */
    method ReadTurn(n: int, killed: bool) returns (got: seq<int>, out: Outcome, wakes: bool)
      requires Shape()
      modifies `nread
      ensures Shape()
      ensures var p0 := old(Value());
              if Empty(p0) && writeopen then
                Value() == p0 && got == [] && out == (if killed then Returns(-1) else Sleeps) && !wakes
              else
                (Value(), got) == Drain(p0, n, []) && out == Returns(|got|) && wakes
      ensures old(Valid(Value())) ==>
                && Valid(Value()) && old(Queue(Value())) == got + Queue(Value())
                && (out.Returns? && out.r >= 0 ==> |got| == Least(n, |old(Queue(Value()))|))
    {
      if Valid(Value()) {
        DrainQueue(Value(), n, []);
        TestsExact(Drain(Value(), n, []).0);
        TestsExact(Value());
      }
      got := [];
      if nread == nwrite && writeopen {
        return got, if killed then Returns(-1) else Sleeps, false;
      }
      while |got| < n && nread != nwrite
        invariant Shape() && Drain(old(Value()), n, []) == Drain(Value(), n, got)
        decreases n - |got|
      {
        got := got + [data[nread % 512]];
        nread := (nread + 1) % 0x1_0000_0000;
      }
      return got, Returns(|got|), true;
    }

    /** `pipeclose`: wakes the other side, and the structure is freed once both ends are closed. */
    method Close(writable: bool) returns (freed: bool, wakesReaders: bool)
      requires Shape()
      modifies `readopen, `writeopen
      ensures wakesReaders <==> writable
      ensures Value() == if writable then old(Value()).(writeopen := false) else old(Value()).(readopen := false)
      ensures freed <==> !readopen && !writeopen
    {
      if writable {
        writeopen := false;
        wakesReaders := true;
      } else {
        readopen := false;
        wakesReaders := false;
      }
      freed := !readopen && !writeopen;
    }
  }

  // ----- any number of readers and writers -----

  /** Where a call is: on its way, past its test of `killed` with the pipe's lock held, or asleep. */
  datatype Place = Going | Tested | Asleep

  /** What a process is doing with the pipe; writers sleep on `nwrite`, readers on `nread`. */
  datatype Call =
    | Idle
    | Writing(addr: seq<int>, i: int, at: Place)
    | Reading(n: int, at: Place)

  /** `killed` are the processes marked by kill; `written` and `taken` record every byte that went in and came out, in order. */
  datatype State = State(ring: Ring, calls: seq<Call>, killed: set<int>, written: seq<int>, taken: seq<int>)

  /**
    A process holds its end open for the length of its call, so an end closes
    only while no call on it is in progress. A process that is killed starts no
    further call (trap.c:125-126).
   */
  datatype Step =
    | CallWrite(p: nat, addr: seq<int>)
    | CallRead(p: nat, n: int)
    | Turn(p: nat)
    | Doze(p: nat)
    | Kill(p: nat)
    | CloseWrite
    | CloseRead

  /** Past its test, about to sleep. */
  predicate InWindow(c: Call) { !c.Idle? && c.at.Tested? }

  predicate Sleeping(c: Call) { !c.Idle? && c.at.Asleep? }

  predicate LockFree(s: State) { forall p | 0 <= p < |s.calls| :: !InWindow(s.calls[p]) }

  predicate Enabled(s: State, t: Step) {
    match t
    case CallWrite(p, addr) => p < |s.calls| && p !in s.killed && s.calls[p].Idle? && s.ring.writeopen
    case CallRead(p, n) => p < |s.calls| && p !in s.killed && s.calls[p].Idle? && s.ring.readopen
    case Turn(p) => p < |s.calls| && !s.calls[p].Idle? && s.calls[p].at.Going? && LockFree(s)
    case Doze(p) => p < |s.calls| && InWindow(s.calls[p])
    case Kill(p) => p < |s.calls|
    case CloseWrite => LockFree(s) && forall p | 0 <= p < |s.calls| :: !s.calls[p].Writing?
    case CloseRead => LockFree(s) && forall p | 0 <= p < |s.calls| :: !s.calls[p].Reading?
  }

  function Moved(c: Call, at: Place): Call {
    match c
    case Idle => Idle
    case Writing(addr, i, _) => Writing(addr, i, at)
    case Reading(n, _) => Reading(n, at)
  }

  /** `wakeup(&p->nread)` or `wakeup(&p->nwrite)`. */
  function Woken(c: Call, readers: bool): Call {
    if Sleeping(c) && c.Reading? == readers then Moved(c, Going) else c
  }

  function Wake(calls: seq<Call>, readers: bool): seq<Call> {
    seq(|calls|, p requires 0 <= p < |calls| => Woken(calls[p], readers))
  }

  /** What kill does to a call: a sleeper is made runnable (proc.c:459-460). */
  function Roused(c: Call): Call { Woken(Woken(c, true), false) }

  /** Why the writer's wakeup may be part of its turn: a kill just before it or just after leaves the same. */
  lemma KillAndWakeCommute(calls: seq<Call>, p: nat, readers: bool)
    requires p < |calls|
    ensures var killed, woken := calls[p := Roused(calls[p])], Wake(calls, readers);
            Wake(killed, readers) == woken[p := Roused(woken[p])]
  {
  }

  function WriteStep(s: State, p: nat): State
    requires p < |s.calls| && s.calls[p].Writing? && 0 <= s.calls[p].i <= |s.calls[p].addr| && |s.ring.data| == 512
  {
    var Writing(addr, i, _) := s.calls[p];
    var (ring, i') := Fill(s.ring, addr, i);
    var written := s.written + addr[i..if i <= i' <= |addr| then i' else i];
    var out := WriteOutcome(|addr|, i', s.ring.readopen, p in s.killed);
    var calls := if out == Returns(-1) then s.calls else Wake(s.calls, true);
    State(ring, calls[p := if out.Sleeps? then Writing(addr, i', Tested) else Idle], s.killed, written, s.taken)
  }

  function ReadStep(s: State, p: nat): State
    requires p < |s.calls| && s.calls[p].Reading? && |s.ring.data| == 512
  {
    var n := s.calls[p].n;
    if Empty(s.ring) && s.ring.writeopen then
      s.(calls := s.calls[p := if WaitOutcome(p in s.killed).Sleeps? then Reading(n, Tested) else Idle])
    else
      var (ring, got) := Drain(s.ring, n, []);
      State(ring, Wake(s.calls, false)[p := Idle], s.killed, s.written, s.taken + got)
  }

  function Next(s: State, t: Step): (s': State)
    requires Inv(s)
    ensures |s'.calls| == |s.calls|
  {
    if !Enabled(s, t) then s else
    match t
    case CallWrite(p, addr) => s.(calls := s.calls[p := Writing(addr, 0, Going)])
    case CallRead(p, n) => s.(calls := s.calls[p := Reading(n, Going)])
    case Turn(p) =>
      assert CallOk(s.calls[p]);
      if s.calls[p].Writing? then WriteStep(s, p) else ReadStep(s, p)
    case Doze(p) => s.(calls := s.calls[p := Moved(s.calls[p], Asleep)])
    case Kill(p) => s.(killed := s.killed + {p}, calls := s.calls[p := Roused(s.calls[p])])
    case CloseWrite => s.(ring := s.ring.(writeopen := false), calls := Wake(s.calls, true))
    case CloseRead => s.(ring := s.ring.(readopen := false), calls := Wake(s.calls, false))
  }

  predicate CallOk(c: Call) { c.Writing? ==> 0 <= c.i <= |c.addr| }

  /** First in, first out: what came out, then what is in the ring, is what went in. */
  predicate Fifo(s: State)
    requires Valid(s.ring)
  {
    s.taken + Queue(s.ring) == s.written
  }

  predicate Inv(s: State) {
    Valid(s.ring) && Fifo(s) && forall p | 0 <= p < |s.calls| :: CallOk(s.calls[p])
  }

  lemma WriteInv(s: State, p: nat)
    requires Inv(s) && Enabled(s, Turn(p)) && s.calls[p].Writing? && CallOk(s.calls[p])
    ensures Inv(WriteStep(s, p))
  {
    FillQueue(s.ring, s.calls[p].addr, s.calls[p].i);
    var (ring, i') := Fill(s.ring, s.calls[p].addr, s.calls[p].i);
    var more := s.calls[p].addr[s.calls[p].i..i'];
    assert s.taken + (Queue(s.ring) + more) == s.taken + Queue(s.ring) + more;
  }

  /** What a turn of `piperead` takes comes off the front of the queue. */
  lemma DrainFront(p: Ring, n: int)
    requires Valid(p)
    ensures var (p', got) := Drain(p, n, []);
            Valid(p') && Queue(p) == got + Queue(p')
  {
    DrainQueue(p, n, []);
    assert [] + Queue(p) == Queue(p);
  }

  lemma MoveFront(taken: seq<int>, got: seq<int>, rest: seq<int>)
    ensures taken + got + rest == taken + (got + rest)
  {
  }

  lemma ReadInv(s: State, p: nat)
    requires Inv(s) && Enabled(s, Turn(p)) && s.calls[p].Reading?
    ensures Inv(ReadStep(s, p))
  {
    var (ring, got) := Drain(s.ring, s.calls[p].n, []);
    DrainFront(s.ring, s.calls[p].n);
    MoveFront(s.taken, got, Queue(ring));
  }

  lemma StepInv(s: State, t: Step)
    requires Inv(s)
    ensures Inv(Next(s, t))
  {
    if t.Turn? && Enabled(s, t) {
      assert CallOk(s.calls[t.p]);
      if s.calls[t.p].Writing? {
        WriteInv(s, t.p);
      } else {
        ReadInv(s, t.p);
      }
    } else if t == CloseWrite || t == CloseRead {
      assert Enabled(s, t) ==> Queue(Next(s, t).ring) == Queue(s.ring);
    }
  }

  // ----- whole runs -----

  datatype Run = Start | Then(before: Run, t: Step)

  /** A new pipe, and nobody inside it. */
  predicate Init(s: State) {
    && Valid(s.ring) && Empty(s.ring) && s.ring.readopen && s.ring.writeopen
    && s.killed == {} && s.written == [] && s.taken == [] && forall p | 0 <= p < |s.calls| :: s.calls[p] == Idle
  }

  function After(s: State, run: Run): (e: State)
    requires Init(s)
    ensures Inv(e) && |e.calls| == |s.calls|
  {
    match run
    case Start => TestsExact(s.ring); s
    case Then(before, t) =>
      StepInv(After(s, before), t);
      Next(After(s, before), t)
  }

  /** In every interleaving, across wraparound: bytes read followed by bytes buffered are the bytes written. */
  lemma PipeIsFifo(s: State, run: Run)
    requires Init(s)
    ensures var e := After(s, run);
            && e.written == e.taken + Queue(e.ring) && |Queue(e.ring)| <= 512
            && e.taken <= e.written
  {
    var e := After(s, run);
    assert Fifo(e);
  }

  // ----- who sleeps when -----

  /** Asleep, or about to be. */
  predicate ReaderWaits(c: Call) { c.Reading? && !c.at.Going? }

  predicate WriterWaits(c: Call) { c.Writing? && !c.at.Going? }

  /** A reader sleeps only on an empty pipe that can still be written, a writer only on a full one that can be read. */
  predicate SleepersRight(s: State) {
    && (forall p | 0 <= p < |s.calls| && ReaderWaits(s.calls[p]) :: Empty(s.ring) && s.ring.writeopen)
    && (forall p | 0 <= p < |s.calls| && WriterWaits(s.calls[p]) :: Full(s.ring) && s.ring.readopen)
  }

  /** A killed writer that puts bytes in, finds the ring full and leaves, with a reader asleep. */
  predicate Strands(s: State, t: Step) {
    && t.Turn? && Enabled(s, t) && s.calls[t.p].Writing? && t.p in s.killed
    && !Full(s.ring) && |s.calls[t.p].addr| - s.calls[t.p].i > 512 - Count(s.ring)
    && exists p :: 0 <= p < |s.calls| && ReaderWaits(s.calls[p])
  }

  /** No call is in progress on an end that is closed. */
  predicate EndsOk(s: State) {
    && (!s.ring.readopen ==> forall p | 0 <= p < |s.calls| :: !s.calls[p].Reading?)
    && (!s.ring.writeopen ==> forall p | 0 <= p < |s.calls| :: !s.calls[p].Writing?)
  }

  /** How far a turn of `pipewrite` gets. */
  lemma FillStops(p: Ring, addr: seq<int>, i: int)
    requires Valid(p) && 0 <= i <= |addr|
    ensures var (p', i') := Fill(p, addr, i);
            && Valid(p') && p'.readopen == p.readopen && p'.writeopen == p.writeopen
            && (i' < |addr| <==> |addr| - i > 512 - Count(p))
            && (i' < |addr| ==> Full(p')) && (i' == i ==> p' == p) && (i' > i ==> !Empty(p') && !Full(p)) && i <= i' <= |addr|
            && (!Full(p) && i < |addr| ==> i' > i)
  {
    FillQueue(p, addr, i);
    var (p', i') := Fill(p, addr, i);
    assert |Queue(p')| == |Queue(p)| + (i' - i);
    TestsExact(p);
    TestsExact(p');
  }

  lemma WriteSleepers(s: State, p: nat)
    requires Inv(s) && EndsOk(s) && SleepersRight(s) && Enabled(s, Turn(p)) && s.calls[p].Writing?
    ensures SleepersRight(Next(s, Turn(p))) <==> !Strands(s, Turn(p))
    ensures EndsOk(Next(s, Turn(p)))
  {
    assert CallOk(s.calls[p]);
    FillStops(s.ring, s.calls[p].addr, s.calls[p].i);
    var s' := Next(s, Turn(p));
    if Strands(s, Turn(p)) {
      var q :| 0 <= q < |s.calls| && ReaderWaits(s.calls[q]);
      assert ReaderWaits(s'.calls[q]) && !Empty(s'.ring);
    }
  }

  lemma ReadSleepers(s: State, p: nat)
    requires Inv(s) && EndsOk(s) && SleepersRight(s) && Enabled(s, Turn(p)) && s.calls[p].Reading?
    ensures SleepersRight(Next(s, Turn(p))) && EndsOk(Next(s, Turn(p)))
  {
    DrainQueue(s.ring, s.calls[p].n, []);
    TestsExact(s.ring);
  }

  /** One step keeps the sleepers right exactly when it does not strand a reader. */
  lemma StepSleepers(s: State, t: Step)
    requires Inv(s) && EndsOk(s) && SleepersRight(s)
    ensures SleepersRight(Next(s, t)) <==> !Strands(s, t)
    ensures EndsOk(Next(s, t))
  {
    if t.Turn? && Enabled(s, t) {
      if s.calls[t.p].Writing? {
        WriteSleepers(s, t.p);
      } else {
        ReadSleepers(s, t.p);
      }
    }
  }

  /** No step of the run strands a reader; so it is in every run without kill. */
  predicate NeverStrands(s: State, run: Run)
    requires Init(s)
  {
    match run
    case Start => true
    case Then(before, t) => NeverStrands(s, before) && !Strands(After(s, before), t)
  }

  predicate WithoutKill(run: Run) {
    match run
    case Start => true
    case Then(before, t) => WithoutKill(before) && !t.Kill?
  }

  lemma {:induction false} WithoutKillNeverStrands(s: State, run: Run)
    requires Init(s) && WithoutKill(run)
    ensures NeverStrands(s, run) && After(s, run).killed == {}
  {
    match run
    case Start =>
    case Then(before, t) => WithoutKillNeverStrands(s, before);
  }

  // ----- where a kill is lost -----

  /** The kill that marked `p` fell between its test of `killed` and its going to sleep. */
  predicate KilledInWindow(s: State, run: Run, p: int)
    requires Init(s) && 0 <= p < |s.calls|
  {
    match run
    case Start => false
    case Then(before, t) =>
      || KilledInWindow(s, before, p)
      || (t == Kill(p) && p !in After(s, before).killed && InWindow(After(s, before).calls[p]))
  }

  /** A marked process does not pass the test again. */
  lemma MarkedTurn(s: State, q: nat, p: int)
    requires Inv(s) && 0 <= p < |s.calls| && Enabled(s, Turn(q)) && p in s.killed
    ensures InWindow(Next(s, Turn(q)).calls[p]) ==> InWindow(s.calls[p])
    ensures Sleeping(Next(s, Turn(q)).calls[p]) ==> Sleeping(s.calls[p])
  {
    assert CallOk(s.calls[q]);
    assert Wake(s.calls, true)[p] == Woken(s.calls[p], true) && Wake(s.calls, false)[p] == Woken(s.calls[p], false);
  }

  lemma MarkedStep(s: State, t: Step, p: int)
    requires Inv(s) && 0 <= p < |s.calls| && p in s.killed
    ensures InWindow(Next(s, t).calls[p]) ==> InWindow(s.calls[p])
    ensures Sleeping(Next(s, t).calls[p]) ==> Sleeping(s.calls[p]) || InWindow(s.calls[p])
  {
    if t.Turn? && Enabled(s, t) {
      MarkedTurn(s, t.p, p);
    }
  }

  lemma MarkingStep(s: State, t: Step, p: int)
    requires Inv(s) && 0 <= p < |s.calls| && p !in s.killed && p in Next(s, t).killed
    ensures t == Kill(p) && !Sleeping(Next(s, t).calls[p])
    ensures InWindow(Next(s, t).calls[p]) <==> InWindow(s.calls[p])
  {
  }

  /** In every run: a process that waits in the pipe although marked was marked in the window. */
  lemma {:induction false} MarkedInWindow(s: State, run: Run, p: int)
    requires Init(s) && 0 <= p < |s.calls|
    ensures var e := After(s, run);
            && (KilledInWindow(s, run, p) ==> p in e.killed)
            && (p in e.killed && (InWindow(e.calls[p]) || Sleeping(e.calls[p])) ==> KilledInWindow(s, run, p))
  {
    match run
    case Start =>
    case Then(before, t) =>
      MarkedInWindow(s, before, p);
      var e := After(s, before);
      if p in e.killed {
        MarkedStep(e, t, p);
      } else if p in Next(e, t).killed {
        MarkingStep(e, t, p);
      }
  }

  /**
    In every run, a process that is asleep in the pipe has been marked by kill
    if and only if the kill fell in the window.
   */
  lemma MarkedAsleepIff(s: State, run: Run, p: int)
    requires Init(s) && 0 <= p < |s.calls| && Sleeping(After(s, run).calls[p])
    ensures p in After(s, run).killed <==> KilledInWindow(s, run, p)
  {
    MarkedInWindow(s, run, p);
  }

  /** One run after the other. */
  function Join(run: Run, more: Run): Run {
    match more
    case Start => run
    case Then(before, t) => Then(Join(run, before), t)
  }

  lemma MarkStays(s: State, t: Step, p: int)
    requires Inv(s) && p in s.killed
    ensures p in Next(s, t).killed
  {
  }

  /** A process is marked once: what comes later does not put its kill in the window. */
  lemma {:induction false} MarkedOnce(s: State, run: Run, more: Run, p: int)
    requires Init(s) && 0 <= p < |s.calls| && p in After(s, run).killed
    ensures p in After(s, Join(run, more)).killed
    ensures KilledInWindow(s, Join(run, more), p) <==> KilledInWindow(s, run, p)
  {
    match more
    case Start =>
    case Then(before, t) =>
      MarkedOnce(s, run, before, p);
      var r := Join(run, before);
      MarkStays(After(s, r), t, p);
      assert Join(run, more) == Then(r, t) && After(s, Then(r, t)) == Next(After(s, r), t);
  }

  /** Marked by kill, and yet asleep in the pipe. */
  predicate SleepsMarked(s: State, p: int)
    requires 0 <= p < |s.calls|
  {
    p in s.killed && Sleeping(s.calls[p])
  }

  /** After `run`, then `more`, the process sleeps marked. */
  ghost predicate LostAfter(s: State, run: Run, more: Run, p: int)
    requires Init(s) && 0 <= p < |s.calls|
  {
    SleepsMarked(After(s, Join(run, more)), p)
  }

  /**
    A kill that marks `p` is lost, that is, `p` may be asleep in the pipe at some
    later time, if and only if it comes while `p` is in the window.
   */
  lemma KillLostIff(s: State, run: Run, p: nat)
    requires Init(s) && p < |s.calls| && p !in After(s, run).killed
    ensures (exists more: Run :: LostAfter(s, Then(run, Kill(p)), more, p)) <==> InWindow(After(s, run).calls[p])
  {
    var hit := Then(run, Kill(p));
    if InWindow(After(s, run).calls[p]) {
      KilledThenDozes(s, run, p);
      assert LostAfter(s, hit, Then(Start, Doze(p)), p) by { assert Join(hit, Start) == hit; }
    }
    if more: Run :| LostAfter(s, hit, more, p) {
      LostInWindow(s, run, more, p);
    }
  }

  lemma KilledThenDozes(s: State, run: Run, p: nat)
    requires Init(s) && p < |s.calls| && InWindow(After(s, run).calls[p])
    ensures SleepsMarked(After(s, Then(Then(run, Kill(p)), Doze(p))), p)
  {
    var hit := Then(run, Kill(p));
    DozesMarked(After(s, run), p);
    assert After(s, hit) == Next(After(s, run), Kill(p));
  }

  lemma LostInWindow(s: State, run: Run, more: Run, p: nat)
    requires Init(s) && p < |s.calls| && p !in After(s, run).killed
    requires SleepsMarked(After(s, Join(Then(run, Kill(p)), more)), p)
    ensures InWindow(After(s, run).calls[p])
  {
    var hit := Then(run, Kill(p));
    MarkedInWindow(s, run, p);
    assert After(s, hit) == Next(After(s, run), Kill(p));
    MarkedOnce(s, hit, more, p);
    MarkedInWindow(s, Join(hit, more), p);
    assert KilledInWindow(s, hit, p);
  }

  lemma DozesMarked(s: State, p: nat)
    requires Inv(s) && p < |s.calls| && InWindow(s.calls[p])
    ensures Next(s, Kill(p)) == s.(killed := s.killed + {p})
    ensures Inv(Next(s, Kill(p))) ==> SleepsMarked(Next(Next(s, Kill(p)), Doze(p)), p)
  {
    assert s.calls[p := Roused(s.calls[p])] == s.calls;
  }

  /** A reader tests, is killed, and goes to sleep all the same. */
  const LOST := Then(Then(TESTED, Kill(0)), Doze(0))

  /** On any new pipe, that run leaves a marked process asleep for as long as nobody writes. */
  lemma KillIsLost(s: State)
    requires Init(s) && |s.calls| >= 1
    ensures SleepsMarked(After(s, LOST), 0)
  {
    ReaderTests(s);
    KilledThenDozes(s, TESTED, 0);
  }

  lemma {:induction false} RunSleepers(s: State, run: Run)
    requires Init(s) && NeverStrands(s, run)
    ensures SleepersRight(After(s, run)) && EndsOk(After(s, run))
  {
    match run
    case Start =>
    case Then(before, t) =>
      RunSleepers(s, before);
      StepSleepers(After(s, before), t);
  }

  /** Readers and writers are never asleep together. */
  lemma NoDeadlock(s: State, run: Run, p: nat, q: nat)
    requires Init(s) && NeverStrands(s, run) && p < |After(s, run).calls| && q < |After(s, run).calls|
    ensures !(ReaderWaits(After(s, run).calls[p]) && WriterWaits(After(s, run).calls[q]))
  {
    RunSleepers(s, run);
    TestsExact(After(s, run).ring);
  }

  /** 513 bytes. */
  const LONG := seq(513, i => 0)

  /** A reader calls and finds nothing. */
  const TESTED := Then(Then(Start, CallRead(0, 1)), Turn(0))

  /** It goes to sleep; then a writer calls, is killed, fills the ring and leaves without a wakeup. */
  const STRANDING := Then(Then(Then(Then(TESTED, Doze(0)), CallWrite(1, LONG)), Kill(1)), Turn(1))

  lemma ReaderCalls(s: State)
    requires Inv(s) && |s.calls| >= 1 && s.calls[0] == Idle && 0 !in s.killed && s.ring.readopen
    ensures Next(s, CallRead(0, 1)) == s.(calls := s.calls[0 := Reading(1, Going)])
  {
  }

  lemma ReaderFindsNothing(s: State)
    requires Inv(s) && |s.calls| >= 1 && s.calls[0] == Reading(1, Going) && 0 !in s.killed && LockFree(s)
    requires Empty(s.ring) && s.ring.writeopen
    ensures Next(s, Turn(0)) == s.(calls := s.calls[0 := Reading(1, Tested)])
    ensures !Strands(s, Turn(0))
  {
  }

  lemma FirstCall(s: State)
    requires Init(s) && |s.calls| >= 1
    ensures After(s, TESTED.before) == s.(calls := s.calls[0 := Reading(1, Going)]) && NeverStrands(s, TESTED.before)
  {
    assert After(s, Start) == s && NeverStrands(s, Start);
    ReaderCalls(s);
  }

  lemma ReaderTests(s: State)
    requires Init(s) && |s.calls| >= 1
    ensures After(s, TESTED) == s.(calls := s.calls[0 := Reading(1, Tested)])
    ensures NeverStrands(s, TESTED)
  {
    FirstCall(s);
    ReaderFindsNothing(After(s, TESTED.before));
  }

  lemma ReaderSleeps(s: State)
    requires Init(s) && |s.calls| >= 2
    ensures After(s, Then(TESTED, Doze(0))) == s.(calls := s.calls[0 := Reading(1, Asleep)])
    ensures NeverStrands(s, Then(TESTED, Doze(0)))
  {
    ReaderTests(s);
    ReaderDozes(After(s, TESTED));
  }

  lemma ReaderDozes(s: State)
    requires Inv(s) && |s.calls| >= 1 && s.calls[0] == Reading(1, Tested)
    ensures Next(s, Doze(0)) == s.(calls := s.calls[0 := Reading(1, Asleep)])
  {
  }

  /** The writer calls and is killed before its first turn. */
  lemma WriterKilled(s: State)
    requires Inv(s) && |s.calls| >= 2 && s.calls[1] == Idle && 1 !in s.killed && s.ring.writeopen
    ensures var t := Next(s, CallWrite(1, LONG));
            && t == s.(calls := s.calls[1 := Writing(LONG, 0, Going)])
            && (Inv(t) ==> Next(t, Kill(1)) == t.(killed := t.killed + {1}))
  {
    var t := s.(calls := s.calls[1 := Writing(LONG, 0, Going)]);
    assert t.calls[1 := Roused(t.calls[1])] == t.calls;
  }

  lemma StrandingSteps(s: State)
    requires Init(s) && |s.calls| >= 2
    ensures var e := After(s, STRANDING.before);
            && e == s.(calls := s.calls[0 := Reading(1, Asleep)][1 := Writing(LONG, 0, Going)], killed := s.killed + {1})
            && NeverStrands(s, STRANDING.before)
  {
    ReaderSleeps(s);
    WriterKilled(After(s, Then(TESTED, Doze(0))));
    assert NeverStrands(s, STRANDING.before.before);
  }

  lemma KillStrandsReader(s: State)
    requires Init(s) && |s.calls| >= 2
    ensures var e := After(s, STRANDING);
            ReaderWaits(e.calls[0]) && Full(e.ring) && !SleepersRight(e)
  {
    StrandingSteps(s);
    var s4 := After(s, STRANDING.before);
    RunSleepers(s, STRANDING.before);
    TestsExact(s.ring);
    assert ReaderWaits(s4.calls[0]) && LockFree(s4);
    assert Strands(s4, Turn(1));
    FillStops(s4.ring, LONG, 0);
    StepSleepers(s4, Turn(1));
  }
}
