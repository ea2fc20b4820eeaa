/**
  What the log promises its clients, with no log in it: an atomic disk.

  Operations write to `current`; a commit, allowed only while no operation is
  open, makes `current` durable; a crash forgets everything since.
 */
module AtomicDisk {
  import opened Disk

  type Pid = nat

  datatype Spec = Spec(durable: map<int, Block>, current: map<int, Block>, active: set<Pid>)

  datatype Event =
    | Began(p: Pid)
    | Wrote(p: Pid, blockno: int, data: Block)
    | Ended(p: Pid)
    | Committed
    | Lost

  predicate Allowed(a: Spec, e: Event) {
    match e
    case Began(p) => p !in a.active
    case Wrote(p, b, d) => p in a.active && b in a.current
    case Ended(p) => p in a.active
    case Committed => a.active == {}
    case Lost => true
  }

  function Effect(a: Spec, e: Event): Spec {
    match e
    case Began(p) => a.(active := a.active + {p})
    case Wrote(p, b, d) => a.(current := a.current[b := d])
    case Ended(p) => a.(active := a.active - {p})
    case Committed => a.(durable := a.current)
    case Lost => a.(current := a.durable, active := {})
  }

  function Replay(a: Spec, tr: seq<Event>): Spec {
    if tr == [] then a else Effect(Replay(a, tr[..|tr| - 1]), tr[|tr| - 1])
  }

  predicate Legal(a: Spec, tr: seq<Event>) {
    tr == [] || (Legal(a, tr[..|tr| - 1]) && Allowed(Replay(a, tr[..|tr| - 1]), tr[|tr| - 1]))
  }

  /** Operation of `p` that has begun, not ended, and not been lost in a crash. */
  predicate Open(tr: seq<Event>, p: Pid) {
    exists i | 0 <= i < |tr| ::
      tr[i] == Began(p) && forall j | i < j < |tr| :: tr[j] != Ended(p) && tr[j] != Lost
  }

  lemma OpenNext(tr: seq<Event>, e: Event, p: Pid)
    ensures Open(tr + [e], p) <==> e == Began(p) || (Open(tr, p) && e != Ended(p) && e != Lost)
  {
    var u := tr + [e];
    if Open(u, p) {
      var i :| 0 <= i < |u| && u[i] == Began(p) && forall j | i < j < |u| :: u[j] != Ended(p) && u[j] != Lost;
      if i < |tr| {
        assert u[|tr|] == e;
        assert tr[i] == Began(p) && forall j | i < j < |tr| :: u[j] == tr[j];
      }
    }
    if Open(tr, p) && e != Ended(p) && e != Lost {
      var i :| 0 <= i < |tr| && tr[i] == Began(p) && forall j | i < j < |tr| :: tr[j] != Ended(p) && tr[j] != Lost;
      assert u[i] == Began(p);
    }
    if e == Began(p) {
      assert u[|tr|] == Began(p);
    }
  }

  /** The active set is exactly the open operations of the trace. */
  lemma {:induction false} ActiveIsOpen(a: Spec, tr: seq<Event>, p: Pid)
    requires a.active == {}
    ensures p in Replay(a, tr).active <==> Open(tr, p)
    decreases |tr|
  {
    if tr != [] {
      var k := |tr| - 1;
      ActiveIsOpen(a, tr[..k], p);
      OpenNext(tr[..k], tr[k], p);
      assert tr[..k] + [tr[k]] == tr;
    }
  }

  lemma {:induction false} LegalPrefix(a: Spec, tr: seq<Event>, k: nat)
    requires Legal(a, tr) && k < |tr|
    ensures Legal(a, tr[..k]) && Allowed(Replay(a, tr[..k]), tr[k])
    decreases |tr|
  {
    var n := |tr| - 1;
    if k < n {
      LegalPrefix(a, tr[..n], k);
      assert tr[..n][..k] == tr[..k];
    }
  }

  /** No commit falls inside an operation: its writes are never split across two commits. */
  lemma CommitSplitsNoOperation(a: Spec, tr: seq<Event>, c: nat, p: Pid)
    requires a.active == {} && Legal(a, tr) && c < |tr| && tr[c] == Committed
    ensures !Open(tr[..c], p)
  {
    LegalPrefix(a, tr, c);
    ActiveIsOpen(a, tr[..c], p);
  }

  predicate LastCommit(tr: seq<Event>, c: int) {
    0 <= c < |tr| && tr[c] == Committed && forall j | c < j < |tr| :: tr[j] != Committed
  }

  /** What is durable is the logical disk at the last commit. */
  lemma {:induction false} DurableIsLastCommit(a: Spec, tr: seq<Event>)
    ensures (exists c :: LastCommit(tr, c)) ==>
              exists c :: LastCommit(tr, c) && Replay(a, tr).durable == Replay(a, tr[..c]).current
    ensures (forall c | 0 <= c < |tr| :: tr[c] != Committed) ==> Replay(a, tr).durable == a.durable
    decreases |tr|
  {
    if tr != [] {
      var k := |tr| - 1;
      if tr[k] == Committed {
        assert LastCommit(tr, k);
      } else {
        DurableIsLastCommit(a, tr[..k]);
        if c :| LastCommit(tr, c) {
          assert LastCommit(tr[..k], c);
          var c' :| LastCommit(tr[..k], c') && Replay(a, tr[..k]).durable == Replay(a, tr[..k][..c']).current;
          assert tr[..k][..c'] == tr[..c'];
          assert LastCommit(tr, c');
        }
      }
    }
  }
}

/**
  The log as a machine: any number of processes inside operations, a commit
  that does one block write at a time, clean cache blocks coming and going,
  and a crash at any moment, also during recovery (log.c:69-231).
 */
module GroupCommit {
  import opened Disk
  import opened Recovery
  import opened AtomicDisk

  datatype Buf = Buf(data: Block, dirty: bool)

  /**
    A process inside an operation. `log_write` tests the log's fill level
    before it takes the lock (log.c:216-221), so the test and the append are
    separate steps. `used` counts the log slots the operation has taken.
   */
  datatype Op =
    | Idle(used: nat)
    | Tested(used: nat, blockno: int, data: Block)

  datatype Phase =
    | Running
    | Committing(hb: Block, data: seq<Block>, done: nat)
    | Recovering(image: Image, done: nat)
    | Down
    | Halted

  datatype State = State(
    disk: Image,
    cache: map<int, Buf>,
    lh: seq<int>,
    ops: map<Pid, Op>,
    outstanding: int,
    phase: Phase)

  datatype Step =
    | BeginOp(p: Pid)
    | TestLog(p: Pid, b: int, d: Block)
    | Append(p: Pid)
    | EndOp(p: Pid)
    | CommitIO
    | CommitDone
    | Fill(b: int)
    | Evict(b: int)
    | Crash
    | Boot
    | RecoverIO
    | RecoverDone

  function View(s: State, b: int): Block {
    if b in s.cache then s.cache[b].data else At(s.disk, b)
  }

  predicate Up(s: State) { s.phase.Running? || s.phase.Committing? }

  /** Number of block writes of the commit in progress: none for an empty transaction. */
  function CommitLength(s: State): nat { if s.lh == [] then 0 else 2 * |s.lh| + 2 }

  predicate Enabled(L: Layout, s: State, t: Step) {
    match t
    case BeginOp(p) =>
      s.phase.Running? && p !in s.ops && |s.lh| + (s.outstanding + 1) * MAXOPBLOCKS <= LOGSIZE
    case TestLog(p, b, d) =>
      Up(s) && p in s.ops && s.ops[p].Idle? && L.Home(s.disk, b)
    case Append(p) =>
      Up(s) && p in s.ops && s.ops[p].Tested?
    case EndOp(p) =>
      Up(s) && p in s.ops && s.ops[p].Idle?
    case CommitIO =>
      s.phase.Committing? && s.phase.done < CommitLength(s)
    case CommitDone =>
      s.phase.Committing? && s.phase.done == CommitLength(s)
    case Fill(b) =>
      !s.phase.Down? && !s.phase.Halted? && b !in s.cache && 0 <= b < |s.disk|
    case Evict(b) =>
      b in s.cache && !s.cache[b].dirty
    case Crash => true
    case Boot =>
      s.phase.Down?
    case RecoverIO =>
      s.phase.Recovering? && s.phase.done <= |Logged(L, s.phase.image)|
    case RecoverDone =>
      s.phase.Recovering? && s.phase.done == |Logged(L, s.phase.image)| + 1
  }

  /** A synchronous write through the cache: `bread`, `memmove`, `bwrite`, `brelse`. */
  function WriteThrough(s: State, w: Write): State {
    s.(disk := Apply(s.disk, w), cache := s.cache[w.blockno := Buf(w.data, false)])
  }

  function StartCommit(L: Layout, s: State): State {
    s.(phase := Committing(
      View(s, L.start), seq(|s.lh|, i requires 0 <= i < |s.lh| => View(s, s.lh[i])), 0))
  }

  function CommitNext(L: Layout, s: State): State
    requires s.phase.Committing?
  {
    var Committing(hb, data, done) := s.phase;
    WriteThrough(s, CommitWrite(L, hb, s.lh, data, done)).(phase := Committing(hb, data, done + 1))
  }

  function RecoverNext(L: Layout, s: State): State
    requires s.phase.Recovering?
  {
    var Recovering(image, done) := s.phase;
    WriteThrough(s, RecoveryWrite(L, image, done)).(phase := Recovering(image, done + 1))
  }

  /** One step; a process that cannot take its step (it sleeps, or there is nothing to do) changes nothing. */
  function Next(L: Layout, s: State, t: Step): State {
    if !Enabled(L, s, t) then s else
    match t
    case BeginOp(p) =>
      s.(outstanding := s.outstanding + 1, ops := s.ops[p := Idle(0)])
    case TestLog(p, b, d) =>
      if |s.lh| >= LOGSIZE || |s.lh| >= L.size - 1 || s.outstanding < 1 then s.(phase := Halted)
      else s.(ops := s.ops[p := Tested(s.ops[p].used, b, d)])
    case Append(p) =>
      var Tested(used, b, d) := s.ops[p];
      var fresh' := b !in s.lh;
      s.(lh := if fresh' then s.lh + [b] else s.lh,
         cache := s.cache[b := Buf(d, true)],
         ops := s.ops[p := Idle(if fresh' then used + 1 else used)])
    case EndOp(p) =>
      var s1 := s.(outstanding := s.outstanding - 1, ops := s.ops - {p});
      if s.phase.Committing? then s1.(phase := Halted)
      else if s1.outstanding == 0 then StartCommit(L, s1)
      else s1
    case CommitIO =>
      CommitNext(L, s)
    case CommitDone =>
      s.(phase := Running, lh := [])
    case Fill(b) =>
      s.(cache := s.cache[b := Buf(At(s.disk, b), false)])
    case Evict(b) =>
      s.(cache := s.cache - {b})
    case Crash =>
      State(s.disk, map[], [], map[], 0, Down)
    case Boot =>
      s.(lh := Logged(L, s.disk), phase := Recovering(s.disk, 0))
    case RecoverIO =>
      RecoverNext(L, s)
    case RecoverDone =>
      s.(phase := Running, lh := [])
  }

  /** The test of log.c:216 still holds when the lock has been taken. */
  predicate AppendFits(L: Layout, s: State, t: Step) {
    t.Append? && Enabled(L, s, t) ==>
      s.ops[t.p].blockno in s.lh || (|s.lh| < LOGSIZE && |s.lh| < L.size - 1)
  }

  // ----- invariant -----

  /** Clean buffers agree with the disk; dirty ones belong to the transaction. */
  predicate CacheOk(cache: map<int, Buf>, disk: Image, lh: seq<int>) {
    forall b | b in cache ::
      && 0 <= b < |disk|
      && (!cache[b].dirty ==> cache[b].data == At(disk, b))
      && (cache[b].dirty ==> b in lh)
  }

  predicate Dirty(cache: map<int, Buf>, b: int) { b in cache && cache[b].dirty }

  /** Blocks of the transaction stay in the cache, dirty, until installed; `lo` are installed. */
  predicate Pinned(cache: map<int, Buf>, lh: seq<int>, lo: nat) {
    forall i | 0 <= i < |lh| :: Dirty(cache, lh[i]) <==> lo <= i
  }

  predicate OpsOk(L: Layout, s: State) {
    && s.outstanding == |s.ops|
    && forall p | p in s.ops && s.ops[p].Tested? :: L.Home(s.disk, s.ops[p].blockno)
  }

  /** How many blocks the first `done` writes of a commit have installed. */
  function InstalledCount(s: State, done: nat): nat {
    var n := |s.lh|;
    if done <= n + 1 then 0 else if done <= 2 * n + 1 then done - n - 1 else n
  }

  /** A commit under way: what is planned is what the code would now read. */
  ghost predicate CommitOk(L: Layout, s: State)
    requires s.phase.Committing?
  {
    var Committing(hb, data, done) := s.phase;
    var n := |s.lh|;
    && s.ops == map[] && s.outstanding == 0
    && |data| == n && done <= CommitLength(s)
    && CommitStage(L, s.disk, s.lh, data, done)
    && (done <= n ==> At(s.disk, L.start) == hb)
    && (n < done <= 2 * n + 1 ==> At(s.disk, L.start) == EncodeHead(hb, s.lh))
    && Pinned(s.cache, s.lh, InstalledCount(s, done))
    && forall i | 0 <= i < n :: View(s, s.lh[i]) == data[i]
  }

  ghost predicate RecoveryOk(L: Layout, s: State)
    requires s.phase.Recovering?
  {
    var Recovering(image, done) := s.phase;
    && RecoveryStage(L, image, s.disk, done) && s.lh == Logged(L, image)
    && s.ops == map[] && s.outstanding == 0
    && forall b | b in s.cache :: !s.cache[b].dirty
  }

  ghost predicate Inv(L: Layout, s: State) {
    && Sound(L, s.disk)
    && (s.phase.Running? ==>
          && Logged(L, s.disk) == [] && GoodBlocks(L, s.disk, s.lh)
          && CacheOk(s.cache, s.disk, s.lh) && Pinned(s.cache, s.lh, 0) && OpsOk(L, s))
    && (s.phase.Committing? ==> CacheOk(s.cache, s.disk, s.lh) && CommitOk(L, s))
    && (s.phase.Recovering? ==> CacheOk(s.cache, s.disk, s.lh) && RecoveryOk(L, s))
    && (s.phase.Down? ==> s.cache == map[] && s.lh == [] && s.ops == map[] && s.outstanding == 0)
  }

  ghost predicate Init(L: Layout, s: State) {
    && s.phase.Down? && Sound(L, s.disk)
    && s.cache == map[] && s.lh == [] && s.ops == map[] && s.outstanding == 0
  }

  // ----- refinement of the atomic disk -----

  ghost function DurableMap(L: Layout, d: Image): map<int, Block> {
    map b | 0 <= b < |d| && L.Home(d, b) :: Durable(L, d, b)
  }

  lemma DurableMapSame(L: Layout, d: Image, e: Image)
    requires Sound(L, d) && Sound(L, e) && SameDurable(L, d, e)
    ensures DurableMap(L, d) == DurableMap(L, e)
  {
  }

  ghost function ViewMap(L: Layout, s: State): map<int, Block> {
    map b | 0 <= b < |s.disk| && L.Home(s.disk, b) :: View(s, b)
  }

  /** What clients see now, and what they would see after a crash. */
  ghost function Abs(L: Layout, s: State): Spec {
    var dur := DurableMap(L, s.disk);
    if Up(s) then Spec(dur, ViewMap(L, s), s.ops.Keys) else Spec(dur, dur, {})
  }

  function Events(L: Layout, s: State, t: Step): seq<Event> {
    if !Enabled(L, s, t) then [] else
    match t
    case BeginOp(p) => [Began(p)]
    case TestLog(p, b, d) =>
      if |s.lh| >= LOGSIZE || |s.lh| >= L.size - 1 || s.outstanding < 1 then [Lost] else []
    case Append(p) => [Wrote(p, s.ops[p].blockno, s.ops[p].data)]
    case EndOp(p) => if s.phase.Committing? then [Lost] else [Ended(p)]
    case CommitIO => if s.phase.done == |s.lh| then [Committed] else []
    case Crash => [Lost]
    case _ => []
  }

  ghost predicate KeepsSpec(L: Layout, s: State, t: Step) {
    var s' := Next(L, s, t);
    && Inv(L, s')
    && Legal(Abs(L, s), Events(L, s, t))
    && Abs(L, s') == Replay(Abs(L, s), Events(L, s, t))
  }

  /** Always true; see `Disk.Look`. */
  ghost predicate LookStep(t: Step) { true }

  /** The step keeps the invariant and is the events of the atomic disk it stands for. */
  ghost predicate Refines(L: Layout, s: State, t: Step) {
    forall x {:trigger LookStep(x)} | x == t && LookStep(x) :: KeepsSpec(L, s, x)
  }

  lemma OpenRefines(L: Layout, s: State, t: Step)
    requires Refines(L, s, t)
    ensures KeepsSpec(L, s, t)
  {
    assert LookStep(t);
  }

  lemma OneEvent(a: Spec, e: Event)
    ensures Replay(a, [e]) == Effect(a, e) && (Legal(a, [e]) <==> Allowed(a, e))
  {
    assert [e][..0] == [];
  }

  /** Operations come and go without touching the disk or the cache. */
  lemma OpsChange(L: Layout, s: State, ops: map<Pid, Op>, k: int)
    requires Inv(L, s) && s.phase.Running? && OpsOk(L, s.(ops := ops, outstanding := k))
    ensures var s' := s.(ops := ops, outstanding := k);
            Inv(L, s') && Abs(L, s') == Spec(Abs(L, s).durable, Abs(L, s).current, ops.Keys)
  {
    assert ViewMap(L, s.(ops := ops, outstanding := k)) == ViewMap(L, s);
  }

  lemma BeginOpRefines(L: Layout, s: State, p: Pid)
    requires Inv(L, s) && Enabled(L, s, BeginOp(p))
    ensures Refines(L, s, BeginOp(p))
  {
    var ops := s.ops[p := Idle(0)];
    assert ops.Keys == s.ops.Keys + {p};
    assert |ops| == |ops.Keys|;
    OpsChange(L, s, ops, s.outstanding + 1);
    OneEvent(Abs(L, s), Began(p));
  }

  /** While a commit runs no operation is open, so `end_op` never finds `log.committing` set. */
  lemma CommittingExcludesOps(L: Layout, s: State)
    requires Inv(L, s) && Up(s)
    ensures s.phase.Committing? ==> s.outstanding == 0 && s.ops == map[]
    ensures s.outstanding == |s.ops|
  {
  }

  lemma TestLogInv(L: Layout, s: State, p: Pid, b: int, d: Block)
    requires Inv(L, s) && s.phase.Running? && Enabled(L, s, TestLog(p, b, d))
    ensures var s' := s.(ops := s.ops[p := Tested(s.ops[p].used, b, d)]);
            Inv(L, s') && Abs(L, s') == Abs(L, s)
  {
    var ops := s.ops[p := Tested(s.ops[p].used, b, d)];
    assert ops.Keys == s.ops.Keys;
    assert |ops| == |ops.Keys|;
    OpsChange(L, s, ops, s.outstanding);
  }

  lemma TestLogRefines(L: Layout, s: State, p: Pid, b: int, d: Block)
    requires Inv(L, s) && Enabled(L, s, TestLog(p, b, d))
    ensures Refines(L, s, TestLog(p, b, d))
  {
    CommittingExcludesOps(L, s);
    OneEvent(Abs(L, s), Lost);
    TestLogInv(L, s, p, b, d);
  }

  lemma NoneTwiceAppend(lh: seq<int>, b: int)
    requires NoneTwice(lh) && b !in lh
    ensures NoneTwice(lh + [b])
  {
    OpenNoneTwice(lh);
  }

  lemma AppendInv(L: Layout, s: State, p: Pid)
    requires Inv(L, s) && Enabled(L, s, Append(p)) && AppendFits(L, s, Append(p)) && s.phase.Running?
    ensures Inv(L, Next(L, s, Append(p)))
  {
    var s' := Next(L, s, Append(p));
    assert s'.ops.Keys == s.ops.Keys;
    assert |s'.ops| == |s'.ops.Keys|;
    if s.ops[p].blockno !in s.lh {
      NoneTwiceAppend(s.lh, s.ops[p].blockno);
    }
    assert GoodBlocks(L, s'.disk, s'.lh);
    assert CacheOk(s'.cache, s'.disk, s'.lh);
    assert Pinned(s'.cache, s'.lh, 0);
  }

  lemma AppendAbs(L: Layout, s: State, p: Pid)
    requires s.phase.Running? && OpsOk(L, s) && Enabled(L, s, Append(p))
    ensures var w := Wrote(p, s.ops[p].blockno, s.ops[p].data);
            Allowed(Abs(L, s), w) && Abs(L, Next(L, s, Append(p))) == Effect(Abs(L, s), w)
  {
    var s' := Next(L, s, Append(p));
    assert s'.ops.Keys == s.ops.Keys;
    assert ViewMap(L, s') == ViewMap(L, s)[s.ops[p].blockno := s.ops[p].data];
  }

  lemma AppendRefines(L: Layout, s: State, p: Pid)
    requires Inv(L, s) && Enabled(L, s, Append(p)) && AppendFits(L, s, Append(p))
    ensures Refines(L, s, Append(p))
  {
    CommittingExcludesOps(L, s);
    AppendInv(L, s, p);
    AppendAbs(L, s, p);
    OneEvent(Abs(L, s), Wrote(p, s.ops[p].blockno, s.ops[p].data));
  }

  lemma EndOpInv(L: Layout, s: State, p: Pid)
    requires Inv(L, s) && Enabled(L, s, EndOp(p)) && s.phase.Running?
    ensures Inv(L, Next(L, s, EndOp(p)))
  {
    var s' := Next(L, s, EndOp(p));
    assert (s.ops - {p}).Keys == s.ops.Keys - {p};
    assert |s.ops - {p}| == |s.ops| - 1;
    if s'.outstanding == 0 {
      assert s'.ops == map[];
    }
  }

  lemma EndOpAbs(L: Layout, s: State, p: Pid)
    requires s.phase.Running? && Enabled(L, s, EndOp(p))
    ensures Abs(L, Next(L, s, EndOp(p))) == Effect(Abs(L, s), Ended(p))
  {
    assert (s.ops - {p}).Keys == s.ops.Keys - {p};
    assert ViewMap(L, Next(L, s, EndOp(p))) == ViewMap(L, s);
  }

  lemma EndOpRefines(L: Layout, s: State, p: Pid)
    requires Inv(L, s) && Enabled(L, s, EndOp(p))
    ensures Refines(L, s, EndOp(p))
  {
    CommittingExcludesOps(L, s);
    EndOpInv(L, s, p);
    EndOpAbs(L, s, p);
    OneEvent(Abs(L, s), Ended(p));
  }

  lemma WriteThroughCacheOk(s: State, w: Write)
    requires CacheOk(s.cache, s.disk, s.lh) && 0 <= w.blockno < |s.disk|
    ensures CacheOk(WriteThrough(s, w).cache, WriteThrough(s, w).disk, s.lh)
  {
  }

  /** A commit in progress with a write left to do. */
  ghost predicate MidCommit(L: Layout, s: State) {
    s.phase.Committing? && CacheOk(s.cache, s.disk, s.lh) && CommitOk(L, s) && s.phase.done < CommitLength(s)
  }

  /** The transaction of a commit in progress: distinct home blocks that fit the log. */
  lemma CommitBlocks(L: Layout, s: State)
    requires MidCommit(L, s)
    ensures Sound(L, s.disk) && GoodBlocks(L, s.disk, s.lh)
    ensures s.phase.done == |s.lh| ==> Logged(L, s.disk) == []
  {
    OpenCommit(L, s.disk, s.lh, s.phase.data, s.phase.done);
  }

  /** Every write of a commit goes to the log area or installs a block of the transaction. */
  lemma CommitTarget(L: Layout, s: State)
    requires MidCommit(L, s)
    ensures var w := CommitWrite(L, s.phase.hb, s.lh, s.phase.data, s.phase.done);
            var i := s.phase.done - |s.lh| - 1;
            && 0 <= w.blockno < |s.disk|
            && (0 <= i < |s.lh| ==> w == Write(s.lh[i], View(s, s.lh[i])))
            && (!(0 <= i < |s.lh|) ==> L.InLog(w.blockno))
  {
    CommitBlocks(L, s);
  }

  lemma WriteKeepsView(L: Layout, s: State, w: Write, b: int)
    requires L.Home(s.disk, b)
    requires L.InLog(w.blockno) || View(s, w.blockno) == w.data
    ensures View(WriteThrough(s, w), b) == View(s, b)
  {
  }

  /** A write of a commit leaves every home block reading as before. */
  lemma CommitKeepsView(L: Layout, s: State)
    requires MidCommit(L, s)
    ensures forall b | L.Home(s.disk, b) :: View(CommitNext(L, s), b) == View(s, b)
  {
    var w := CommitWrite(L, s.phase.hb, s.lh, s.phase.data, s.phase.done);
    CommitTarget(L, s);
    forall b | L.Home(s.disk, b)
      ensures View(WriteThrough(s, w), b) == View(s, b)
    {
      WriteKeepsView(L, s, w, b);
    }
  }

  /** Installing the next block unpins it and no other. */
  lemma PinnedAfterWrite(s: State, w: Write, lo: nat)
    requires Pinned(s.cache, s.lh, lo) && NoneTwice(s.lh)
    ensures lo < |s.lh| && w.blockno == s.lh[lo] ==> Pinned(WriteThrough(s, w).cache, s.lh, lo + 1)
    ensures w.blockno !in s.lh ==> Pinned(WriteThrough(s, w).cache, s.lh, lo)
  {
    OpenNoneTwice(s.lh);
  }

  lemma CommitPinned(L: Layout, s: State)
    requires MidCommit(L, s)
    ensures Pinned(CommitNext(L, s).cache, s.lh, InstalledCount(s, s.phase.done + 1))
  {
    CommitTarget(L, s);
    CommitBlocks(L, s);
    PinnedAfterWrite(s, CommitWrite(L, s.phase.hb, s.lh, s.phase.data, s.phase.done), InstalledCount(s, s.phase.done));
  }

  lemma CommitHeader(L: Layout, s: State)
    requires MidCommit(L, s)
    ensures var n, done, d := |s.lh|, s.phase.done + 1, CommitNext(L, s).disk;
            && (done <= n ==> At(d, L.start) == s.phase.hb)
            && (n < done <= 2 * n + 1 ==> At(d, L.start) == EncodeHead(s.phase.hb, s.lh))
  {
    CommitTarget(L, s);
    CommitBlocks(L, s);
  }

  lemma CommitStageNext(L: Layout, s: State)
    requires MidCommit(L, s)
    ensures CommitStage(L, CommitNext(L, s).disk, s.lh, s.phase.data, s.phase.done + 1)
    ensures Sound(L, CommitNext(L, s).disk)
  {
    CommitStep(L, s.phase.hb, s.disk, s.lh, s.phase.data, s.phase.done);
    OpenCommit(L, CommitNext(L, s).disk, s.lh, s.phase.data, s.phase.done + 1);
  }

  lemma CommitCacheNext(L: Layout, s: State)
    requires MidCommit(L, s)
    ensures CacheOk(CommitNext(L, s).cache, CommitNext(L, s).disk, s.lh)
    ensures forall i | 0 <= i < |s.lh| :: View(CommitNext(L, s), s.lh[i]) == s.phase.data[i]
  {
    CommitTarget(L, s);
    WriteThroughCacheOk(s, CommitWrite(L, s.phase.hb, s.lh, s.phase.data, s.phase.done));
    CommitKeepsView(L, s);
    CommitBlocks(L, s);
  }

  lemma CommitIOInv(L: Layout, s: State)
    requires MidCommit(L, s)
    ensures CommitOk(L, CommitNext(L, s)) && Sound(L, CommitNext(L, s).disk)
  {
    CommitStageNext(L, s);
    CommitCacheNext(L, s);
    CommitPinned(L, s);
    CommitHeader(L, s);
  }

  /** At the header write, what clients see becomes what is durable; no other write changes that. */
  lemma CommitPoint(L: Layout, s: State)
    requires MidCommit(L, s)
    ensures DurableMap(L, CommitNext(L, s).disk) ==
            if s.phase.done == |s.lh| then ViewMap(L, s) else DurableMap(L, s.disk)
  {
    var Committing(hb, data, done) := s.phase;
    var d := CommitNext(L, s).disk;
    CommitStep(L, hb, s.disk, s.lh, data, done);
    CommitBlocks(L, s);
    CommitStageNext(L, s);
    if done == |s.lh| {
      forall b | L.Home(s.disk, b)
        ensures Durable(L, d, b) == View(s, b)
      {
        if b in s.lh {
          assert View(s, s.lh[IndexOf(s.lh, b)]) == data[IndexOf(s.lh, b)];
        }
      }
    } else {
      DurableMapSame(L, s.disk, d);
    }
  }

  lemma CommitSameView(L: Layout, s: State)
    requires MidCommit(L, s)
    ensures ViewMap(L, CommitNext(L, s)) == ViewMap(L, s)
  {
    CommitKeepsView(L, s);
  }

  lemma CommitIOAbs(L: Layout, s: State)
    requires MidCommit(L, s)
    ensures Abs(L, CommitNext(L, s)) ==
            if s.phase.done == |s.lh| then Effect(Abs(L, s), Committed) else Abs(L, s)
  {
    CommitSameView(L, s);
    CommitPoint(L, s);
  }

  lemma CommitIOSpec(L: Layout, s: State)
    requires MidCommit(L, s)
    ensures var es := if s.phase.done == |s.lh| then [Committed] else [];
            Legal(Abs(L, s), es) && Abs(L, CommitNext(L, s)) == Replay(Abs(L, s), es)
  {
    CommitIOAbs(L, s);
    OneEvent(Abs(L, s), Committed);
  }

  lemma CommitIOKeeps(L: Layout, s: State)
    requires MidCommit(L, s)
    ensures Inv(L, CommitNext(L, s))
  {
    CommitIOInv(L, s);
    CommitCacheNext(L, s);
  }

  lemma CommitIORefines(L: Layout, s: State)
    requires Inv(L, s) && Enabled(L, s, CommitIO)
    ensures Refines(L, s, CommitIO)
  {
    CommitIOKeeps(L, s);
    CommitIOSpec(L, s);
    assert Next(L, s, CommitIO) == CommitNext(L, s);
  }

  /** A recovery in progress with a write left to do. */
  ghost predicate MidRecovery(L: Layout, s: State) {
    s.phase.Recovering? && CacheOk(s.cache, s.disk, s.lh) && RecoveryOk(L, s) && s.phase.done <= |s.lh|
  }

  lemma RecoverStageNext(L: Layout, s: State)
    requires MidRecovery(L, s)
    ensures var d := RecoverNext(L, s).disk;
            && RecoveryStage(L, s.phase.image, d, s.phase.done + 1) && Sound(L, d)
            && DurableMap(L, d) == DurableMap(L, s.disk)
  {
    var d := RecoverNext(L, s).disk;
    OpenRecovery(L, s.phase.image, s.disk, s.phase.done);
    RecoveryStep(L, s.phase.image, s.disk, s.phase.done);
    OpenRecovery(L, s.phase.image, d, s.phase.done + 1);
    DurableMapSame(L, s.disk, d);
  }

  lemma RecoverCacheNext(L: Layout, s: State)
    requires MidRecovery(L, s)
    ensures CacheOk(RecoverNext(L, s).cache, RecoverNext(L, s).disk, s.lh)
  {
    OpenRecovery(L, s.phase.image, s.disk, s.phase.done);
    WriteThroughCacheOk(s, RecoveryWrite(L, s.phase.image, s.phase.done));
  }

  lemma RecoverIOInv(L: Layout, s: State)
    requires MidRecovery(L, s)
    ensures Sound(L, RecoverNext(L, s).disk) && RecoveryOk(L, RecoverNext(L, s))
    ensures DurableMap(L, RecoverNext(L, s).disk) == DurableMap(L, s.disk)
  {
    RecoverStageNext(L, s);
  }

  lemma RecoverIORefines(L: Layout, s: State)
    requires Inv(L, s) && Enabled(L, s, RecoverIO)
    ensures Refines(L, s, RecoverIO)
  {
    RecoverIOInv(L, s);
    RecoverCacheNext(L, s);
  }

  lemma CommitDoneRefines(L: Layout, s: State)
    requires Inv(L, s) && Enabled(L, s, CommitDone)
    ensures Refines(L, s, CommitDone)
  {
    var s' := Next(L, s, CommitDone);
    OpenCommit(L, s.disk, s.lh, s.phase.data, s.phase.done);
    assert ViewMap(L, s') == ViewMap(L, s);
  }

  /** Changing which clean blocks are cached changes nothing a client sees. */
  lemma CacheChange(L: Layout, s: State, s': State)
    requires Inv(L, s) && s' == s.(cache := s'.cache) && !s.phase.Down?
    requires !s.phase.Halted? ==> CacheOk(s'.cache, s'.disk, s'.lh)
    requires forall b | 0 <= b < |s.disk| && !s.phase.Halted? :: View(s', b) == View(s, b)
    requires forall b :: Dirty(s'.cache, b) <==> Dirty(s.cache, b)
    ensures Inv(L, s') && Abs(L, s') == Abs(L, s)
  {
    assert ViewMap(L, s') == ViewMap(L, s) || s.phase.Halted?;
    if s.phase.Recovering? {
      assert forall b | b in s'.cache :: !Dirty(s'.cache, b);
    }
  }

  lemma FillRefines(L: Layout, s: State, b: int)
    requires Inv(L, s) && Enabled(L, s, Fill(b))
    ensures Refines(L, s, Fill(b))
  {
    CacheChange(L, s, Next(L, s, Fill(b)));
  }

  lemma EvictRefines(L: Layout, s: State, b: int)
    requires Inv(L, s) && Enabled(L, s, Evict(b))
    ensures Refines(L, s, Evict(b))
  {
    CacheChange(L, s, Next(L, s, Evict(b)));
  }

  lemma CrashRefines(L: Layout, s: State)
    requires Inv(L, s)
    ensures Refines(L, s, Crash)
  {
    OneEvent(Abs(L, s), Lost);
  }

  lemma BootRefines(L: Layout, s: State)
    requires Inv(L, s) && Enabled(L, s, Boot)
    ensures Refines(L, s, Boot)
  {
  }

  lemma RecoverDoneRefines(L: Layout, s: State)
    requires Inv(L, s) && Enabled(L, s, RecoverDone)
    ensures Refines(L, s, RecoverDone)
  {
    var s' := Next(L, s, RecoverDone);
    OpenRecovery(L, s.phase.image, s.disk, s.phase.done);
    assert ViewMap(L, s') == DurableMap(L, s.disk);
  }

  /** When a commit is done, the home blocks on disk have caught up with what clients see. */
  lemma HomeCaughtUp(L: Layout, s: State, b: int)
    requires Inv(L, s) && Enabled(L, s, CommitDone) && L.Home(s.disk, b)
    ensures At(s.disk, b) == View(s, b)
  {
    OpenCommit(L, s.disk, s.lh, s.phase.data, s.phase.done);
    if Dirty(s.cache, b) {
      assert s.lh[IndexOf(s.lh, b)] == b;
    }
  }

  lemma StepRefines(L: Layout, s: State, t: Step)
    requires Inv(L, s) && AppendFits(L, s, t)
    ensures Refines(L, s, t)
  {
    if Enabled(L, s, t) {
      match t
      case BeginOp(p) => BeginOpRefines(L, s, p);
      case TestLog(p, b, d) => TestLogRefines(L, s, p, b, d);
      case Append(p) => AppendRefines(L, s, p);
      case EndOp(p) => EndOpRefines(L, s, p);
      case CommitIO => CommitIORefines(L, s);
      case CommitDone => CommitDoneRefines(L, s);
      case Fill(b) => FillRefines(L, s, b);
      case Evict(b) => EvictRefines(L, s, b);
      case Crash => CrashRefines(L, s);
      case Boot => BootRefines(L, s);
      case RecoverIO => RecoverIORefines(L, s);
      case RecoverDone => RecoverDoneRefines(L, s);
    }
  }

  // ----- whole runs -----

  /** A run: the steps taken so far, latest last. */
  datatype Run = Start | Then(before: Run, t: Step)

  function After(L: Layout, s: State, run: Run): State {
    match run
    case Start => s
    case Then(before, t) => Next(L, After(L, s, before), t)
  }

  function Trace(L: Layout, s: State, run: Run): seq<Event> {
    match run
    case Start => []
    case Then(before, t) => Trace(L, s, before) + Events(L, After(L, s, before), t)
  }

  /** In this run every append still finds room when it has the lock. */
  predicate AppendsFit(L: Layout, s: State, run: Run) {
    match run
    case Start => true
    case Then(before, t) => AppendsFit(L, s, before) && AppendFits(L, After(L, s, before), t)
  }

  lemma ReplayExtend(a: Spec, tr: seq<Event>, es: seq<Event>)
    requires |es| <= 1 && Legal(a, tr) && Legal(Replay(a, tr), es)
    ensures Legal(a, tr + es) && Replay(a, tr + es) == Replay(Replay(a, tr), es)
  {
    if es == [] {
      assert tr + es == tr;
    } else {
      assert (tr + es)[..|tr|] == tr;
      assert es == [es[0]];
      OneEvent(Replay(a, tr), es[0]);
    }
  }

  lemma ExtendRun(L: Layout, s: State, t: Step, a: Spec, tr: seq<Event>)
    requires Inv(L, s) && AppendFits(L, s, t) && Legal(a, tr) && Abs(L, s) == Replay(a, tr)
    ensures Inv(L, Next(L, s, t)) && Legal(a, tr + Events(L, s, t))
    ensures Abs(L, Next(L, s, t)) == Replay(a, tr + Events(L, s, t))
  {
    StepRefines(L, s, t);
    OpenRefines(L, s, t);
    ReplayExtend(a, tr, Events(L, s, t));
  }

  /** Every run of the log is a run of the atomic disk. */
  lemma {:induction false} RunRefines(L: Layout, s: State, run: Run)
    requires Init(L, s) && AppendsFit(L, s, run)
    ensures Inv(L, After(L, s, run))
    ensures Legal(Abs(L, s), Trace(L, s, run))
    ensures Abs(L, After(L, s, run)) == Replay(Abs(L, s), Trace(L, s, run))
  {
    match run
    case Start =>
    case Then(before, t) =>
      RunRefines(L, s, before);
      ExtendRun(L, After(L, s, before), t, Abs(L, s), Trace(L, s, before));
  }

  lemma CommitKeepsOut(L: Layout, e: State, p: Pid)
    requires Inv(L, e)
    ensures e.phase.Committing? ==> e.outstanding == 0 && !Enabled(L, e, EndOp(p))
    ensures Enabled(L, e, EndOp(p)) ==> !Next(L, e, EndOp(p)).phase.Halted?
  {
  }

  /**
    `end_op` never finds `log.committing` set: in every run, a commit in
    progress excludes operations, and no `end_op` halts the machine.
   */
  lemma EndOpNeverPanics(L: Layout, s: State, run: Run, p: Pid)
    requires Init(L, s) && AppendsFit(L, s, run)
    ensures var e := After(L, s, run);
            && (e.phase.Committing? ==> e.outstanding == 0 && !Enabled(L, e, EndOp(p)))
            && (Enabled(L, e, EndOp(p)) ==> !Next(L, e, EndOp(p)).phase.Halted?)
  {
    RunRefines(L, s, run);
    CommitKeepsOut(L, After(L, s, run), p);
  }

  /** Power fails at disk image `d`; after boots cut off at `cuts` and a complete one, home blocks read `m`. */
  ghost predicate RecoversTo(L: Layout, d: Image, cuts: seq<nat>, m: map<int, Block>)
    requires Sound(L, d)
  {
    forall b | L.Home(d, b) :: b in m && At(Recovered(L, Reboots(L, d, cuts)), b) == m[b]
  }

  /**
    Group commit over whole runs. Take any interleaving of any number of
    operations, cache traffic and earlier crashes, and lose power at its end,
    then any number of times during recovery. What the completed recovery
    leaves is the logical disk at the last commit of the run (or the initial
    durable disk if there was none), and no operation was open at that commit.
   */
  lemma CrashAnywhere(L: Layout, s: State, run: Run, cuts: seq<nat>)
    requires Init(L, s) && AppendsFit(L, s, run)
    ensures Sound(L, After(L, s, run).disk)
    ensures var tr := Trace(L, s, run);
            if exists c :: LastCommit(tr, c) then
              exists c :: LastCommit(tr, c)
                && RecoversTo(L, After(L, s, run).disk, cuts, Replay(Abs(L, s), tr[..c]).current)
                && forall p :: !Open(tr[..c], p)
            else
              RecoversTo(L, After(L, s, run).disk, cuts, Abs(L, s).durable)
  {
    var tr, a, d := Trace(L, s, run), Abs(L, s), After(L, s, run).disk;
    RunRefines(L, s, run);
    RecoverySurvivesCrashes(L, d, cuts);
    assert RecoversTo(L, d, cuts, Replay(a, tr).durable);
    DurableIsLastCommit(a, tr);
    if exists c :: LastCommit(tr, c) {
      var c :| LastCommit(tr, c) && Replay(a, tr).durable == Replay(a, tr[..c]).current;
      forall p
        ensures !Open(tr[..c], p)
      {
        CommitSplitsNoOperation(a, tr, c, p);
      }
    } else {
      NoCommit(tr);
    }
  }

  lemma {:induction false} NoCommit(tr: seq<Event>)
    requires !exists c :: LastCommit(tr, c)
    ensures forall c | 0 <= c < |tr| :: tr[c] != Committed
    decreases |tr|
  {
    if tr != [] {
      var k := |tr| - 1;
      if tr[k] == Committed {
        assert LastCommit(tr, k);
      }
      if c :| LastCommit(tr[..k], c) {
        assert LastCommit(tr, c);
      }
      NoCommit(tr[..k]);
    }
  }

  /** The log area is never dirty, so reading it through the cache reads the disk. */
  lemma LogBlockView(L: Layout, s: State, b: int)
    requires CacheOk(s.cache, s.disk, s.lh) && L.InLog(b)
    requires forall i | 0 <= i < |s.lh| :: !L.InLog(s.lh[i])
    ensures View(s, b) == At(s.disk, b)
  {
  }

  lemma CommitReads(L: Layout, s: State, i: nat)
    requires MidCommit(L, s) && i < |s.lh|
    ensures View(s, L.start) == At(s.disk, L.start)
    ensures i < s.phase.done ==> View(s, L.start + 1 + i) == s.phase.data[i]
  {
    OpenCommit(L, s.disk, s.lh, s.phase.data, s.phase.done);
    assert forall k | 0 <= k < |s.lh| :: L.Home(s.disk, s.lh[k]);
    LogBlockView(L, s, L.start);
    LogBlockView(L, s, L.start + 1 + i);
  }

  /**
    What each write of a commit copies is what the code's own reads would
    return at that moment: nothing the transaction covers changes under it.
   */
  lemma CommitReadsCurrent(L: Layout, s: State)
    requires Inv(L, s) && Enabled(L, s, CommitIO)
    ensures var n, done := |s.lh|, s.phase.done;
            CommitWrite(L, s.phase.hb, s.lh, s.phase.data, done) ==
              if done < n then Write(L.start + 1 + done, View(s, s.lh[done]))
              else if done == n then Write(L.start, EncodeHead(View(s, L.start), s.lh))
              else if done <= 2 * n then Write(s.lh[done - n - 1], View(s, L.start + 1 + (done - n - 1)))
              else Write(L.start, EncodeHead(View(s, L.start), []))
  {
    var i := s.phase.done - |s.lh| - 1;
    CommitReads(L, s, if 0 <= i < |s.lh| then i else 0);
  }
}
