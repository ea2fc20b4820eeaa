/**
  Does `begin_op`'s reservation (log.c:132) keep the log from overflowing when
  every operation logs at most MAXOPBLOCKS new blocks? Exactly when the log
  area is larger than LOGSIZE; the area mkfs lays out (mkfs.c:25) is one short.

  Even then `log_write` tests the fill level (log.c:216) before it looks for the
  block in the log, so a block that needs no slot can meet the panic. Runs in
  quota avoid it exactly if no operation makes more than MAXOPBLOCKS calls.
 */
module Reservation {
  import opened Disk
  import opened Recovery
  import opened AtomicDisk
  import opened GroupCommit

  /** An operation takes a new log slot only while it has one of its MAXOPBLOCKS left. */
  predicate InQuota(L: Layout, s: State, t: Step) {
    t.Append? && Enabled(L, s, t) && s.ops[t.p].blockno !in s.lh ==>
      s.ops[t.p].used < MAXOPBLOCKS
  }

  predicate RunInQuota(L: Layout, s: State, run: Run) {
    match run
    case Start => true
    case Then(before, t) => RunInQuota(L, s, before) && InQuota(L, After(L, s, before), t)
  }

  /** How often `log_write` has been called in the operation `p` last began. */
  function CallsMade(L: Layout, s: State, run: Run, p: Pid): nat {
    match run
    case Start => 0
    case Then(before, t) =>
      if !Enabled(L, After(L, s, before), t) then CallsMade(L, s, before, p)
      else if t == BeginOp(p) then 0
      else CallsMade(L, s, before, p) + if t.TestLog? && t.p == p then 1 else 0
  }

  /** No operation calls `log_write` more than `most` times. */
  predicate CallsWithin(L: Layout, s: State, run: Run, most: nat) {
    match run
    case Start => true
    case Then(before, t) =>
      CallsWithin(L, s, before, most)
      && (t.TestLog? && Enabled(L, After(L, s, before), t) ==> CallsMade(L, s, before, t.p) < most)
  }

  /** No call of `log_write` panics. */
  predicate NoPanic(L: Layout, s: State, run: Run) {
    match run
    case Start => true
    case Then(before, t) => NoPanic(L, s, before) && !Panics(L, After(L, s, before), t)
  }

  predicate Panics(L: Layout, s: State, t: Step) { t.TestLog? && Enabled(L, s, t) && Next(L, s, t).phase.Halted? }

  // ----- slots still owed to open operations -----

  ghost function Owed(ops: map<Pid, Op>, ps: set<Pid>): int
    requires ps <= ops.Keys
    decreases ps
  {
    if ps == {} then 0 else
      var p :| p in ps;
      MAXOPBLOCKS - ops[p].used + Owed(ops, ps - {p})
  }

  lemma {:induction false} OwedSplit(ops: map<Pid, Op>, ps: set<Pid>, p: Pid)
    requires ps <= ops.Keys && p in ps
    ensures Owed(ops, ps) == MAXOPBLOCKS - ops[p].used + Owed(ops, ps - {p})
    decreases ps
  {
    var q :| q in ps && Owed(ops, ps) == MAXOPBLOCKS - ops[q].used + Owed(ops, ps - {q});
    if q != p {
      OwedSplit(ops, ps - {q}, p);
      OwedSplit(ops, ps - {p}, q);
      assert ps - {q} - {p} == ps - {p} - {q};
    }
  }

  lemma {:induction false} OwedSame(ops: map<Pid, Op>, ops': map<Pid, Op>, ps: set<Pid>)
    requires ps <= ops.Keys && ps <= ops'.Keys
    requires forall p | p in ps :: ops[p].used == ops'[p].used
    ensures Owed(ops, ps) == Owed(ops', ps)
    decreases ps
  {
    if ps != {} {
      var p :| p in ps;
      OwedSplit(ops, ps, p);
      OwedSplit(ops', ps, p);
      OwedSame(ops, ops', ps - {p});
    }
  }

  lemma {:induction false} OwedBound(ops: map<Pid, Op>, ps: set<Pid>)
    requires ps <= ops.Keys && forall p | p in ps :: ops[p].used <= MAXOPBLOCKS
    ensures 0 <= Owed(ops, ps) <= |ps| * MAXOPBLOCKS
    decreases ps
  {
    if ps != {} {
      var p :| p in ps;
      OwedSplit(ops, ps, p);
      OwedBound(ops, ps - {p});
      assert |ps - {p}| == |ps| - 1;
    }
  }

  /** Slots in use and slots owed never exceed what `begin_op` reserves. */
  ghost predicate Reserved(s: State) {
    && s.outstanding == |s.ops|
    && (forall p | p in s.ops :: s.ops[p].used <= MAXOPBLOCKS)
    && (Up(s) ==> |s.lh| + Owed(s.ops, s.ops.Keys) <= LOGSIZE)
    && (!Up(s) && !s.phase.Halted? ==> s.ops == map[])
  }

  /** `p` alone changed from `was` to `now`. */
  lemma OwedUpdate(ops: map<Pid, Op>, p: Pid, now: Op)
    requires p in ops
    ensures ops[p := now].Keys == ops.Keys
    ensures Owed(ops[p := now], ops.Keys) == Owed(ops, ops.Keys) + ops[p].used - now.used
  {
    var ops' := ops[p := now];
    assert ops'.Keys == ops.Keys;
    OwedSplit(ops, ops.Keys, p);
    OwedSplit(ops', ops.Keys, p);
    OwedSame(ops, ops', ops.Keys - {p});
  }

  lemma ReservedBegin(L: Layout, s: State, p: Pid)
    requires Reserved(s) && Enabled(L, s, BeginOp(p))
    ensures Reserved(Next(L, s, BeginOp(p)))
  {
    var ops' := s.ops[p := Idle(0)];
    assert ops'.Keys == s.ops.Keys + {p} && ops'.Keys - {p} == s.ops.Keys;
    assert |ops'| == |ops'.Keys|;
    OwedSplit(ops', ops'.Keys, p);
    OwedSame(s.ops, ops', s.ops.Keys);
    OwedBound(s.ops, s.ops.Keys);
  }

  lemma ReservedUpdate(L: Layout, s: State, p: Pid, now: Op, lh: seq<int>)
    requires Reserved(s) && p in s.ops && Up(s) && now.used <= MAXOPBLOCKS
    requires |lh| - |s.lh| <= now.used - s.ops[p].used
    ensures Reserved(s.(ops := s.ops[p := now], lh := lh))
  {
    OwedUpdate(s.ops, p, now);
    assert |s.ops[p := now].Keys| == |s.ops.Keys|;
  }

  lemma ReservedEnd(L: Layout, s: State, p: Pid)
    requires Reserved(s) && Enabled(L, s, EndOp(p))
    ensures Reserved(Next(L, s, EndOp(p)))
  {
    var ops' := s.ops - {p};
    assert ops'.Keys == s.ops.Keys - {p};
    assert |ops'| == |s.ops| - 1;
    OwedSplit(s.ops, s.ops.Keys, p);
    OwedSame(s.ops, ops', ops'.Keys);
    OwedBound(s.ops, ops'.Keys);
  }

  lemma ReservedStep(L: Layout, s: State, t: Step)
    requires Reserved(s) && InQuota(L, s, t)
    ensures Reserved(Next(L, s, t))
  {
    if Enabled(L, s, t) {
      match t
      case BeginOp(p) => ReservedBegin(L, s, p);
      case TestLog(p, b, d) => ReservedUpdate(L, s, p, Tested(s.ops[p].used, b, d), s.lh);
      case Append(p) =>
        var s' := Next(L, s, t);
        ReservedUpdate(L, s, p, s'.ops[p], s'.lh);
      case EndOp(p) => ReservedEnd(L, s, p);
      case CommitIO =>
      case CommitDone =>
      case Fill(b) =>
      case Evict(b) =>
      case Crash =>
      case Boot =>
      case RecoverIO =>
      case RecoverDone =>
    }
  }

  /** An append in quota takes at most the last slot of LOGSIZE. */
  lemma QuotaLeavesRoom(L: Layout, s: State, t: Step)
    requires Reserved(s) && InQuota(L, s, t) && L.size > LOGSIZE
    ensures AppendFits(L, s, t)
  {
    if t.Append? && Enabled(L, s, t) && s.ops[t.p].blockno !in s.lh {
      OwedSplit(s.ops, s.ops.Keys, t.p);
      OwedBound(s.ops, s.ops.Keys - {t.p});
    }
  }

  lemma {:induction false} RunReserved(L: Layout, s: State, run: Run)
    requires Init(L, s) && RunInQuota(L, s, run)
    ensures Reserved(After(L, s, run))
  {
    match run
    case Start =>
    case Then(before, t) =>
      RunReserved(L, s, before);
      ReservedStep(L, After(L, s, before), t);
  }

  lemma {:induction false} ReservationSuffices(L: Layout, s: State, run: Run)
    requires Init(L, s) && RunInQuota(L, s, run) && L.size > LOGSIZE
    ensures AppendsFit(L, s, run)
  {
    match run
    case Start =>
    case Then(before, t) =>
      ReservationSuffices(L, s, before);
      RunReserved(L, s, before);
      QuotaLeavesRoom(L, After(L, s, before), t);
  }

  // ----- a log of LOGSIZE blocks or fewer is too small -----

  /** Running, with the log holding exactly the `n` blocks just above the log area. */
  predicate Filled(L: Layout, s: State, n: nat) {
    && s.phase.Running? && L.Fits(s.disk) && s.outstanding >= 1
    && s.lh == seq(n, i => L.start + L.size + i)
  }

  lemma TestStep(L: Layout, s: State, p: Pid, n: nat, b: int)
    requires Filled(L, s, n) && p in s.ops && s.ops[p].Idle?
    requires n < LOGSIZE && n < L.size - 1
    requires L.Home(s.disk, b)
    ensures Next(L, s, TestLog(p, b, ZERO)) == s.(ops := s.ops[p := Tested(s.ops[p].used, b, ZERO)])
    ensures Filled(L, Next(L, s, TestLog(p, b, ZERO)), n)
  {
  }

  lemma AppendStep(L: Layout, s: State, p: Pid, n: nat)
    requires Filled(L, s, n) && p in s.ops && s.ops[p].Tested? && s.ops[p].blockno == L.start + L.size + n
    ensures Filled(L, Next(L, s, Append(p)), n + 1)
    ensures Next(L, s, Append(p)).disk == s.disk
    ensures Next(L, s, Append(p)).ops == s.ops[p := Idle(s.ops[p].used + 1)]
  {
    assert L.start + L.size + n !in s.lh;
    assert s.lh + [L.start + L.size + n] == seq(n + 1, i => L.start + L.size + i);
  }

  /** Process `p` logs the next free block: test, then append. */
  lemma FillOne(L: Layout, s: State, p: Pid, n: nat)
    requires Filled(L, s, n) && p in s.ops && s.ops[p].Idle? && s.ops[p].used < MAXOPBLOCKS
    requires n < LOGSIZE && n < L.size - 1 && L.start + L.size + n < |s.disk|
    ensures var s1 := Next(L, s, TestLog(p, L.start + L.size + n, ZERO));
            var s2 := Next(L, s1, Append(p));
            && InQuota(L, s1, Append(p)) && Filled(L, s2, n + 1)
            && s2.disk == s.disk && s2.ops == s.ops[p := Idle(s.ops[p].used + 1)]
  {
    TestStep(L, s, p, n, L.start + L.size + n);
    var s1 := Next(L, s, TestLog(p, L.start + L.size + n, ZERO));
    AppendStep(L, s1, p, n);
    assert s1.ops[p := Idle(s.ops[p].used + 1)] == s.ops[p := Idle(s.ops[p].used + 1)];
  }

  /** `q` blocks for process 0, `q` for process 1, the rest for process 2. */
  function Turn(q: nat, n: nat): Pid { if n < q then 0 else if n < 2 * q then 1 else 2 }

  function Share(q: nat, p: Pid, n: nat): nat {
    if p == 0 then (if n < q then n else q)
    else if p == 1 then (if n < q then 0 else if n < 2 * q then n - q else q)
    else if p == 2 then (if n < 2 * q then 0 else n - 2 * q)
    else 0
  }

  function ShareOps(q: nat, n: nat): map<Pid, Op> {
    map[0 := Idle(Share(q, 0, n)), 1 := Idle(Share(q, 1, n)), 2 := Idle(Share(q, 2, n))]
  }

  lemma ShareNext(q: nat, n: nat)
    requires q <= MAXOPBLOCKS && n < 2 * q + MAXOPBLOCKS
    ensures Turn(q, n) in ShareOps(q, n) && ShareOps(q, n)[Turn(q, n)].used == Share(q, Turn(q, n), n) < MAXOPBLOCKS
    ensures ShareOps(q, n)[Turn(q, n) := Idle(ShareOps(q, n)[Turn(q, n)].used + 1)] == ShareOps(q, n + 1)
    ensures forall p: Pid :: Share(q, p, n + 1) == Share(q, p, n) + if p == Turn(q, n) then 1 else 0
  {
  }

  /** The run is in quota and has logged `n` blocks, shared out like that, with a call each. */
  ghost predicate FilledRun(L: Layout, s: State, run: Run, q: nat, n: nat) {
    var s' := After(L, s, run);
    && RunInQuota(L, s, run) && Filled(L, s', n) && |s'.disk| == |s.disk| && s'.ops == ShareOps(q, n)
    && CallsWithin(L, s, run, MAXOPBLOCKS) && SharedCalls(L, s, run, q, n)
  }

  ghost predicate SharedCalls(L: Layout, s: State, run: Run, q: nat, n: nat) {
    forall p: Pid | p <= 2 :: CallsMade(L, s, run, p) == Share(q, p, n)
  }

  lemma FillNext(L: Layout, s: State, run: Run, q: nat, k: nat)
    requires FilledRun(L, s, run, q, k) && q <= MAXOPBLOCKS && k < 2 * q + MAXOPBLOCKS
    requires k < LOGSIZE && k < L.size - 1 && L.start + L.size + LOGSIZE <= |s.disk|
    ensures FilledRun(L, s, Then(Then(run, TestLog(Turn(q, k), L.start + L.size + k, ZERO)), Append(Turn(q, k))), q, k + 1)
  {
    ShareNext(q, k);
    FillOne(L, After(L, s, run), Turn(q, k), k);
    FillCalls(L, s, run, q, k);
  }

  lemma FillCalls(L: Layout, s: State, run: Run, q: nat, k: nat)
    requires FilledRun(L, s, run, q, k) && q <= MAXOPBLOCKS && k < 2 * q + MAXOPBLOCKS && L.start + L.size + k < |s.disk|
    ensures var filled := Then(Then(run, TestLog(Turn(q, k), L.start + L.size + k, ZERO)), Append(Turn(q, k)));
            CallsWithin(L, s, filled, MAXOPBLOCKS) && SharedCalls(L, s, filled, q, k + 1)
  {
    ShareNext(q, k);
    var test := Then(run, TestLog(Turn(q, k), L.start + L.size + k, ZERO));
    assert CallsMade(L, s, run, Turn(q, k)) < MAXOPBLOCKS;
    assert CallsWithin(L, s, test, MAXOPBLOCKS);
    forall p: Pid | p <= 2
      ensures CallsMade(L, s, Then(test, Append(Turn(q, k))), p) == Share(q, p, k + 1)
    {
      assert CallsMade(L, s, test, p) == CallsMade(L, s, run, p) + if p == Turn(q, k) then 1 else 0;
    }
  }

  lemma {:induction false} FillUp(L: Layout, s: State, run: Run, q: nat, n: nat) returns (full: Run)
    requires FilledRun(L, s, run, q, 0) && q <= MAXOPBLOCKS && n <= 2 * q + MAXOPBLOCKS
    requires n <= LOGSIZE && n <= L.size - 1 && L.start + L.size + LOGSIZE <= |s.disk|
    ensures FilledRun(L, s, full, q, n)
    decreases n
  {
    full := run;
    if n > 0 {
      var k := n - 1;
      full := FillUp(L, s, run, q, k);
      FillNext(L, s, full, q, k);
      full := Then(Then(full, TestLog(Turn(q, k), L.start + L.size + k, ZERO)), Append(Turn(q, k)));
    }
  }

  /** The machine on a zeroed disk of `N` blocks, before boot. */
  function PoweredOff(N: nat): State {
    State(seq(N, i => ZERO), map[], [], map[], 0, Down)
  }

  const BOOTED := Then(Then(Then(Start, Boot), RecoverIO), RecoverDone)

  /** The three steps of a boot that finds an empty log. */
  lemma BootSteps(L: Layout, s: State, t: State, u: State)
    requires s.phase.Down? && L.Fits(s.disk) && Logged(L, s.disk) == [] && s.ops == map[] && s.outstanding == 0
    requires t == Next(L, s, Boot) && u == Next(L, t, RecoverIO)
    ensures t.phase == Recovering(s.disk, 0) && u.phase == Recovering(s.disk, 1)
    ensures var e := Next(L, u, RecoverDone);
            e.phase.Running? && |e.disk| == |s.disk| && e.lh == [] && e.ops == map[] && e.outstanding == 0
  {
  }

  /** Boot with an empty log. */
  lemma BootUp(L: Layout, N: nat)
    requires 0 <= L.start && 2 <= L.size && L.start + L.size <= N
    ensures RunInQuota(L, PoweredOff(N), BOOTED)
    ensures var s := After(L, PoweredOff(N), BOOTED);
            s.phase.Running? && |s.disk| == N && s.lh == [] && s.ops == map[] && s.outstanding == 0
  {
    var s, boot := PoweredOff(N), Then(Start, Boot);
    assert Logged(L, s.disk) == [];
    assert After(L, s, Start) == s && RunInQuota(L, s, Start);
    assert RunInQuota(L, s, Then(boot, RecoverIO)) by { assert RunInQuota(L, s, boot); }
    BootSteps(L, s, After(L, s, boot), After(L, s, Then(boot, RecoverIO)));
  }

  lemma BeginStep(L: Layout, s: State, run: Run, p: Pid)
    requires RunInQuota(L, s, run)
    requires var s0 := After(L, s, run); s0.phase.Running? && s0.lh == [] && p !in s0.ops && s0.outstanding <= 2
    ensures RunInQuota(L, s, Then(run, BeginOp(p)))
    ensures var s0 := After(L, s, run);
            After(L, s, Then(run, BeginOp(p))) == s0.(outstanding := s0.outstanding + 1, ops := s0.ops[p := Idle(0)])
  {
  }

  predicate NoTests(run: Run) { run.Then? ==> !run.t.TestLog? && NoTests(run.before) }

  lemma {:induction false} NoTestsNoCalls(L: Layout, s: State, run: Run, p: Pid, most: nat)
    requires NoTests(run)
    ensures CallsMade(L, s, run, p) == 0 && CallsWithin(L, s, run, most)
  {
    if run.Then? {
      NoTestsNoCalls(L, s, run.before, p, most);
    }
  }

  /** Three operations begin; `begin_op` admits all three on an empty log. */
  lemma ThreeBegin(L: Layout, N: nat, q: nat) returns (run: Run)
    requires 0 <= L.start && 2 <= L.size && L.start + L.size <= N
    ensures FilledRun(L, PoweredOff(N), run, q, 0)
  {
    BootUp(L, N);
    BeginStep(L, PoweredOff(N), BOOTED, 0);
    run := Then(BOOTED, BeginOp(0));
    BeginStep(L, PoweredOff(N), run, 1);
    run := Then(run, BeginOp(1));
    BeginStep(L, PoweredOff(N), run, 2);
    run := Then(run, BeginOp(2));
    assert After(L, PoweredOff(N), run).ops == ShareOps(q, 0);
    assert NoTests(run) by { assert NoTests(BOOTED); }
    forall p: Pid
      ensures CallsMade(L, PoweredOff(N), run, p) == 0
    {
      NoTestsNoCalls(L, PoweredOff(N), run, p, MAXOPBLOCKS);
    }
    NoTestsNoCalls(L, PoweredOff(N), run, 0, MAXOPBLOCKS);
  }

  /** Processes 0 and 1 have both passed the test with the log at `n` blocks. */
  predicate BothTested(L: Layout, s: State, n: nat) {
    && Filled(L, s, n) && 0 in s.ops && 1 in s.ops && s.ops[0].Tested? && s.ops[1].Tested?
    && s.ops[0].used < MAXOPBLOCKS && s.ops[1].used < MAXOPBLOCKS
    && s.ops[0].blockno == L.start + L.size + n && s.ops[1].blockno == L.start + L.size + n + 1
  }

  lemma RaceTests(L: Layout, s: State, run: Run) returns (both: Run)
    requires 2 <= L.size <= LOGSIZE && L.start + L.size + LOGSIZE <= |s.disk|
    requires FilledRun(L, s, run, 9, L.size - 2)
    ensures RunInQuota(L, s, both) && BothTested(L, After(L, s, both), L.size - 2)
  {
    var n, s0 := L.size - 2, After(L, s, run);
    TestStep(L, s0, 0, n, L.start + L.size + n);
    both := Then(run, TestLog(0, L.start + L.size + n, ZERO));
    TestStep(L, After(L, s, both), 1, n, L.start + L.size + n + 1);
    both := Then(both, TestLog(1, L.start + L.size + n + 1, ZERO));
  }

  /** Process 0 takes the last slot; process 1's append is in quota and does not fit. */
  lemma RaceOverflows(L: Layout, s: State, run: Run)
    requires 2 <= L.size <= LOGSIZE && RunInQuota(L, s, run) && BothTested(L, After(L, s, run), L.size - 2)
    ensures var over := Then(Then(run, Append(0)), Append(1));
            RunInQuota(L, s, over) && !AppendsFit(L, s, over)
  {
    var n, s0 := L.size - 2, After(L, s, run);
    AppendStep(L, s0, 0, n);
    var s1 := Next(L, s0, Append(0));
    assert After(L, s, Then(run, Append(0))) == s1;
    assert s1.ops[1] == s0.ops[1];
    assert !AppendFits(L, s1, Append(1));
  }

  lemma ReservationFallsShort(L: Layout, N: nat) returns (run: Run)
    requires 0 <= L.start && 2 <= L.size <= LOGSIZE && L.start + L.size + LOGSIZE <= N
    ensures RunInQuota(L, PoweredOff(N), run) && !AppendsFit(L, PoweredOff(N), run)
  {
    var s := PoweredOff(N);
    run := ThreeBegin(L, N, 9);
    run := FillUp(L, s, run, 9, L.size - 2);
    run := RaceTests(L, s, run);
    RaceOverflows(L, s, run);
    run := Then(Then(run, Append(0)), Append(1));
  }

  /** Every run of operations within their quota leaves every append room in the log. */
  ghost predicate QuotaGuaranteesRoom(L: Layout, N: nat) {
    forall s, run | Init(L, s) && |s.disk| == N && RunInQuota(L, s, run) :: AppendsFit(L, s, run)
  }

  /**
    `begin_op`'s reservation is sound exactly when the log area has more than
    LOGSIZE blocks: with the LOGSIZE blocks mkfs lays out, three operations in
    quota overflow it.
   */
  lemma ReservationSoundIff(L: Layout, N: nat)
    requires 0 <= L.start && 2 <= L.size && L.start + L.size + LOGSIZE <= N
    ensures QuotaGuaranteesRoom(L, N) <==> L.size > LOGSIZE
  {
    if L.size > LOGSIZE {
      forall s, run | Init(L, s) && |s.disk| == N && RunInQuota(L, s, run)
        ensures AppendsFit(L, s, run)
      {
        ReservationSuffices(L, s, run);
      }
    } else {
      var run := ReservationFallsShort(L, N);
      assert Logged(L, PoweredOff(N).disk) == [];
      assert Init(L, PoweredOff(N));
    }
  }

  // ----- the test before the absorption -----

  /**
    In a log area larger than LOGSIZE, a call in an operation that keeps to its
    quota panics exactly if the log holds LOGSIZE blocks. Then every open
    operation has used up its slots, so the block needs none.
   */
  lemma PanicsIff(L: Layout, s: State, run: Run, t: Step)
    requires Init(L, s) && RunInQuota(L, s, run) && L.size > LOGSIZE
    requires t.TestLog? && Enabled(L, After(L, s, run), t)
    ensures Panics(L, After(L, s, run), t) <==> |After(L, s, run).lh| == LOGSIZE
    ensures Panics(L, After(L, s, run), t) ==> forall p | p in After(L, s, run).ops :: After(L, s, run).ops[p].used == MAXOPBLOCKS
  {
    var s' := After(L, s, run);
    RunReserved(L, s, run);
    OwedBound(s'.ops, s'.ops.Keys);
    forall p | p in s'.ops && |s'.lh| == LOGSIZE
      ensures s'.ops[p].used == MAXOPBLOCKS
    {
      OwedSplit(s'.ops, s'.ops.Keys, p);
      OwedBound(s'.ops, s'.ops.Keys - {p});
    }
    assert |s'.ops.Keys - {t.p}| + 1 == |s'.ops|;
  }

  /** Slots taken and about to be taken. */
  function Slots(o: Op): nat { o.used + if o.Tested? then 1 else 0 }

  lemma SlotsNext(L: Layout, s: State, t: Step, p: Pid)
    requires Enabled(L, s, t) && p in Next(L, s, t).ops
    ensures var o := Next(L, s, t).ops[p];
            if t == BeginOp(p) then Slots(o) == 0
            else p in s.ops && Slots(o) <= Slots(s.ops[p]) + if t.TestLog? && t.p == p then 1 else 0
  {
  }

  /** A slot takes a call. */
  lemma {:induction false} SlotsAreCalls(L: Layout, s: State, run: Run, p: Pid)
    requires Init(L, s) && p in After(L, s, run).ops
    ensures Slots(After(L, s, run).ops[p]) <= CallsMade(L, s, run, p)
  {
    match run
    case Start =>
    case Then(before, t) =>
      var s' := After(L, s, before);
      if Enabled(L, s', t) {
        SlotsNext(L, s', t, p);
      }
      if p in s'.ops {
        SlotsAreCalls(L, s, before, p);
      }
  }

  lemma {:induction false} CallsKeepQuota(L: Layout, s: State, run: Run, p: Pid, most: nat)
    requires Init(L, s) && CallsWithin(L, s, run, most) && p in After(L, s, run).ops
    ensures CallsMade(L, s, run, p) <= most
  {
    match run
    case Start =>
    case Then(before, t) =>
      if p in After(L, s, before).ops {
        CallsKeepQuota(L, s, before, p, most);
      }
  }

  /** With no more calls than slots, no call panics; nor does any operation exceed its quota. */
  lemma {:induction false} FewCallsSuffice(L: Layout, s: State, run: Run, most: nat)
    requires Init(L, s) && CallsWithin(L, s, run, most) && most <= MAXOPBLOCKS && L.size > LOGSIZE
    ensures RunInQuota(L, s, run) && NoPanic(L, s, run)
  {
    match run
    case Start =>
    case Then(before, t) =>
      FewCallsSuffice(L, s, before, most);
      if (t.TestLog? || t.Append?) && Enabled(L, After(L, s, before), t) {
        SlotsAreCalls(L, s, before, t.p);
        CallsKeepQuota(L, s, before, t.p, most);
        if t.TestLog? {
          PanicsIff(L, s, before, t);
        }
      }
  }

  /** Three operations fill the log with their slots, and one of them writes a block of its own again. */
  lemma CallTooMany(L: Layout, N: nat) returns (run: Run)
    requires 0 <= L.start && LOGSIZE < L.size && L.start + L.size + LOGSIZE <= N
    ensures RunInQuota(L, PoweredOff(N), run) && CallsWithin(L, PoweredOff(N), run, MAXOPBLOCKS + 1) && !NoPanic(L, PoweredOff(N), run)
  {
    var s := PoweredOff(N);
    var full := ThreeBegin(L, N, MAXOPBLOCKS);
    full := FillUp(L, s, full, MAXOPBLOCKS, LOGSIZE);
    MoreCalls(L, s, full, MAXOPBLOCKS, MAXOPBLOCKS + 1);
    var again := TestLog(0, L.start + L.size, ZERO);
    assert Panics(L, After(L, s, full), again);
    run := Then(full, again);
  }

  lemma {:induction false} MoreCalls(L: Layout, s: State, run: Run, most: nat, more: nat)
    requires CallsWithin(L, s, run, most) && most <= more
    ensures CallsWithin(L, s, run, more)
  {
    if run.Then? {
      MoreCalls(L, s, run.before, most, more);
    }
  }

  /** No in-quota run with at most `most` calls of `log_write` per operation panics in one. */
  ghost predicate CallsGuaranteeNoPanic(L: Layout, N: nat, most: nat) {
    forall s, run | Init(L, s) && |s.disk| == N && RunInQuota(L, s, run) && CallsWithin(L, s, run, most) :: NoPanic(L, s, run)
  }

  /** In a log area larger than LOGSIZE that holds exactly up to MAXOPBLOCKS calls, absorbed ones included. */
  lemma NoPanicIff(L: Layout, N: nat, most: nat)
    requires 0 <= L.start && LOGSIZE < L.size && L.start + L.size + LOGSIZE <= N
    ensures CallsGuaranteeNoPanic(L, N, most) <==> most <= MAXOPBLOCKS
  {
    if most <= MAXOPBLOCKS {
      forall s, run | Init(L, s) && |s.disk| == N && RunInQuota(L, s, run) && CallsWithin(L, s, run, most)
        ensures NoPanic(L, s, run)
      {
        FewCallsSuffice(L, s, run, most);
      }
    } else {
      var run := CallTooMany(L, N);
      MoreCalls(L, PoweredOff(N), run, MAXOPBLOCKS + 1, most);
      assert Logged(L, PoweredOff(N).disk) == [];
      assert Init(L, PoweredOff(N));
    }
  }

  /**
    Crash atomicity with no assumption about the log's fill level: in a log area
    larger than LOGSIZE, for operations that keep to their quota.
   */
  lemma CrashAnywhereInQuota(L: Layout, s: State, run: Run, cuts: seq<nat>)
    requires Init(L, s) && RunInQuota(L, s, run) && L.size > LOGSIZE
    ensures Sound(L, After(L, s, run).disk)
    ensures var tr := Trace(L, s, run);
            if exists c :: LastCommit(tr, c) then
              exists c :: LastCommit(tr, c)
                && RecoversTo(L, After(L, s, run).disk, cuts, Replay(Abs(L, s), tr[..c]).current)
                && forall p :: !Open(tr[..c], p)
            else
              RecoversTo(L, After(L, s, run).disk, cuts, Abs(L, s).durable)
  {
    ReservationSuffices(L, s, run);
    CrashAnywhere(L, s, run, cuts);
  }
}
