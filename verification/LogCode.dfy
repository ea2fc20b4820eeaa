/**
  log.c as the code it is: the in-memory `log` structure with its block-number
  array, updated in place, and the loops that copy blocks through the cache.
  Every method is proved to be a run of the machine in `GroupCommit`, write by
  write, so what holds of that machine's runs holds of the code.
 */
module LogCode {
  import opened Disk
  import opened Recovery
  import opened AtomicDisk
  import opened GroupCommit

  /** The disk and the buffer cache in front of it. */
  datatype Dev = Dev(disk: Image, cache: map<int, Buf>)

  function DevOf(s: State): Dev { Dev(s.disk, s.cache) }

  /** `bread`: what a read of block `b` returns. */
  function Bread(v: Dev, b: int): Block { if b in v.cache then v.cache[b].data else At(v.disk, b) }

  /** `memmove` into the buffer of `b`, `bwrite`, `brelse`. */
  function Bwrite(v: Dev, b: int, data: Block): Dev {
    Dev(Apply(v.disk, Write(b, data)), v.cache[b := Buf(data, false)])
  }

  // ----- the runs the methods take -----

  /** `k` block writes of a commit. */
  function Commits(k: nat): Run { if k == 0 then Start else Then(Commits(k - 1), CommitIO) }

  /** Boot, and `k` block writes of recovery. */
  function Recovers(k: nat): Run { if k == 0 then Then(Start, Boot) else Then(Recovers(k - 1), RecoverIO) }

  /** One run after the other. */
  function Join(run: Run, more: Run): Run {
    match more
    case Start => run
    case Then(before, t) => Then(Join(run, before), t)
  }

  lemma {:induction false} AfterJoin(L: Layout, s: State, run: Run, more: Run)
    ensures After(L, s, Join(run, more)) == After(L, After(L, s, run), more)
  {
    match more
    case Start =>
    case Then(before, t) => AfterJoin(L, s, run, before);
  }

  lemma {:induction false} FitJoin(L: Layout, s: State, run: Run, more: Run)
    ensures AppendsFit(L, s, Join(run, more)) <==> AppendsFit(L, s, run) && AppendsFit(L, After(L, s, run), more)
  {
    match more
    case Start =>
    case Then(before, t) =>
      FitJoin(L, s, run, before);
      AfterJoin(L, s, run, before);
  }

  /** Always true; see `Disk.Look`. */
  ghost predicate LookAt(s: State) { true }

  /** The invariant, unfolded only where a proof names the state in `LookAt`. */
  ghost predicate Good(L: Layout, s: State) {
    forall x: State {:trigger LookAt(x)} | x == s && LookAt(x) :: Inv(L, x)
  }

  /** `s` is about to do the first write of a commit. */
  ghost predicate CommitBegins(L: Layout, s: State) {
    Good(L, s) && s.phase.Committing? && s.phase.done == 0
  }

  /** `s` is about to do write `k` of the commit that began in `s0`. */
  ghost predicate CommitAt(L: Layout, s0: State, s: State, k: nat) {
    && Good(L, s) && s0.phase.Committing? && s.phase == Committing(s0.phase.hb, s0.phase.data, k)
    && s.lh == s0.lh && s.ops == s0.ops && s.outstanding == s0.outstanding
  }

  lemma GoodNext(L: Layout, s: State, t: Step)
    requires Good(L, s) && AppendFits(L, s, t)
    ensures Good(L, Next(L, s, t))
  {
    assert LookAt(s);
    StepRefines(L, s, t);
    OpenRefines(L, s, t);
  }

  lemma CommitKeeps(L: Layout, s0: State, s: State, k: nat)
    requires CommitAt(L, s0, s, k) && k < CommitLength(s0)
    ensures CommitAt(L, s0, Next(L, s, CommitIO), k + 1)
  {
    GoodNext(L, s, CommitIO);
  }

  /** The writes of a commit or of recovery append nothing to the log. */
  lemma {:induction false} WritesFit(L: Layout, s: State, k: nat)
    ensures AppendsFit(L, s, Commits(k)) && AppendsFit(L, s, Recovers(k))
  {
    if k > 0 {
      WritesFit(L, s, k - 1);
    } else {
      assert AppendsFit(L, s, Start);
    }
  }

  lemma {:induction false} CommitProgress(L: Layout, s: State, k: nat)
    requires CommitBegins(L, s) && k <= CommitLength(s)
    ensures CommitAt(L, s, After(L, s, Commits(k)), k)
  {
    if k > 0 {
      CommitProgress(L, s, k - 1);
      CommitKeeps(L, s, After(L, s, Commits(k - 1)), k - 1);
    }
  }

  /** The device after write `k` of a commit, as the code computes it from the device before. */
  function CommitTurn(L: Layout, v: Dev, blocks: seq<int>, k: nat): Dev {
    var n := |blocks|;
    if k < n then Bwrite(v, L.start + 1 + k, Bread(v, blocks[k]))
    else if k == n then Bwrite(v, L.start, EncodeHead(Bread(v, L.start), blocks))
    else if k <= 2 * n then Bwrite(v, blocks[k - n - 1], Bread(v, L.start + 1 + (k - n - 1)))
    else Bwrite(v, L.start, EncodeHead(Bread(v, L.start), []))
  }

  lemma CommitTurnIs(L: Layout, s: State)
    requires Inv(L, s) && Enabled(L, s, CommitIO)
    ensures DevOf(Next(L, s, CommitIO)) == CommitTurn(L, DevOf(s), s.lh, s.phase.done)
  {
    CommitReadsCurrent(L, s);
  }

  /** The device after `k` writes of the commit that starts in `s`. */
  function Flushed(L: Layout, s: State, k: nat): Dev { DevOf(After(L, s, Commits(k))) }

  lemma FlushedNext(L: Layout, s: State, k: nat)
    requires CommitBegins(L, s) && k < CommitLength(s)
    ensures Flushed(L, s, k + 1) == CommitTurn(L, Flushed(L, s, k), s.lh, k)
  {
    CommitProgress(L, s, k);
    assert LookAt(After(L, s, Commits(k)));
    CommitTurnIs(L, After(L, s, Commits(k)));
  }

  /** `s` is about to do write `k` of the recovery of the image in `s0`. */
  ghost predicate RecoverAt(L: Layout, s0: State, s: State, k: nat) {
    Good(L, s) && s.phase == Recovering(s0.disk, k) && s.ops == map[] && s.outstanding == 0
  }

  lemma RecoverBegins(L: Layout, s: State)
    requires Init(L, s)
    ensures RecoverAt(L, s, Next(L, s, Boot), 0)
  {
    GoodNext(L, s, Boot);
  }

  lemma RecoverKeeps(L: Layout, s0: State, s: State, k: nat)
    requires RecoverAt(L, s0, s, k) && k <= |Logged(L, s0.disk)|
    ensures RecoverAt(L, s0, Next(L, s, RecoverIO), k + 1)
  {
    GoodNext(L, s, RecoverIO);
  }

  lemma {:induction false} RecoverProgress(L: Layout, s: State, k: nat)
    requires Init(L, s) && k <= |Logged(L, s.disk)| + 1
    ensures RecoverAt(L, s, After(L, s, Recovers(k)), k)
  {
    if k > 0 {
      RecoverProgress(L, s, k - 1);
      RecoverKeeps(L, s, After(L, s, Recovers(k - 1)), k - 1);
    } else {
      RecoverBegins(L, s);
      assert Recovers(0) == Then(Start, Boot) && After(L, s, Start) == s;
    }
  }

  /** The device after write `k` of recovery, as the code computes it from the device before. */
  function RecoverTurn(L: Layout, v: Dev, blocks: seq<int>, k: nat): Dev {
    if k < |blocks| then Bwrite(v, blocks[k], Bread(v, L.start + 1 + k))
    else Bwrite(v, L.start, EncodeHead(Bread(v, L.start), []))
  }

  /** What each write of recovery copies is what the code's own reads return at that moment. */
  lemma RecoverTurnIs(L: Layout, s: State)
    requires Inv(L, s) && Enabled(L, s, RecoverIO)
    ensures DevOf(Next(L, s, RecoverIO)) == RecoverTurn(L, DevOf(s), Logged(L, s.phase.image), s.phase.done)
  {
    OpenRecovery(L, s.phase.image, s.disk, s.phase.done);
    assert forall b | L.InLog(b) :: View(s, b) == At(s.phase.image, b);
  }

  function Replayed(L: Layout, s: State, k: nat): Dev { DevOf(After(L, s, Recovers(k))) }

  lemma ReplayedNext(L: Layout, s: State, k: nat)
    requires Init(L, s) && k <= |Logged(L, s.disk)|
    ensures Replayed(L, s, k + 1) == RecoverTurn(L, Replayed(L, s, k), Logged(L, s.disk), k)
  {
    RecoverProgress(L, s, k);
    assert LookAt(After(L, s, Recovers(k)));
    RecoverTurnIs(L, After(L, s, Recovers(k)));
  }

  // ----- the loops -----

  /** Copy the transaction from the cache to the log blocks. */
  method WriteLog(L: Layout, v: Dev, blocks: seq<int>, ghost s: State) returns (w: Dev)
    requires CommitBegins(L, s) && s.lh == blocks && v == DevOf(s)
    ensures w == Flushed(L, s, |blocks|)
  {
    w := v;
    var tail := 0;
    while tail < |blocks|
      invariant 0 <= tail <= |blocks| && w == Flushed(L, s, tail)
    {
      FlushedNext(L, s, tail);
      var from := Bread(w, blocks[tail]);
      w := Bwrite(w, L.start + tail + 1, from);
      tail := tail + 1;
    }
  }

  /** Write the in-memory header to disk: the count and the first `n` entries, the rest as it was. */
  method WriteHead(L: Layout, v: Dev, blocks: seq<int>) returns (w: Dev)
    requires |blocks| < |Bread(v, L.start).words|
    ensures w == Bwrite(v, L.start, EncodeHead(Bread(v, L.start), blocks))
  {
    var hb := Bread(v, L.start).words;
    var words := hb[0 := |blocks|];
    var i := 0;
    while i < |blocks|
      invariant 0 <= i <= |blocks| && words == [|blocks|] + blocks[..i] + hb[1 + i..]
    {
      words := words[1 + i := blocks[i]];
      i := i + 1;
    }
    assert blocks[..i] == blocks;
    w := Bwrite(v, L.start, Block(words));
  }

  /** Copy committed blocks from the log to their home locations. */
  method InstallTrans(L: Layout, v: Dev, blocks: seq<int>) returns (w: Dev)
    ensures w == InstallTurns(L, v, blocks, |blocks|)
  {
    w := v;
    var tail := 0;
    while tail < |blocks|
      invariant 0 <= tail <= |blocks| && w == InstallTurns(L, v, blocks, tail)
    {
      var lbuf := Bread(w, L.start + tail + 1);
      w := Bwrite(w, blocks[tail], lbuf);
      tail := tail + 1;
    }
  }

  function InstallTurns(L: Layout, v: Dev, blocks: seq<int>, k: nat): Dev
    requires k <= |blocks|
  {
    if k == 0 then v
    else
      var u := InstallTurns(L, v, blocks, k - 1);
      Bwrite(u, blocks[k - 1], Bread(u, L.start + 1 + (k - 1)))
  }

  /** Installing after the header write is the next part of the commit. */
  lemma {:induction false} InstallCommits(L: Layout, s: State, k: nat)
    requires CommitBegins(L, s) && 0 < |s.lh| && k <= |s.lh|
    ensures InstallTurns(L, Flushed(L, s, |s.lh| + 1), s.lh, k) == Flushed(L, s, |s.lh| + 1 + k)
  {
    if k > 0 {
      InstallCommits(L, s, k - 1);
      FlushedNext(L, s, |s.lh| + k);
    }
  }

  /** Installing what the header names is the first part of recovery. */
  lemma {:induction false} InstallRecovers(L: Layout, s: State, k: nat)
    requires Init(L, s) && k <= |Logged(L, s.disk)|
    ensures InstallTurns(L, DevOf(s), Logged(L, s.disk), k) == Replayed(L, s, k)
  {
    if k > 0 {
      InstallRecovers(L, s, k - 1);
      ReplayedNext(L, s, k - 1);
    } else {
      assert After(L, s, Recovers(0)) == Next(L, After(L, s, Start), Boot);
    }
  }

  /** The number of words in the header block. */
  function HeaderSize(L: Layout, v: Dev): int { |Bread(v, L.start).words| }

  lemma TurnKeepsHeader(L: Layout, v: Dev, blocks: seq<int>, k: nat)
    requires forall i | 0 <= i < |blocks| :: blocks[i] != L.start
    requires |blocks| < HeaderSize(L, v)
    ensures HeaderSize(L, CommitTurn(L, v, blocks, k)) == HeaderSize(L, v)
  {
  }

  lemma {:induction false} HeaderKept(L: Layout, s: State, k: nat)
    requires CommitBegins(L, s) && k <= CommitLength(s)
    requires LOGSIZE < HeaderSize(L, DevOf(s))
    requires |s.lh| <= LOGSIZE && forall i | 0 <= i < |s.lh| :: s.lh[i] != L.start
    ensures HeaderSize(L, Flushed(L, s, k)) == HeaderSize(L, DevOf(s))
  {
    if k > 0 {
      HeaderKept(L, s, k - 1);
      FlushedNext(L, s, k - 1);
      TurnKeepsHeader(L, Flushed(L, s, k - 1), s.lh, k - 1);
    }
  }

  /** A transaction being committed fits the header and does not name the header block. */
  lemma HeaderNotLogged(L: Layout, s: State)
    requires CommitBegins(L, s)
    ensures |s.lh| <= LOGSIZE && forall i | 0 <= i < |s.lh| :: s.lh[i] != L.start
  {
    assert LookAt(s);
    OpenCommit(L, s.disk, s.lh, s.phase.data, s.phase.done);
    assert forall i | 0 <= i < |s.lh| :: L.Home(s.disk, s.lh[i]);
  }

  /** The two header writes of a commit. */
  lemma HeaderTurns(L: Layout, s: State)
    requires CommitBegins(L, s) && 0 < |s.lh|
    ensures var v := Flushed(L, s, |s.lh|);
            Flushed(L, s, |s.lh| + 1) == Bwrite(v, L.start, EncodeHead(Bread(v, L.start), s.lh))
    ensures var v := Flushed(L, s, 2 * |s.lh| + 1);
            Flushed(L, s, CommitLength(s)) == Bwrite(v, L.start, EncodeHead(Bread(v, L.start), []))
  {
    FlushedNext(L, s, |s.lh|);
    FlushedNext(L, s, 2 * |s.lh| + 1);
  }

  /** Write the transaction to the log, commit it, install it, erase the log. */
  method Commit(L: Layout, v: Dev, blocks: seq<int>, ghost s: State) returns (w: Dev)
    requires CommitBegins(L, s) && s.lh == blocks && v == DevOf(s)
    requires LOGSIZE < HeaderSize(L, v)
    ensures w == Flushed(L, s, CommitLength(s))
    ensures LOGSIZE < HeaderSize(L, w)
  {
    w := v;
    HeaderNotLogged(L, s);
    HeaderKept(L, s, CommitLength(s));
    if |blocks| > 0 {
      w := WriteLog(L, w, blocks, s);
      HeaderTurns(L, s);
      HeaderKept(L, s, |blocks|);
      w := WriteHead(L, w, blocks);
      w := InstallTrans(L, w, blocks);
      InstallCommits(L, s, |blocks|);
      HeaderKept(L, s, 2 * |blocks| + 1);
      w := WriteHead(L, w, []);
    }
  }

  /** Everything written in operations that are over is at home on the disk, and reads as it did. */
  ghost predicate AllHome(L: Layout, before: Dev, after: Dev) {
    && |after.disk| == |before.disk|
    && forall b | L.Home(before.disk, b) :: At(after.disk, b) == Bread(after, b) == Bread(before, b)
  }

  lemma CommitViewStep(L: Layout, s0: State, e: State, k: nat, b: int)
    requires CommitAt(L, s0, e, k) && k < CommitLength(s0) && L.Home(e.disk, b)
    ensures var e' := Next(L, e, CommitIO);
            |e'.disk| == |e.disk| && Bread(DevOf(e'), b) == Bread(DevOf(e), b)
  {
    assert LookAt(e);
    CommitKeepsView(L, e);
  }

  lemma {:induction false} CommitsKeepView(L: Layout, s: State, k: nat, b: int)
    requires CommitBegins(L, s) && k <= CommitLength(s) && L.Home(s.disk, b)
    ensures |Flushed(L, s, k).disk| == |s.disk| && Bread(Flushed(L, s, k), b) == Bread(DevOf(s), b)
  {
    if k > 0 {
      CommitsKeepView(L, s, k - 1, b);
      CommitProgress(L, s, k - 1);
      CommitViewStep(L, s, After(L, s, Commits(k - 1)), k - 1, b);
    }
  }

  /** What the last `end_op` commits is durable when it returns. */
  lemma CommitBringsHome(L: Layout, s: State)
    requires CommitBegins(L, s)
    ensures AllHome(L, DevOf(s), Flushed(L, s, CommitLength(s)))
  {
    var n := CommitLength(s);
    CommitProgress(L, s, n);
    var e := After(L, s, Commits(n));
    assert LookAt(e);
    CommitsKeepSize(L, s, n);
    forall b | L.Home(s.disk, b)
      ensures At(e.disk, b) == Bread(DevOf(e), b) == Bread(DevOf(s), b)
    {
      CommitsKeepView(L, s, n, b);
      HomeCaughtUp(L, e, b);
    }
  }

  lemma {:induction false} CommitsKeepSize(L: Layout, s: State, k: nat)
    ensures |Flushed(L, s, k).disk| == |s.disk|
  {
    if k > 0 {
      CommitsKeepSize(L, s, k - 1);
    }
  }

  // ----- the log structure -----

  /** The run of `end_op`: the last operation out also commits. */
  function EndRun(L: Layout, s: State, p: Pid): Run {
    var s1 := Next(L, s, Step.EndOp(p));
    if s1.phase.Committing? && s.phase.Running? then
      Then(Join(Then(Start, Step.EndOp(p)), Commits(CommitLength(s1))), CommitDone)
    else Then(Start, Step.EndOp(p))
  }

  /** `Init` states with a header block that has room for a full header. */
  ghost predicate Bootable(L: Layout, s: State) {
    Init(L, s) && LOGSIZE < HeaderSize(L, DevOf(s))
  }

  lemma TurnKeepsSize(L: Layout, v: Dev, blocks: seq<int>, k: nat)
    requires forall i | 0 <= i < |blocks| :: blocks[i] != L.start
    requires 0 < HeaderSize(L, v)
    ensures HeaderSize(L, RecoverTurn(L, v, blocks, k)) == HeaderSize(L, v)
  {
  }

  lemma {:induction false} RecoverHeaderKept(L: Layout, s: State, k: nat)
    requires Bootable(L, s) && k <= |Logged(L, s.disk)| + 1
    ensures HeaderSize(L, Replayed(L, s, k)) == HeaderSize(L, DevOf(s))
  {
    if k == 0 {
      assert After(L, s, Recovers(0)) == Next(L, After(L, s, Start), Boot);
    } else {
      RecoverHeaderKept(L, s, k - 1);
      ReplayedNext(L, s, k - 1);
      assert forall i | 0 <= i < |Logged(L, s.disk)| :: L.Home(s.disk, Logged(L, s.disk)[i]);
      TurnKeepsSize(L, Replayed(L, s, k - 1), Logged(L, s.disk), k - 1);
    }
  }

  /** The whole of recovery: where it ends. */
  lemma RecoverEnds(L: Layout, s: State)
    requires Bootable(L, s)
    ensures var n := |Logged(L, s.disk)|;
            var run := Then(Recovers(n + 1), RecoverDone);
            var e := After(L, s, run);
            && AppendsFit(L, s, run)
            && e == State(Replayed(L, s, n + 1).disk, Replayed(L, s, n + 1).cache, [], map[], 0, Running)
  {
    var n := |Logged(L, s.disk)|;
    RecoverProgress(L, s, n + 1);
    WritesFit(L, s, n + 1);
    RecoverLast(L, s, After(L, s, Recovers(n + 1)), n);
  }

  lemma RecoverLast(L: Layout, s0: State, s: State, n: nat)
    requires n == |Logged(L, s0.disk)| && s.phase == Recovering(s0.disk, n + 1) && s.ops == map[] && s.outstanding == 0
    ensures Next(L, s, RecoverDone) == State(s.disk, s.cache, [], map[], 0, Running)
  {
  }

  /** The whole of `end_op` by the last operation: where it ends. */
  lemma EndCommits(L: Layout, s: State, p: Pid)
    requires Good(L, s) && s.phase.Running? && p in s.ops && s.ops[p].Idle? && s.outstanding == 1
    ensures var s1 := Next(L, s, Step.EndOp(p));
            && CommitBegins(L, s1) && DevOf(s1) == DevOf(s) && s1.lh == s.lh
            && AppendsFit(L, s, EndRun(L, s, p))
            && var w := Flushed(L, s1, CommitLength(s1));
               After(L, s, EndRun(L, s, p)) == State(w.disk, w.cache, [], s.ops - {p}, 0, Running)
  {
    var s1 := Next(L, s, Step.EndOp(p));
    GoodNext(L, s, Step.EndOp(p));
    assert s1.phase.Committing?;
    var one := Then(Start, Step.EndOp(p));
    assert After(L, s, one) == s1 by { assert After(L, s, Start) == s; }
    assert AppendsFit(L, s, one) by { assert AppendsFit(L, s, Start); }
    CommitProgress(L, s1, CommitLength(s1));
    WritesFit(L, s1, CommitLength(s1));
    AfterJoin(L, s, one, Commits(CommitLength(s1)));
    FitJoin(L, s, one, Commits(CommitLength(s1)));
  }

  /** `log_write` when nothing intervenes between its test and its append. */
  lemma LogSteps(L: Layout, s: State, p: Pid, b: int, data: Block)
    requires s.phase.Running? && p in s.ops && s.ops[p].Idle? && L.Home(s.disk, b)
    ensures var s1 := Next(L, s, TestLog(p, b, data));
            var used := s.ops[p].used;
            && AppendFits(L, s1, Append(p))
            && Next(L, s1, Append(p)) ==
               if |s.lh| >= LOGSIZE || |s.lh| >= L.size - 1 || s.outstanding < 1 then s.(phase := Halted)
               else s.(lh := if b in s.lh then s.lh else s.lh + [b],
                       cache := s.cache[b := Buf(data, true)],
                       ops := s.ops[p := Idle(if b in s.lh then used else used + 1)])
  {
    var used := s.ops[p].used;
    assert s.ops[p := Tested(used, b, data)][p := Idle(used)] == s.ops[p := Idle(used)];
    assert s.ops[p := Tested(used, b, data)][p := Idle(used + 1)] == s.ops[p := Idle(used + 1)];
  }

  /** The state with block `b` recorded in the transaction by `p`. */
  function WithBlock(s: State, p: Pid, b: int, data: Block): State
    requires p in s.ops
  {
    s.(lh := if b in s.lh then s.lh else s.lh + [b],
       cache := s.cache[b := Buf(data, true)],
       ops := s.ops[p := Idle(if b in s.lh then s.ops[p].used else s.ops[p].used + 1)])
  }

  /** `log_write` at the end of a run. */
  lemma LogWriteIs(L: Layout, origin: State, history: Run, s: State, p: Pid, b: int, data: Block)
    requires AppendsFit(L, origin, history) && s == After(L, origin, history)
    requires s.phase.Running? && p in s.ops && s.ops[p].Idle? && L.Home(s.disk, b)
    ensures var run := Then(Then(history, TestLog(p, b, data)), Append(p));
            && AppendsFit(L, origin, run)
            && After(L, origin, run) ==
               if |s.lh| >= LOGSIZE || |s.lh| >= L.size - 1 || s.outstanding < 1 then s.(phase := Halted)
               else WithBlock(s, p, b, data)
  {
    LogSteps(L, s, p, b, data);
    assert After(L, origin, Then(history, TestLog(p, b, data))) == Next(L, s, TestLog(p, b, data));
  }

  /** `end_op` at the end of a run. */
  lemma EndOpIs(L: Layout, origin: State, history: Run, s: State, p: Pid)
    requires Init(L, origin) && AppendsFit(L, origin, history) && s == After(L, origin, history)
    requires s.phase.Running? && p in s.ops && s.ops[p].Idle?
    ensures AppendsFit(L, origin, Join(history, EndRun(L, s, p)))
    ensures s.outstanding != 1 ==>
              After(L, origin, Join(history, EndRun(L, s, p))) == s.(outstanding := s.outstanding - 1, ops := s.ops - {p})
    ensures s.outstanding == 1 ==>
              var s1 := Next(L, s, Step.EndOp(p));
              && CommitBegins(L, s1) && DevOf(s1) == DevOf(s) && s1.lh == s.lh
              && var w := Flushed(L, s1, CommitLength(s1));
                 After(L, origin, Join(history, EndRun(L, s, p))) == State(w.disk, w.cache, [], s.ops - {p}, 0, Running)
  {
    RunRefines(L, origin, history);
    AfterJoin(L, origin, history, EndRun(L, s, p));
    FitJoin(L, origin, history, EndRun(L, s, p));
    if s.outstanding == 1 {
      EndCommits(L, s, p);
    } else {
      assert After(L, s, Start) == s && AppendsFit(L, s, Start);
    }
  }

  class Log {
    const L: Layout
    var dev: Dev
    var n: int
    const block: array<int>
    var outstanding: int
    var committing: bool
    ghost const origin: State
    ghost var history: Run
    ghost var ops: map<Pid, Op>
    ghost var halted: bool

    /** The machine state this structure stands for between calls. */
    ghost function Now(): State
      requires 0 <= n <= block.Length
      reads this, block
    {
      State(dev.disk, dev.cache, block[..n], ops, outstanding, if halted then Halted else Running)
    }

    ghost predicate Valid()
      reads this, block
    {
      && block.Length == LOGSIZE && 0 <= n <= LOGSIZE && !committing
      && LOGSIZE < HeaderSize(L, dev)
      && Init(L, origin) && AppendsFit(L, origin, history) && Now() == After(L, origin, history)
    }

    /** `initlog`: recover from the log before anything else runs. */
    constructor (L: Layout, disk: Image)
      requires Bootable(L, State(disk, map[], [], map[], 0, Down))
      ensures Valid() && !halted && fresh(block) && this.L == L
      ensures origin == State(disk, map[], [], map[], 0, Down)
      ensures history == Then(Recovers(|Logged(L, disk)| + 1), RecoverDone)
    {
      this.L := L;
      ghost var s := State(disk, map[], [], map[], 0, Down);
      origin := s;
      dev := Dev(disk, map[]);
      n, outstanding, committing, ops, halted := 0, 0, false, map[], false;
      block := new int[LOGSIZE];
      history := Then(Recovers(|Logged(L, disk)| + 1), RecoverDone);
      new;
      ReadHead();
      var blocks := block[..n];
      var w := InstallTrans(L, dev, blocks);
      InstallRecovers(L, s, |blocks|);
      RecoverHeaderKept(L, s, |blocks|);
      n := 0;
      ReplayedNext(L, s, |blocks|);
      w := WriteHead(L, w, []);
      RecoverHeaderKept(L, s, |blocks| + 1);
      RecoverEnds(L, s);
      dev := w;
    }

    /** Read the header into memory. */
    method ReadHead()
      requires block.Length == LOGSIZE && Sound(L, dev.disk) && dev.cache == map[]
      modifies `n, block
      ensures 0 <= n <= LOGSIZE && block[..n] == Logged(L, dev.disk)
    {
      var lh := Bread(dev, L.start).words;
      n := lh[0];
      assert n == |Logged(L, dev.disk)|;
      var i := 0;
      while i < n
        invariant 0 <= i <= n == lh[0] && forall j | 0 <= j < i :: block[j] == lh[1 + j]
      {
        block[i] := lh[1 + i];
        i := i + 1;
      }
    }

    /** One attempt to enter an operation; the caller sleeps and retries when refused. */
    method BeginOp(ghost p: Pid) returns (admitted: bool)
      requires Valid() && !halted && p !in ops
      modifies `outstanding, `history, `ops
      ensures Valid() && history == Then(old(history), Step.BeginOp(p))
      ensures admitted <==> n + (old(outstanding) + 1) * MAXOPBLOCKS <= LOGSIZE
      ensures admitted <==> p in ops
    {
      admitted := !committing && n + (outstanding + 1) * MAXOPBLOCKS <= LOGSIZE;
      if admitted {
        outstanding := outstanding + 1;
        ops := ops[p := Idle(0)];
      }
      history := Then(history, Step.BeginOp(p));
    }

    /** Record a modified block in the transaction and pin it in the cache. */
    method LogWrite(ghost p: Pid, b: int, data: Block) returns (panicked: bool)
      requires Valid() && !halted && p in ops && ops[p].Idle? && L.Home(dev.disk, b)
      modifies `n, `dev, `history, `ops, `halted, block
      ensures Valid() && halted == panicked
      ensures panicked <==> old(n) >= LOGSIZE || old(n) >= L.size - 1 || outstanding < 1
      ensures history == Then(Then(old(history), TestLog(p, b, data)), Append(p))
    {
      ghost var s := Now();
      LogWriteIs(L, origin, history, s, p, b, data);
      panicked := n >= LOGSIZE || n >= L.size - 1 || outstanding < 1;
      history := Then(Then(history, TestLog(p, b, data)), Append(p));
      if panicked {
        halted := true;
        return;
      }
      ops := WithBlock(s, p, b, data).ops;
      AddBlock(b);
      dev := Dev(dev.disk, dev.cache[b := Buf(data, true)]);
      assert Now() == WithBlock(s, p, b, data);
    }

    /** The loop of `log_write`: a block already in the transaction is not listed again. */
    method AddBlock(b: int)
      requires block.Length == LOGSIZE && 0 <= n < LOGSIZE
      modifies `n, block
      ensures 0 <= n <= LOGSIZE
      ensures block[..n] == if b in old(block[..n]) then old(block[..n]) else old(block[..n]) + [b]
    {
      ghost var blocks := block[..n];
      var i := 0;
      while i < n && block[i] != b
        invariant 0 <= i <= n && forall j | 0 <= j < i :: block[j] != b
      {
        i := i + 1;
      }
      block[i] := b;
      if i == n {
        n := n + 1;
        assert block[..n] == blocks + [b] && b !in blocks;
      } else {
        assert block[..n] == blocks && b in blocks;
      }
    }

    /** Leave an operation; the last one out commits. Either way those waiting in `begin_op` are woken. */
    method EndOp(ghost p: Pid) returns (wakes: bool)
      requires Valid() && !halted && p in ops && ops[p].Idle? && outstanding >= 1
      modifies `outstanding, `committing, `dev, `n, `history, `ops
      ensures Valid() && outstanding == old(outstanding) - 1 && p !in ops
      ensures if outstanding == 0 then n == 0 && AllHome(L, old(dev), dev) else n == old(n) && dev == old(dev)
      ensures wakes && !committing
      ensures history == Join(old(history), EndRun(L, old(Now()), p))
    {
      ghost var s := Now();
      EndOpIs(L, origin, history, s, p);
      history := Join(history, EndRun(L, s, p));
      outstanding := outstanding - 1;
      ops := ops - {p};
      if outstanding == 0 {
        committing := true;
        CommitBringsHome(L, Next(L, s, Step.EndOp(p)));
        dev := Commit(L, dev, block[..n], Next(L, s, Step.EndOp(p)));
        n := 0;
        committing := false;
        wakes := true;
      } else {
        wakes := true;
      }
    }

    /** Power fails between two calls, and again during recovery: what `CrashAnywhere` promises. */
    lemma CrashNow(cuts: seq<nat>)
      requires Valid()
      ensures Sound(L, dev.disk)
      ensures var tr := Trace(L, origin, history);
              if exists c :: LastCommit(tr, c) then
                exists c :: LastCommit(tr, c)
                  && RecoversTo(L, dev.disk, cuts, Replay(Abs(L, origin), tr[..c]).current)
                  && forall p :: !Open(tr[..c], p)
              else
                RecoversTo(L, dev.disk, cuts, Abs(L, origin).durable)
    {
      CrashAnywhere(L, origin, history, cuts);
    }
  }
}
