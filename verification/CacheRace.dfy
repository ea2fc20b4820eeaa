/**
  A commit (log.c:175-200) while other processes use the buffer cache: between
  any two of its turns they `bread` and `brelse` blocks of their own. None of
  them writes, since `begin_op` lets nobody start an operation during a commit
  (log.c:130-132). A turn is what the commit does for one write to the disk.
 */
module CacheRace {
  import opened Disk
  import opened Recovery
  import opened BufferCache
  import opened CacheCommit
  import LogCode

  /** The commit of `blocks`, begun with the machine at `v`, while others may hold `most` buffers at once. */
  datatype Job = Job(L: Layout, blocks: seq<int>, v: Dev, most: nat)

  /** `held` are the blocks other processes have in hand, `k` the turns done. */
  datatype Race = Race(bufs: seq<Buf>, disk: Image, held: set<int>, k: nat)

  // ----- the commit's turns -----

  function Length(j: Job): nat { 2 * |j.blocks| + 2 }

  /** The first block turn `k` reads. A second, if there is one, is waiting for the commit and so is cached. */
  function Wants(j: Job, k: nat): int {
    var n := |j.blocks|;
    if k < n then j.L.start + k + 1 else if n < k <= 2 * n then j.L.start + k - n else j.L.start
  }

  /** The block turn `k` writes. */
  function Target(j: Job, k: nat): int {
    var n := |j.blocks|;
    if k < n then j.L.start + k + 1 else if n < k <= 2 * n then j.blocks[k - n - 1] else j.L.start
  }

  /** What it writes there. */
  ghost function Written(j: Job, s: Race): Block {
    var n := |j.blocks|;
    if s.k < n then View(s.bufs, s.disk, j.blocks[s.k])
    else if s.k == n then EncodeHead(View(s.bufs, s.disk, j.L.start), j.blocks)
    else if s.k <= 2 * n then View(s.bufs, s.disk, j.L.start + s.k - n)
    else EncodeHead(View(s.bufs, s.disk, j.L.start), [])
  }

  /** How many blocks have been installed after `k` turns. */
  function Installed(j: Job, k: nat): nat {
    var n := |j.blocks|;
    if k <= n then 0 else if k <= 2 * n + 1 then k - n - 1 else n
  }

  // ----- steps -----

  predicate Ours(j: Job, no: int) { j.L.InLog(no) || no in j.blocks }

  /** Another process may ask for block `no`: one more buffer is within the bound, and nobody has the block. */
  predicate MayGet(j: Job, s: Race, no: int) {
    !Ours(j, no) && 0 <= no < |s.disk| && no !in s.held && |s.held| < j.most
  }

  /** Its `bread` of block `no` gave it buffer `b`. */
  ghost predicate Gets(j: Job, s: Race, t: Race, no: int, b: int) {
    && MayGet(j, s, no) && Took(s.bufs, s.disk, t.bufs, b, no)
    && t == s.(bufs := t.bufs, held := s.held + {no})
  }

  /** Its `brelse` of that buffer. */
  ghost predicate Puts(s: Race, t: Race, no: int, b: int) {
    && no in s.held && 0 <= b < |s.bufs| && Holds(s.bufs[b], 1, no)
    && t == s.(bufs := s.bufs[b := s.bufs[b].(locked := false, refcnt := s.bufs[b].refcnt - 1)], held := s.held - {no})
  }

  ghost predicate Sound(bufs: seq<Buf>, disk: Image) {
    |bufs| == NBUF && OneBufferPerBlock(bufs) && forall i | 0 <= i < NBUF :: Settled(bufs[i], disk)
  }

  /** The commit's next turn, as `LogBlock`, `WriteHead` and `InstallBlock` do it. */
  ghost predicate Works(j: Job, s: Race, t: Race) {
    && s.k < Length(j) && Room(s.bufs, Wants(j, s.k))
    && Stored(s.bufs, s.disk, t.bufs, t.disk, Target(j, s.k), Written(j, s))
    && Kept(s.bufs, t.bufs) && Sound(t.bufs, t.disk)
    && t.held == s.held && t.k == s.k + 1
  }

  ghost predicate Step(j: Job, s: Race, t: Race) {
    Works(j, s, t) || (exists no, b :: Gets(j, s, t, no, b)) || (exists no, b :: Puts(s, t, no, b))
  }

  datatype Run = Begin(now: Race) | Then(before: Run, now: Race)

  function First(run: Run): Race { if run.Begin? then run.now else First(run.before) }

  ghost predicate IsRun(j: Job, run: Run) { run.Then? ==> IsRun(j, run.before) && Step(j, run.before.now, run.now) }

  // ----- what every step keeps -----

  /** A buffer another process has locked and read in. */
  predicate InHand(b: Buf, disk: Image, no: int) {
    Holds(b, 1, no) && b.locked && b.refcnt == 1 && b.valid && !b.dirty && b.data == At(disk, no)
  }

  ghost predicate HeldOk(bufs: seq<Buf>, disk: Image, held: set<int>) {
    forall no | no in held :: exists i :: 0 <= i < |bufs| && InHand(bufs[i], disk, no)
  }

  function InPlay(j: Job, held: set<int>): set<int> { (set b | b in j.blocks) + held }

  ghost predicate InvState(j: Job, s: Race) {
    && Sound(s.bufs, s.disk) && s.k <= Length(j) && j.blocks != []
    && Working(j.L, j.blocks, s.bufs, s.disk, Turns(j.L, j.v, j.blocks, s.k), Installed(j, s.k))
    && |s.held| <= j.most && (forall no | no in s.held :: !Ours(j, no))
    && BusyIn(s.bufs, InPlay(j, s.held)) && HeldOk(s.bufs, s.disk, s.held)
  }

  /** Always true; see `Disk.Look`. */
  ghost predicate LookRace(s: Race) { true }

  /** The same, unfolded only where a proof names the state in `LookRace`. */
  ghost predicate Inv(j: Job, s: Race) {
    forall x: Race {:trigger LookRace(x)} | x == s && LookRace(x) :: InvState(j, x)
  }

  lemma OpenInv(j: Job, s: Race)
    requires Inv(j, s)
    ensures InvState(j, s)
  {
    assert LookRace(s);
  }

  /** A block that is neither the commit's nor in another hand. */
  lemma Idle(j: Job, s: Race, no: int)
    requires Inv(j, s) && !Ours(j, no) && no !in s.held
    ensures Unused(s.bufs, no) && !Dirties(s.bufs, no) && View(s.bufs, s.disk, no) == At(s.disk, no)
  {
    OpenInv(j, s);
    forall i | 0 <= i < |s.bufs| && Holds(s.bufs[i], 1, no)
      ensures Free(s.bufs[i]) && !s.bufs[i].locked
    {
      assert Settled(s.bufs[i], s.disk);
    }
    CleanView(s.bufs, s.disk, no);
  }

  /** A `bread` changes what no block reads as, and which blocks wait for a commit. */
  lemma TookView(bufs: seq<Buf>, disk: Image, bufs': seq<Buf>, b: int, no: int)
    requires Sound(bufs, disk) && Took(bufs, disk, bufs', b, no)
    ensures OneBufferPerBlock(bufs') && forall x :: View(bufs', disk, x) == View(bufs, disk, x)
  {
    var had := bufs;
    if !Holds(bufs[b], 1, no) {
      RecycleView(bufs, disk, b, 1, no);
      had := bufs[b := Buf(1, no, false, false, 1, bufs[b].locked, bufs[b].data)];
    }
    var data := View(bufs, disk, no);
    ModifyView(had, disk, b, data);
    var read := had[b := had[b].(valid := true, data := data)];
    SameContentsView(read, disk, b, bufs'[b]);
    assert bufs' == read[b := bufs'[b]];
  }

  lemma TookDirties(bufs: seq<Buf>, disk: Image, bufs': seq<Buf>, b: int, no: int, x: int)
    requires OneBufferPerBlock(bufs) && Took(bufs, disk, bufs', b, no)
    ensures Dirties(bufs', x) <==> Dirties(bufs, x)
  {
    if Dirties(bufs, x) {
      var i :| 0 <= i < |bufs| && Holds(bufs[i], 1, x) && bufs[i].dirty;
      assert Holds(bufs'[i], 1, x) && bufs'[i].dirty;
    }
    if Dirties(bufs', x) {
      var i :| 0 <= i < |bufs'| && Holds(bufs'[i], 1, x) && bufs'[i].dirty;
      assert Holds(bufs[i], 1, x) && bufs[i].dirty;
    }
  }

  /** Same reads, same blocks waiting, and none of the commit's blocks in new hands: it is as far as it was. */
  lemma WorkingSame(j: Job, bufs: seq<Buf>, bufs': seq<Buf>, disk: Image, w: Dev, lo: int)
    requires Working(j.L, j.blocks, bufs, disk, w, lo)
    requires forall x :: View(bufs', disk, x) == View(bufs, disk, x)
    requires forall x :: Dirties(bufs', x) <==> Dirties(bufs, x)
    requires forall x | Ours(j, x) && Unused(bufs, x) :: Unused(bufs', x)
    ensures Working(j.L, j.blocks, bufs', disk, w, lo)
  {
    OpenWorking(j.L, j.blocks, bufs, disk, w, lo);
    forall no
      ensures LogCode.Bread(w, no) == View(bufs', disk, no)
    {
      assert LogCode.Bread(w, no) == View(bufs, disk, no);
    }
    assert Sim(w, bufs', disk);
    assert WorkingState(j.L, j.blocks, bufs', disk, w, lo);
  }

  /** Buffers as before but one; those in hand that it was not are in hand still. */
  lemma HeldStays(bufs: seq<Buf>, disk: Image, held: set<int>, bufs': seq<Buf>, b: int, less: set<int>)
    requires HeldOk(bufs, disk, held) && less <= held && |bufs'| == |bufs|
    requires forall i | 0 <= i < |bufs| && i != b :: bufs'[i] == bufs[i]
    requires 0 <= b < |bufs| ==> forall no | no in less :: !InHand(bufs[b], disk, no)
    ensures HeldOk(bufs', disk, less)
  {
    forall no | no in less
      ensures exists i :: 0 <= i < |bufs'| && InHand(bufs'[i], disk, no)
    {
      var i :| 0 <= i < |bufs| && InHand(bufs[i], disk, no);
      assert InHand(bufs'[i], disk, no);
    }
  }

  lemma TookSound(bufs: seq<Buf>, disk: Image, bufs': seq<Buf>, b: int, no: int)
    requires Sound(bufs, disk) && Took(bufs, disk, bufs', b, no)
    ensures Sound(bufs', disk)
  {
    TookView(bufs, disk, bufs', b, no);
    forall i | 0 <= i < NBUF
      ensures Settled(bufs'[i], disk)
    {
      assert Settled(bufs[i], disk);
    }
  }

  lemma TookBusy(bufs: seq<Buf>, disk: Image, bufs': seq<Buf>, b: int, no: int, used: set<int>)
    requires Took(bufs, disk, bufs', b, no) && BusyIn(bufs, used)
    ensures BusyIn(bufs', used + {no})
  {
  }

  lemma TookInHand(bufs: seq<Buf>, disk: Image, bufs': seq<Buf>, b: int, no: int)
    requires Took(bufs, disk, bufs', b, no) && Unused(bufs, no) && !Dirties(bufs, no) && View(bufs, disk, no) == At(disk, no)
    ensures InHand(bufs'[b], disk, no)
  {
    assert Holds(bufs[b], 1, no) ==> Dirties(bufs, no) || !bufs[b].dirty;
  }

  lemma GetKeepsHeld(j: Job, s: Race, t: Race, no: int, b: int)
    requires Inv(j, s) && Gets(j, s, t, no, b)
    ensures HeldOk(t.bufs, t.disk, t.held)
  {
    OpenInv(j, s);
    Idle(j, s, no);
    TookInHand(s.bufs, s.disk, t.bufs, b, no);
    HeldStays(s.bufs, s.disk, s.held, t.bufs, b, s.held);
  }

  lemma TookUnused(bufs: seq<Buf>, disk: Image, bufs': seq<Buf>, b: int, no: int, x: int)
    requires Took(bufs, disk, bufs', b, no) && x != no && Unused(bufs, x)
    ensures Unused(bufs', x)
  {
  }

  lemma GetWorks(j: Job, s: Race, t: Race, no: int, b: int, w: Dev, lo: int)
    requires Sound(s.bufs, s.disk) && Gets(j, s, t, no, b) && Working(j.L, j.blocks, s.bufs, s.disk, w, lo)
    ensures Working(j.L, j.blocks, t.bufs, t.disk, w, lo)
  {
    TookView(s.bufs, s.disk, t.bufs, b, no);
    forall x
      ensures Dirties(t.bufs, x) <==> Dirties(s.bufs, x)
    {
      TookDirties(s.bufs, s.disk, t.bufs, b, no, x);
    }
    forall x | Ours(j, x) && Unused(s.bufs, x)
      ensures Unused(t.bufs, x)
    {
      TookUnused(s.bufs, s.disk, t.bufs, b, no, x);
    }
    WorkingSame(j, s.bufs, t.bufs, s.disk, w, lo);
  }

  lemma GetInv(j: Job, s: Race, t: Race, no: int, b: int)
    requires Inv(j, s) && Gets(j, s, t, no, b)
    ensures Inv(j, t)
  {
    OpenInv(j, s);
    GetKeepsHeld(j, s, t, no, b);
    TookSound(s.bufs, s.disk, t.bufs, b, no);
    TookBusy(s.bufs, s.disk, t.bufs, b, no, InPlay(j, s.held));
    assert InPlay(j, t.held) == InPlay(j, s.held) + {no};
    GetWorks(j, s, t, no, b, Turns(j.L, j.v, j.blocks, s.k), Installed(j, s.k));
  }

  lemma PutKeepsHeld(j: Job, s: Race, t: Race, no: int, b: int)
    requires Inv(j, s) && Puts(s, t, no, b)
    ensures HeldOk(t.bufs, t.disk, t.held) && BusyIn(t.bufs, InPlay(j, t.held)) && Sound(t.bufs, t.disk)
    ensures s.bufs[b].refcnt == 1 && !s.bufs[b].dirty
    ensures forall x :: View(t.bufs, t.disk, x) == View(s.bufs, s.disk, x)
  {
    OpenInv(j, s);
    var i :| 0 <= i < |s.bufs| && InHand(s.bufs[i], s.disk, no);
    assert i == b;
    HeldStays(s.bufs, s.disk, s.held, t.bufs, b, t.held);
    SameContentsView(s.bufs, s.disk, b, t.bufs[b]);
    assert Settled(t.bufs[b], t.disk) && Free(t.bufs[b]);
    assert forall i | 0 <= i < NBUF && i != b :: t.bufs[i] == s.bufs[i] && Settled(s.bufs[i], s.disk);
  }

  lemma PutDirties(s: Race, t: Race, no: int, b: int, x: int)
    requires Puts(s, t, no, b)
    ensures Dirties(t.bufs, x) <==> Dirties(s.bufs, x)
  {
    assert forall i | 0 <= i < |s.bufs| :: Holds(t.bufs[i], s.bufs[i].dev, s.bufs[i].blockno) && t.bufs[i].dirty == s.bufs[i].dirty;
  }

  lemma PutInv(j: Job, s: Race, t: Race, no: int, b: int)
    requires Inv(j, s) && Puts(s, t, no, b)
    ensures Inv(j, t)
  {
    OpenInv(j, s);
    PutKeepsHeld(j, s, t, no, b);
    forall x
      ensures Dirties(t.bufs, x) <==> Dirties(s.bufs, x)
    {
      PutDirties(s, t, no, b, x);
    }
    WorkingSame(j, s.bufs, t.bufs, s.disk, Turns(j.L, j.v, j.blocks, s.k), Installed(j, s.k));
    Within(t.held, s.held);
  }

  lemma TargetOurs(j: Job, k: nat)
    requires k < Length(j) && |j.blocks| < j.L.size
    ensures Ours(j, Target(j, k))
  {
  }

  /** A turn writes none of the blocks in other hands. */
  lemma HeldThrough(bufs: seq<Buf>, disk: Image, held: set<int>, bufs': seq<Buf>, disk': Image, dst: int, data: Block)
    requires HeldOk(bufs, disk, held) && Kept(bufs, bufs') && dst !in held && 0 <= dst < |disk| && disk' == disk[dst := data]
    ensures HeldOk(bufs', disk', held)
  {
    forall no | no in held
      ensures exists i :: 0 <= i < |bufs'| && InHand(bufs'[i], disk', no)
    {
      var i :| 0 <= i < |bufs| && InHand(bufs[i], disk, no);
      assert InHand(bufs'[i], disk', no);
    }
  }

  lemma TurnKeepsHeld(j: Job, s: Race, t: Race)
    requires Inv(j, s) && Works(j, s, t)
    ensures HeldOk(t.bufs, t.disk, t.held) && BusyIn(t.bufs, InPlay(j, t.held))
  {
    OpenInv(j, s);
    KeptBusy(s.bufs, t.bufs, InPlay(j, s.held));
    assert |j.blocks| < j.L.size by {
      OpenWorking(j.L, j.blocks, s.bufs, s.disk, Turns(j.L, j.v, j.blocks, s.k), Installed(j, s.k));
    }
    TargetOurs(j, s.k);
    HeldThrough(s.bufs, s.disk, s.held, t.bufs, t.disk, Target(j, s.k), Written(j, s));
  }

  lemma LogTurnWorks(j: Job, s: Race, t: Race, w: Dev)
    requires s.k < |j.blocks| && w == Turns(j.L, j.v, j.blocks, s.k) && t.k == s.k + 1
    requires Working(j.L, j.blocks, s.bufs, s.disk, w, 0)
    requires Stored(s.bufs, s.disk, t.bufs, t.disk, Target(j, s.k), Written(j, s))
    ensures Working(j.L, j.blocks, t.bufs, t.disk, Turns(j.L, j.v, j.blocks, t.k), 0)
  {
    var w' := LogTurnDone(j.L, j.blocks, s.bufs, s.disk, j.v, w, s.k, t.bufs, t.disk);
    OpenReached(j.L, j.v, j.blocks, t.k, w');
  }

  lemma InstallTurnWorks(j: Job, s: Race, t: Race, w: Dev, i: int)
    requires 0 <= i < |j.blocks| && s.k == |j.blocks| + 1 + i && w == Turns(j.L, j.v, j.blocks, s.k) && t.k == s.k + 1
    requires Working(j.L, j.blocks, s.bufs, s.disk, w, i)
    requires Stored(s.bufs, s.disk, t.bufs, t.disk, Target(j, s.k), Written(j, s))
    ensures Working(j.L, j.blocks, t.bufs, t.disk, Turns(j.L, j.v, j.blocks, t.k), i + 1)
  {
    var w' := InstallTurnDone(j.L, j.blocks, s.bufs, s.disk, j.v, w, i, t.bufs, t.disk);
    OpenReached(j.L, j.v, j.blocks, t.k, w');
  }

  lemma HeadTurnWorks(j: Job, s: Race, t: Race, w: Dev, lo: nat)
    requires (s.k == |j.blocks| || s.k == 2 * |j.blocks| + 1) && w == Turns(j.L, j.v, j.blocks, s.k) && t.k == s.k + 1
    requires j.blocks != [] && Working(j.L, j.blocks, s.bufs, s.disk, w, lo)
    requires Stored(s.bufs, s.disk, t.bufs, t.disk, Target(j, s.k), Written(j, s))
    ensures Working(j.L, j.blocks, t.bufs, t.disk, Turns(j.L, j.v, j.blocks, t.k), lo)
  {
    var lh := if s.k == |j.blocks| then j.blocks else [];
    var w' := HeadTurnDone(j.L, j.blocks, s.bufs, s.disk, j.v, w, lh, s.k, lo, t.bufs, t.disk);
    OpenReached(j.L, j.v, j.blocks, t.k, w');
  }

  lemma TurnWorks(j: Job, s: Race, t: Race)
    requires s.k < Length(j) && j.blocks != [] && t.k == s.k + 1
    requires Working(j.L, j.blocks, s.bufs, s.disk, Turns(j.L, j.v, j.blocks, s.k), Installed(j, s.k))
    requires Stored(s.bufs, s.disk, t.bufs, t.disk, Target(j, s.k), Written(j, s))
    ensures Working(j.L, j.blocks, t.bufs, t.disk, Turns(j.L, j.v, j.blocks, t.k), Installed(j, t.k))
  {
    var n, w := |j.blocks|, Turns(j.L, j.v, j.blocks, s.k);
    if s.k < n {
      assert Installed(j, s.k) == 0 == Installed(j, t.k);
      LogTurnWorks(j, s, t, w);
    } else if n < s.k <= 2 * n {
      assert Installed(j, s.k) == s.k - n - 1 && Installed(j, t.k) == s.k - n;
      InstallTurnWorks(j, s, t, w, s.k - n - 1);
    } else {
      assert Installed(j, s.k) == Installed(j, t.k);
      HeadTurnWorks(j, s, t, w, Installed(j, s.k));
    }
  }

  lemma AsFar(j: Job, s: Race)
    requires Inv(j, s)
    ensures Sim(Turns(j.L, j.v, j.blocks, s.k), s.bufs, s.disk)
  {
    OpenInv(j, s);
    OpenWorking(j.L, j.blocks, s.bufs, s.disk, Turns(j.L, j.v, j.blocks, s.k), Installed(j, s.k));
  }

  lemma TurnInv(j: Job, s: Race, t: Race)
    requires Inv(j, s) && Works(j, s, t)
    ensures Inv(j, t)
  {
    OpenInv(j, s);
    TurnKeepsHeld(j, s, t);
    TurnWorks(j, s, t);
  }

  lemma StepInv(j: Job, s: Race, t: Race)
    requires Inv(j, s) && Step(j, s, t)
    ensures Inv(j, t)
  {
    if Works(j, s, t) {
      TurnInv(j, s, t);
    } else if no, b :| Gets(j, s, t, no, b) {
      GetInv(j, s, t, no, b);
    } else {
      var no, b :| Puts(s, t, no, b);
      PutInv(j, s, t, no, b);
    }
  }

  lemma {:induction false} RunInv(j: Job, run: Run)
    requires IsRun(j, run) && Inv(j, First(run))
    ensures Inv(j, run.now)
  {
    if run.Then? {
      RunInv(j, run.before);
      StepInv(j, run.before.now, run.now);
    }
  }

  /**
    Whatever the others do, the commit is the machine's, turn by turn: the disk
    is what it is after as many turns, and so a panic on the way is a crash.
   */
  lemma RunIsCommit(j: Job, run: Run)
    requires IsRun(j, run) && Inv(j, First(run))
    ensures var s := run.now;
            Sim(Turns(j.L, j.v, j.blocks, s.k), s.bufs, s.disk)
  {
    RunInv(j, run);
    AsFar(j, run.now);
  }

  // ----- when there is a buffer -----

  /** The commit's next `bread` finds a buffer. */
  ghost predicate Served(j: Job, s: Race) { s.k < Length(j) ==> Room(s.bufs, Wants(j, s.k)) }

  /** So does every `bread` another process may make. */
  ghost predicate OthersServed(j: Job, s: Race) { forall no | MayGet(j, s, no) :: Room(s.bufs, no) }

  ghost predicate AlwaysServed(j: Job, s: Race) {
    forall run | IsRun(j, run) && First(run) == s :: Served(j, run.now)
  }

  ghost predicate OthersAlwaysServed(j: Job, s: Race) {
    forall run | IsRun(j, run) && First(run) == s :: OthersServed(j, run.now)
  }

  lemma InPlaySize(j: Job, held: set<int>)
    requires Distinct(j.blocks) && forall no | no in held :: no !in j.blocks
    ensures |InPlay(j, held)| == |j.blocks| + |held|
  {
    SetSize(j.blocks);
    assert (set b | b in j.blocks) * held == {};
  }

  lemma BlocksDistinct(j: Job, s: Race)
    requires Inv(j, s)
    ensures Distinct(j.blocks)
  {
    OpenInv(j, s);
    OpenWorking(j.L, j.blocks, s.bufs, s.disk, Turns(j.L, j.v, j.blocks, s.k), Installed(j, s.k));
    OpenNoneTwice(j.blocks);
  }

  lemma FewEnough(j: Job, s: Race)
    requires Inv(j, s) && |j.blocks| + |s.held| < NBUF
    ensures AnyFree(s.bufs)
  {
    OpenInv(j, s);
    BlocksDistinct(j, s);
    InPlaySize(j, s.held);
    FewLeaveOne(s.bufs, InPlay(j, s.held));
  }

  /** Before the commit has installed anything, its blocks and those held take one buffer each. */
  lemma TooMany(j: Job, s: Race, no: int)
    requires Inv(j, s) && s.k == 0 && NBUF <= |j.blocks| + |s.held| && no !in j.blocks && no !in s.held
    ensures !Room(s.bufs, no)
  {
    OpenInv(j, s);
    OpenWorking(j.L, j.blocks, s.bufs, s.disk, j.v, 0);
    BlocksDistinct(j, s);
    InPlaySize(j, s.held);
    forall b | b in InPlay(j, s.held)
      ensures InUse(s.bufs, b)
    {
      if b in j.blocks {
        DirtyInUse(s.bufs, b);
      } else {
        var i :| 0 <= i < |s.bufs| && InHand(s.bufs[i], s.disk, b);
        assert !Free(s.bufs[i]);
      }
    }
    FullTakesAll(s.bufs, InPlay(j, s.held), no);
  }

  /** Another process's `bread`, when some buffer is free. */
  lemma GetOne(j: Job, s: Race, no: int) returns (t: Race)
    requires Inv(j, s) && MayGet(j, s, no) && AnyFree(s.bufs)
    ensures Step(j, s, t) && Inv(j, t) && t == s.(bufs := t.bufs, held := s.held + {no})
  {
    var b, bufs := CanTake(s.bufs, s.disk, no);
    t := s.(bufs := bufs, held := s.held + {no});
    assert Gets(j, s, t, no, b);
    GetInv(j, s, t, no, b);
  }

  lemma CanTake(bufs: seq<Buf>, disk: Image, no: int) returns (b: int, bufs': seq<Buf>)
    requires AnyFree(bufs)
    ensures Took(bufs, disk, bufs', b, no)
  {
    if Has(bufs, no) {
      b :| 0 <= b < |bufs| && Holds(bufs[b], 1, no);
    } else {
      b :| 0 <= b < |bufs| && Free(bufs[b]);
    }
    var x := Buf(1, no, true, bufs[b].dirty, (if Holds(bufs[b], 1, no) then bufs[b].refcnt else 0) + 1, true, View(bufs, disk, no));
    bufs' := bufs[b := x];
  }

  /** Blocks other processes could use: somewhere on the disk, and none of the commit's. */
  predicate Spares(j: Job, disk: Image, spare: seq<int>) {
    Distinct(spare) && forall i | 0 <= i < |spare| :: 0 <= spare[i] < |disk| && !Ours(j, spare[i])
  }

  ghost predicate FirstOf(held: set<int>, spare: seq<int>, m: nat)
    requires m <= |spare|
  {
    |held| == m && forall no :: no in held <==> no in spare[..m]
  }

  lemma FirstNext(held: set<int>, spare: seq<int>, m: nat)
    requires m < |spare| && Distinct(spare) && FirstOf(held, spare, m)
    ensures spare[m] !in held && FirstOf(held + {spare[m]}, spare, m + 1)
  {
    assert spare[..m + 1] == spare[..m] + [spare[m]];
    assert spare[m] !in spare[..m];
    forall no
      ensures no in held + {spare[m]} <==> no in spare[..m + 1]
    {
    }
  }

  /** Others take `m` blocks one after the other, while the commit does nothing. */
  lemma {:induction false} TakeAll(j: Job, s: Race, spare: seq<int>, m: nat) returns (run: Run)
    requires Inv(j, s) && s.held == {} && Spares(j, s.disk, spare)
    requires m <= |spare| && m <= j.most && |j.blocks| + m <= NBUF
    ensures IsRun(j, run) && First(run) == s && Inv(j, run.now)
    ensures run.now.k == s.k && run.now.disk == s.disk && FirstOf(run.now.held, spare, m)
  {
    if m == 0 {
      run := Begin(s);
    } else {
      var before := TakeAll(j, s, spare, m - 1);
      FirstNext(before.now.held, spare, m - 1);
      FewEnough(j, before.now);
      var t := GetOne(j, before.now, spare[m - 1]);
      run := Then(before, t);
    }
  }

  lemma Starved(j: Job, s: Race)
    requires Inv(j, s) && s.k == 0 && NBUF <= |j.blocks| + |s.held|
    ensures !Served(j, s)
  {
    OpenInv(j, s);
    OpenWorking(j.L, j.blocks, s.bufs, s.disk, j.v, 0);
    assert j.L.InLog(j.L.start + 1);
    TooMany(j, s, Wants(j, 0));
  }

  /** With as many blocks in play as buffers, others can take all the rest before the commit's first `bread`. */
  lemma CanStarve(j: Job, s: Race, spare: seq<int>)
    requires Inv(j, s) && s.held == {} && s.k == 0 && Spares(j, s.disk, spare)
    requires NBUF <= |j.blocks| + |spare| && NBUF <= |j.blocks| + j.most
    ensures !AlwaysServed(j, s)
  {
    var m := if |j.blocks| < NBUF then NBUF - |j.blocks| else 0;
    var run := Begin(s);
    if m > 0 {
      run := TakeAll(j, s, spare, m);
    }
    Starved(j, run.now);
    assert IsRun(j, run);
  }

  lemma Enough(j: Job, s: Race)
    requires Inv(j, s)
    ensures |j.blocks| + j.most < NBUF ==> AnyFree(s.bufs)
  {
    if |j.blocks| + j.most < NBUF {
      OpenInv(j, s);
      FewEnough(j, s);
    }
  }

  /**
    The commit finds a buffer at every turn of every run exactly if its blocks
    and the buffers others may hold at once are fewer than the cache has; and
    then so does everybody else.
   */
  lemma ServedIff(j: Job, s: Race, spare: seq<int>)
    requires Inv(j, s) && s.held == {} && s.k == 0 && Spares(j, s.disk, spare) && NBUF <= |j.blocks| + |spare|
    ensures AlwaysServed(j, s) <==> |j.blocks| + j.most < NBUF
    ensures |j.blocks| + j.most < NBUF ==> OthersAlwaysServed(j, s)
  {
    if |j.blocks| + j.most < NBUF {
      forall run | IsRun(j, run) && First(run) == s
        ensures Served(j, run.now) && OthersServed(j, run.now)
      {
        RunInv(j, run);
        Enough(j, run.now);
      }
    } else {
      CanStarve(j, s, spare);
    }
  }

  /** Nor do others go without while a turn is half done and has its own buffer in hand. */
  lemma ServedInTurn(j: Job, s: Race, mid: seq<Buf>, a: int, no: int)
    requires Inv(j, s) && s.k < Length(j) && |j.blocks| + j.most < NBUF
    requires Took(s.bufs, s.disk, mid, a, Wants(j, s.k)) && MayGet(j, s, no)
    ensures Room(mid, no)
  {
    OpenInv(j, s);
    BlocksDistinct(j, s);
    InPlaySize(j, s.held);
    TookView(s.bufs, s.disk, mid, a, Wants(j, s.k));
    TookBusy(s.bufs, s.disk, mid, a, Wants(j, s.k), InPlay(j, s.held));
    FewLeaveOne(mid, InPlay(j, s.held) + {Wants(j, s.k)});
  }

  // ----- the code -----

  /** Another process's next call. */
  datatype Call = Get(no: int) | Put(no: int)

  /** Where in the cache the blocks in other hands are. */
  ghost predicate Placed(bufs: seq<Buf>, held: map<int, int>) {
    forall no | no in held :: 0 <= held[no] < |bufs| && Holds(bufs[held[no]], 1, no) && bufs[held[no]].locked
  }

  ghost predicate Amid(c: Cache, j: Job, held: map<int, int>, k: nat)
    reads c
  {
    c.Valid() && Inv(j, Race(c.bufs, c.disk, held.Keys, k)) && Placed(c.bufs, held)
  }

  /** `bread` by another process; -1 if it finds no buffer. */
  method OtherGet(c: Cache, j: Job, held: map<int, int>, no: int, ghost k: nat) returns (b: int)
    requires Amid(c, j, held, k) && MayGet(j, Race(c.bufs, c.disk, held.Keys, k), no)
    modifies c`bufs
    ensures b == -1 <==> !Room(old(c.bufs), no)
    ensures b != -1 ==> Amid(c, j, held[no := b], k)
    ensures b != -1 ==> Gets(j, Race(old(c.bufs), c.disk, held.Keys, k), Race(c.bufs, c.disk, held[no := b].Keys, k), no, b)
  {
    ghost var s := Race(c.bufs, c.disk, held.Keys, k);
    Idle(j, s, no);
    b := c.Bread(1, no);
    if b != -1 {
      ghost var t := Race(c.bufs, c.disk, held[no := b].Keys, k);
      assert t.held == s.held + {no};
      GetInv(j, s, t, no, b);
      StillPlaced(s, t, held, no, b);
    }
  }

  lemma StillPlaced(s: Race, t: Race, held: map<int, int>, no: int, b: int)
    requires Placed(s.bufs, held) && Took(s.bufs, s.disk, t.bufs, b, no) && no !in held
    requires forall i | 0 <= i < |s.bufs| :: Settled(s.bufs[i], s.disk)
    ensures Placed(t.bufs, held[no := b])
  {
    forall x | x in held
      ensures held[x] != b
    {
      assert Settled(s.bufs[held[x]], s.disk);
    }
  }

  /** `brelse` by another process. */
  method OtherPut(c: Cache, j: Job, held: map<int, int>, no: int, ghost k: nat)
    requires Amid(c, j, held, k) && no in held
    modifies c
    ensures Amid(c, j, held - {no}, k) && c.disk == old(c.disk)
    ensures Puts(Race(old(c.bufs), c.disk, held.Keys, k), Race(c.bufs, c.disk, (held - {no}).Keys, k), no, held[no])
  {
    ghost var s := Race(c.bufs, c.disk, held.Keys, k);
    var b := held[no];
    HandOf(j, s, no, b);
    Brelse(c, b);
    ghost var t := Race(c.bufs, c.disk, (held - {no}).Keys, k);
    assert t.held == s.held - {no};
    PutInv(j, s, t, no, b);
  }

  /** Another process's call, if it may make it now; false if it finds no buffer. */
  method OtherCall(c: Cache, j: Job, held: map<int, int>, call: Call, ghost k: nat) returns (ok: bool, held': map<int, int>)
    requires Amid(c, j, held, k)
    modifies c
    ensures c.disk == old(c.disk)
    ensures ok ==> Amid(c, j, held', k)
    ensures !ok ==> !Room(old(c.bufs), call.no) && |held.Keys| < j.most
  {
    ok, held' := true, held;
    var no := call.no;
    if call.Get? {
      if !Ours(j, no) && 0 <= no < |c.disk| && no !in held && |held.Keys| < j.most {
        var b := OtherGet(c, j, held, no, k);
        if b == -1 {
          return false, held;
        }
        held' := held[no := b];
      }
    } else if no in held {
      OtherPut(c, j, held, no, k);
      held' := held - {no};
    }
  }

  /** Any number of such calls. */
  method OtherCalls(c: Cache, j: Job, held: map<int, int>, calls: seq<Call>, ghost k: nat) returns (ok: bool, held': map<int, int>)
    requires Amid(c, j, held, k)
    modifies c
    ensures c.disk == old(c.disk)
    ensures ok ==> Amid(c, j, held', k)
    ensures |j.blocks| + j.most < NBUF ==> ok
  {
    ok, held' := true, held;
    var i := 0;
    while i < |calls|
      invariant 0 <= i <= |calls| && ok && Amid(c, j, held', k) && c.disk == old(c.disk)
    {
      ghost var s := Race(c.bufs, c.disk, held'.Keys, k);
      ok, held' := OtherCall(c, j, held', calls[i], k);
      if !ok {
        Enough(j, s);
        return;
      }
      i := i + 1;
    }
  }

  /** The commit's next turn, of each kind; false if it finds no buffer. */
  method TurnOfLog(c: Cache, j: Job, k: nat, ghost held: set<int>) returns (ok: bool)
    requires c.Valid() && k < |j.blocks|
    requires Working(j.L, j.blocks, c.bufs, c.disk, Turns(j.L, j.v, j.blocks, k), 0)
    modifies c
    ensures ok <==> Room(old(c.bufs), Wants(j, k))
    ensures !ok ==> c.disk == old(c.disk)
    ensures ok ==> c.Valid() && Works(j, Race(old(c.bufs), old(c.disk), held, k), Race(c.bufs, c.disk, held, k + 1))
  {
    ghost var w := Turns(j.L, j.v, j.blocks, k);
    BlocksReady(j.L, j.blocks, c.bufs, c.disk, w, 0, k);
    ok := LogBlock(c, j.L.start + k + 1, j.blocks[k]);
  }

  lemma InstallReads(j: Job, s: Race, i: nat)
    requires i < |j.blocks| && s.k == |j.blocks| + 1 + i
    ensures Wants(j, s.k) == j.L.start + i + 1 && Target(j, s.k) == j.blocks[i]
    ensures Written(j, s) == View(s.bufs, s.disk, Wants(j, s.k))
  {
  }

  method TurnOfInstall(c: Cache, j: Job, k: nat, log: int, home: int, ghost held: set<int>) returns (ok: bool)
    requires c.Valid() && k < Length(j) && log == Wants(j, k) && home == Target(j, k)
    requires Written(j, Race(c.bufs, c.disk, held, k)) == View(c.bufs, c.disk, log)
    requires 0 <= log < |c.disk| && 0 <= home < |c.disk| && log != home
    requires Unused(c.bufs, log) && !Dirties(c.bufs, log) && Unused(c.bufs, home) && Dirties(c.bufs, home)
    modifies c
    ensures ok <==> Room(old(c.bufs), log)
    ensures !ok ==> c.disk == old(c.disk)
    ensures ok ==> c.Valid() && Works(j, Race(old(c.bufs), old(c.disk), held, k), Race(c.bufs, c.disk, held, k + 1))
  {
    ok := InstallBlock(c, log, home);
  }

  method TurnOfHead(c: Cache, j: Job, k: nat, ghost held: set<int>) returns (ok: bool)
    requires c.Valid() && j.blocks != [] && (k == |j.blocks| || k == 2 * |j.blocks| + 1)
    requires Working(j.L, j.blocks, c.bufs, c.disk, Turns(j.L, j.v, j.blocks, k), Installed(j, k))
    modifies c
    ensures ok <==> Room(old(c.bufs), Wants(j, k))
    ensures !ok ==> c.disk == old(c.disk)
    ensures ok ==> c.Valid() && Works(j, Race(old(c.bufs), old(c.disk), held, k), Race(c.bufs, c.disk, held, k + 1))
  {
    ghost var w := Turns(j.L, j.v, j.blocks, k);
    HeadReady(j.L, j.blocks, c.bufs, c.disk, w, Installed(j, k));
    ok := WriteHead(c, j.L.start, if k == |j.blocks| then j.blocks else []);
  }

  method Turn(c: Cache, j: Job, held: map<int, int>, k: nat) returns (ok: bool)
    requires Amid(c, j, held, k) && k < Length(j)
    modifies c
    ensures ok <==> Room(old(c.bufs), Wants(j, k))
    ensures !ok ==> c.disk == old(c.disk)
    ensures ok ==> Amid(c, j, held, k + 1)
  {
    ghost var s := Race(c.bufs, c.disk, held.Keys, k);
    OpenInv(j, s);
    var n := |j.blocks|;
    if k < n {
      ok := TurnOfLog(c, j, k, s.held);
    } else if n < k <= 2 * n {
      var i := k - n - 1;
      BlocksReady(j.L, j.blocks, c.bufs, c.disk, Turns(j.L, j.v, j.blocks, k), i, i);
      InstallReads(j, s, i);
      ok := TurnOfInstall(c, j, k, j.L.start + i + 1, j.blocks[i], s.held);
    } else {
      ok := TurnOfHead(c, j, k, s.held);
    }
    if ok {
      ghost var t := Race(c.bufs, c.disk, held.Keys, k + 1);
      TurnInv(j, s, t);
    }
  }

  /**
    The commit with any calls of other processes before each of its turns. It
    fails only if somebody finds no buffer, and that cannot happen while the
    blocks in play are fewer than the buffers.
   */
  method CommitAmid(c: Cache, j: Job, calls: seq<seq<Call>>) returns (ok: bool, k: nat)
    requires Amid(c, j, map[], 0) && |calls| == Length(j)
    modifies c
    ensures |j.blocks| + j.most < NBUF ==> ok
    ensures c.disk == Turns(j.L, j.v, j.blocks, k).disk
    ensures ok ==> k == Length(j) && c.Valid() && Sim(Turns(j.L, j.v, j.blocks, k), c.bufs, c.disk)
  {
    ok, k := true, 0;
    var held: map<int, int> := map[];
    while k < Length(j)
      invariant k <= Length(j) && ok && Amid(c, j, held, k)
    {
      AsFar(j, Race(c.bufs, c.disk, held.Keys, k));
      ok, held := OtherCalls(c, j, held, calls[k], k);
      if !ok {
        return;
      }
      Enough(j, Race(c.bufs, c.disk, held.Keys, k));
      ok := Turn(c, j, held, k);
      if !ok {
        return;
      }
      k := k + 1;
    }
    AsFar(j, Race(c.bufs, c.disk, held.Keys, k));
  }

  lemma HandOf(j: Job, s: Race, no: int, b: int)
    requires Inv(j, s) && no in s.held && 0 <= b < |s.bufs| && Holds(s.bufs[b], 1, no)
    ensures InHand(s.bufs[b], s.disk, no)
  {
    OpenInv(j, s);
    var i :| 0 <= i < |s.bufs| && InHand(s.bufs[i], s.disk, no);
    assert i == b;
  }

  /** The next of the spare blocks goes to another process. */
  method GetSpare(c: Cache, j: Job, held: map<int, int>, spare: seq<int>, m: nat) returns (held': map<int, int>)
    requires Amid(c, j, held, 0) && Spares(j, c.disk, spare) && m < |spare| && FirstOf(held.Keys, spare, m)
    requires m < j.most && |j.blocks| + m < NBUF
    modifies c
    ensures Amid(c, j, held', 0) && c.disk == old(c.disk) && FirstOf(held'.Keys, spare, m + 1)
  {
    FirstNext(held.Keys, spare, m);
    FewEnough(j, Race(c.bufs, c.disk, held.Keys, 0));
    var b := OtherGet(c, j, held, spare[m], 0);
    held' := held[spare[m] := b];
    assert held'.Keys == held.Keys + {spare[m]};
  }

  /** That run in the code: others read as many blocks as the transaction leaves buffers, and the commit fails at once. */
  method StarvedCommit(c: Cache, j: Job, spare: seq<int>) returns (ok: bool)
    requires Amid(c, j, map[], 0) && Spares(j, c.disk, spare)
    requires NBUF <= |j.blocks| + |spare| && NBUF <= |j.blocks| + j.most
    modifies c
    ensures !ok && c.disk == old(c.disk)
  {
    var held: map<int, int> := map[];
    var m := 0;
    while |j.blocks| + m < NBUF
      invariant 0 <= m <= |spare| && Amid(c, j, held, 0) && c.disk == old(c.disk)
      invariant FirstOf(held.Keys, spare, m) && (m == 0 || |j.blocks| + m <= NBUF)
      decreases NBUF - m
    {
      held := GetSpare(c, j, held, spare, m);
      m := m + 1;
    }
    Starved(j, Race(c.bufs, c.disk, held.Keys, 0));
    ok := Turn(c, j, held, 0);
  }
}
