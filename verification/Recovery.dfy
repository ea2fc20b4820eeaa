/**
  Crash recovery of the redo log (log.c:69-122) and the write sequence of one
  commit (log.c:175-200), both cut off after any number of block writes.
 */
module Recovery {
  import opened Disk

  /** Always true; see `Disk.Look`. */
  ghost predicate LookIn(blocks: seq<int>) { true }

  /** No block twice; unfolded only where a proof names the blocks in `LookIn`. */
  ghost predicate NoneTwice(blocks: seq<int>) {
    forall x: seq<int> {:trigger LookIn(x)} | x == blocks && LookIn(x) :: Distinct(x)
  }

  lemma OpenNoneTwice(blocks: seq<int>)
    requires NoneTwice(blocks)
    ensures Distinct(blocks)
  {
    assert LookIn(blocks);
  }

  /** What a header must name: distinct home blocks, each with a log block of its own. */
  ghost predicate GoodBlocks(L: Layout, d: Image, blocks: seq<int>) {
    && |blocks| <= LOGSIZE
    && |blocks| < L.size
    && NoneTwice(blocks)
    && forall i | 0 <= i < |blocks| :: L.Home(d, blocks[i])
  }

  /** An image whose header can be read back and installed. */
  ghost predicate Sound(L: Layout, d: Image) {
    && L.Fits(d)
    && ReadableHead(At(d, L.start))
    && GoodBlocks(L, d, Logged(L, d))
  }

  function Logged(L: Layout, d: Image): seq<int> {
    DecodeHead(At(d, L.start))
  }

  ghost function IndexOf(s: seq<int>, x: int): (i: nat)
    requires x in s
    ensures i < |s| && s[i] == x
  {
    var i: nat :| i < |s| && s[i] == x;
    i
  }

  lemma IndexOfUnique(s: seq<int>, i: nat)
    requires NoneTwice(s) && i < |s|
    ensures s[i] in s && IndexOf(s, s[i]) == i
  {
    OpenNoneTwice(s);
  }

  /** What home block `b` holds once recovery has run: stated without running it. */
  ghost function Durable(L: Layout, d: Image, b: int): Block {
    if b in Logged(L, d) then At(d, L.start + 1 + IndexOf(Logged(L, d), b)) else At(d, b)
  }

  ghost predicate SameDurable(L: Layout, d: Image, e: Image) {
    |d| == |e| && forall b | L.Home(d, b) :: Durable(L, d, b) == Durable(L, e, b)
  }

  // ----- recovery -----

  /** The block writes of `recover_from_log`, in order, as a function of the image it finds. */
  function RecoveryWrite(L: Layout, d: Image, k: nat): Write {
    if k < |Logged(L, d)| then Write(Logged(L, d)[k], At(d, L.start + 1 + k))
    else Write(L.start, EncodeHead(At(d, L.start), []))
  }

  function RecoveryWrites(L: Layout, d: Image): (ws: seq<Write>) {
    seq(|Logged(L, d)| + 1, k requires 0 <= k => RecoveryWrite(L, d, k))
  }

  function Recovered(L: Layout, d: Image): Image {
    ApplyAll(d, RecoveryWrites(L, d))
  }

  /** A write elsewhere leaves the header, and so what the log holds, alone. */
  lemma HeaderUntouched(L: Layout, d: Image, e: Image)
    requires Sound(L, d) && |e| == |d| && At(e, L.start) == At(d, L.start)
    ensures Sound(L, e) && Logged(L, e) == Logged(L, d)
  {
  }

  lemma InstallDurable(L: Layout, d: Image, i: nat, b: int)
    requires Sound(L, d) && i < |Logged(L, d)| && L.Home(d, b)
    ensures var e := Apply(d, Write(Logged(L, d)[i], At(d, L.start + 1 + i)));
            Logged(L, e) == Logged(L, d) && Durable(L, e, b) == Durable(L, d, b)
  {
    assert L.Home(d, Logged(L, d)[i]);
    if b in Logged(L, d) {
      var k := IndexOf(Logged(L, d), b);
      assert L.InLog(L.start + 1 + k);
    }
  }

  lemma InstallStep(L: Layout, d: Image, i: nat)
    requires Sound(L, d) && i < |Logged(L, d)|
    ensures var e := Apply(d, Write(Logged(L, d)[i], At(d, L.start + 1 + i)));
            && Sound(L, e) && Logged(L, e) == Logged(L, d) && SameDurable(L, d, e)
            && (forall k | L.InLog(k) :: At(e, k) == At(d, k))
  {
    var e := Apply(d, Write(Logged(L, d)[i], At(d, L.start + 1 + i)));
    assert L.Home(d, Logged(L, d)[i]);
    HeaderUntouched(L, d, e);
    forall b | L.Home(d, b)
      ensures Durable(L, d, b) == Durable(L, e, b)
    {
      InstallDurable(L, d, i, b);
    }
  }

  /** With everything installed, the home blocks are what is durable. */
  lemma ClearDurable(L: Layout, d: Image, hb: Block, b: int)
    requires Sound(L, d) && L.Home(d, b)
    requires forall i | 0 <= i < |Logged(L, d)| :: At(d, Logged(L, d)[i]) == At(d, L.start + 1 + i)
    ensures var e := Apply(d, Write(L.start, EncodeHead(hb, [])));
            Logged(L, e) == [] && Durable(L, e, b) == Durable(L, d, b)
  {
    HeadRoundTrip(hb, []);
    if b in Logged(L, d) {
      assert At(d, Logged(L, d)[IndexOf(Logged(L, d), b)]) == At(d, b);
    }
  }

  lemma ClearedSound(L: Layout, d: Image, hb: Block)
    requires L.Fits(d)
    ensures var e := Apply(d, Write(L.start, EncodeHead(hb, [])));
            Sound(L, e) && Logged(L, e) == []
  {
    HeadRoundTrip(hb, []);
  }

  lemma ClearStep(L: Layout, d: Image, hb: Block)
    requires Sound(L, d)
    requires forall i | 0 <= i < |Logged(L, d)| :: At(d, Logged(L, d)[i]) == At(d, L.start + 1 + i)
    ensures var e := Apply(d, Write(L.start, EncodeHead(hb, [])));
            Sound(L, e) && Logged(L, e) == [] && SameDurable(L, d, e)
  {
    var e := Apply(d, Write(L.start, EncodeHead(hb, [])));
    ClearedSound(L, d, hb);
    forall b | L.Home(d, b)
      ensures Durable(L, d, b) == Durable(L, e, b)
    {
      ClearDurable(L, d, hb, b);
    }
  }

  /** `e` is `d` with the first `k` logged blocks installed. */
  ghost predicate Installed(L: Layout, d: Image, e: Image, k: nat) {
    && Sound(L, e) && k <= |Logged(L, d)| && Logged(L, e) == Logged(L, d) && SameDurable(L, d, e)
    && (forall j | L.InLog(j) :: At(e, j) == At(d, j))
    && InPlace(L, d, e, k)
  }

  /** The first `k` logged blocks of `d` are at home in `e`. */
  ghost predicate InPlace(L: Layout, d: Image, e: Image, k: nat) {
    forall i | 0 <= i < k && i < |Logged(L, d)| :: At(e, Logged(L, d)[i]) == At(d, L.start + 1 + i)
  }

  lemma InPlaceNext(L: Layout, d: Image, e: Image, k: nat)
    requires NoneTwice(Logged(L, d)) && k < |Logged(L, d)| && 0 <= Logged(L, d)[k] < |e| && InPlace(L, d, e, k)
    ensures InPlace(L, d, Apply(e, Write(Logged(L, d)[k], At(d, L.start + 1 + k))), k + 1)
  {
    OpenNoneTwice(Logged(L, d));
  }

  lemma SameDurableTrans(L: Layout, d: Image, e: Image, f: Image)
    requires SameDurable(L, d, e) && SameDurable(L, e, f)
    ensures SameDurable(L, d, f)
  {
    forall b | L.Home(d, b)
      ensures Durable(L, d, b) == Durable(L, f, b)
    {
      assert L.Home(e, b);
    }
  }

  lemma InstalledStep(L: Layout, d: Image, e: Image, k: nat)
    requires Sound(L, d) && k < |Logged(L, d)| && Installed(L, d, e, k)
    ensures Installed(L, d, Apply(e, Write(Logged(L, d)[k], At(d, L.start + 1 + k))), k + 1)
  {
    var f := Apply(e, Write(Logged(L, d)[k], At(d, L.start + 1 + k)));
    assert L.InLog(L.start + 1 + k);
    assert L.Home(d, Logged(L, d)[k]);
    InstallStep(L, e, k);
    SameDurableTrans(L, d, e, f);
    InPlaceNext(L, d, e, k);
  }

  ghost predicate RecoveryState(L: Layout, d: Image, e: Image, k: nat) {
    && Sound(L, d) && Sound(L, e) && k <= |Logged(L, d)| + 1
    && SameDurable(L, d, e)
    && (k <= |Logged(L, d)| ==> Installed(L, d, e, k))
    && (k == |Logged(L, d)| + 1 ==> Logged(L, e) == [])
  }

  /** The image `e` recovery has made of `d` with `k` of its writes. */
  ghost predicate RecoveryStage(L: Layout, d: Image, e: Image, k: nat) {
    forall x: Image {:trigger Look(x)} | x == e && Look(x) :: RecoveryState(L, d, x, k)
  }

  lemma OpenRecovery(L: Layout, d: Image, e: Image, k: nat)
    requires RecoveryStage(L, d, e, k)
    ensures RecoveryState(L, d, e, k)
  {
    assert Look(e);
  }

  lemma RecoveryInstall(L: Layout, d: Image, e: Image, k: nat)
    requires RecoveryStage(L, d, e, k) && k < |Logged(L, d)|
    ensures var f := Apply(e, Write(Logged(L, d)[k], At(d, L.start + 1 + k)));
            RecoveryStage(L, d, f, k + 1) && SameDurable(L, e, f)
  {
    OpenRecovery(L, d, e, k);
    assert L.InLog(L.start + 1 + k);
    InstalledStep(L, d, e, k);
    InstallStep(L, e, k);
  }

  lemma RecoveryClear(L: Layout, d: Image, e: Image, hb: Block)
    requires RecoveryStage(L, d, e, |Logged(L, d)|)
    ensures var f := Apply(e, Write(L.start, EncodeHead(hb, [])));
            RecoveryStage(L, d, f, |Logged(L, d)| + 1) && SameDurable(L, e, f)
  {
    OpenRecovery(L, d, e, |Logged(L, d)|);
    forall i | 0 <= i < |Logged(L, e)|
      ensures At(e, Logged(L, e)[i]) == At(e, L.start + 1 + i)
    {
      assert L.InLog(L.start + 1 + i);
    }
    ClearStep(L, e, hb);
    SameDurableTrans(L, d, e, Apply(e, Write(L.start, EncodeHead(hb, []))));
  }

  lemma RecoveryStep(L: Layout, d: Image, e: Image, k: nat)
    requires RecoveryStage(L, d, e, k) && k <= |Logged(L, d)|
    ensures RecoveryStage(L, d, Apply(e, RecoveryWrite(L, d, k)), k + 1)
    ensures SameDurable(L, e, Apply(e, RecoveryWrite(L, d, k)))
  {
    if k < |Logged(L, d)| {
      RecoveryInstall(L, d, e, k);
    } else {
      RecoveryClear(L, d, e, At(d, L.start));
    }
  }

  /** Recovery may be cut off anywhere: what is durable does not change. */
  lemma {:induction false} CrashedRecovery(L: Layout, d: Image, k: nat)
    requires Sound(L, d) && k <= |Logged(L, d)| + 1
    ensures RecoveryStage(L, d, ApplyFirst(d, RecoveryWrites(L, d), k), k)
  {
    if k > 0 {
      CrashedRecovery(L, d, k - 1);
      RecoveryStep(L, d, ApplyFirst(d, RecoveryWrites(L, d), k - 1), k - 1);
    }
  }

  /** Boot, crash after `cuts[0]` writes, boot again, crash after `cuts[1]` writes, ... */
  function Reboots(L: Layout, d: Image, cuts: seq<nat>): (e: Image)
    requires Sound(L, d)
    ensures Sound(L, e)
    decreases |cuts|
  {
    if cuts == [] then d
    else
      var k := if cuts[0] <= |Logged(L, d)| + 1 then cuts[0] else |Logged(L, d)| + 1;
      CrashedRecovery(L, d, k);
      OpenRecovery(L, d, ApplyFirst(d, RecoveryWrites(L, d), k), k);
      Reboots(L, ApplyFirst(d, RecoveryWrites(L, d), k), cuts[1..])
  }

  /**
    However often recovery is cut off, once it completes every home block holds
    what was durable in the image the first boot found, and the log is empty.
   */
  lemma {:induction false} RecoverySurvivesCrashes(L: Layout, d: Image, cuts: seq<nat>)
    requires Sound(L, d)
    ensures var e := Recovered(L, Reboots(L, d, cuts));
            && |e| == |d| && Sound(L, e) && Logged(L, e) == []
            && forall b | L.Home(d, b) :: At(e, b) == Durable(L, d, b)
    decreases |cuts|
  {
    if cuts == [] {
      var n := |Logged(L, d)|;
      CrashedRecovery(L, d, n + 1);
      OpenRecovery(L, d, Recovered(L, d), n + 1);
    } else {
      var k := if cuts[0] <= |Logged(L, d)| + 1 then cuts[0] else |Logged(L, d)| + 1;
      CrashedRecovery(L, d, k);
      OpenRecovery(L, d, ApplyFirst(d, RecoveryWrites(L, d), k), k);
      RecoverySurvivesCrashes(L, ApplyFirst(d, RecoveryWrites(L, d), k), cuts[1..]);
    }
  }

  // ----- commit -----

  /**
    The `k`th block write of `commit` for a transaction of the home blocks
    `blocks` with new contents `data`, where `hb` is the header block it finds:
    the log copies, the header (the commit point), the installs, the erased header.
   */
  function CommitWrite(L: Layout, hb: Block, blocks: seq<int>, data: seq<Block>, k: nat): Write {
    var n := |blocks|;
    if k < n then Write(L.start + 1 + k, At(data, k))
    else if k == n then Write(L.start, EncodeHead(hb, blocks))
    else if k <= 2 * n then Write(blocks[k - n - 1], At(data, k - n - 1))
    else Write(L.start, EncodeHead(EncodeHead(hb, blocks), []))
  }

  function CommitWrites(L: Layout, hb: Block, blocks: seq<int>, data: seq<Block>): (ws: seq<Write>) {
    seq(2 * |blocks| + 2, k requires 0 <= k => CommitWrite(L, hb, blocks, data, k))
  }

  /** The first `k` log blocks hold the transaction's data. */
  ghost predicate LogHas(L: Layout, d: Image, data: seq<Block>, k: int) {
    forall i | 0 <= i < k && i < |data| :: At(d, L.start + 1 + i) == data[i]
  }

  /** The first `k` of the home blocks hold it. */
  ghost predicate HomeHas(d: Image, blocks: seq<int>, data: seq<Block>, k: int) {
    forall i | 0 <= i < k && i < |blocks| && i < |data| :: At(d, blocks[i]) == data[i]
  }

  ghost predicate CommitState(L: Layout, d: Image, blocks: seq<int>, data: seq<Block>, k: nat) {
    var n := |blocks|;
    && |data| == n && k <= 2 * n + 2
    && Sound(L, d) && GoodBlocks(L, d, blocks)
    && (k <= n || k == 2 * n + 2 ==> Logged(L, d) == [])
    && (n < k <= 2 * n + 1 ==> Logged(L, d) == blocks)
    && LogHas(L, d, data, k) && HomeHas(d, blocks, data, k - n - 1)
  }

  /** The image part-way through a commit, after `k` of its writes. */
  ghost predicate CommitStage(L: Layout, d: Image, blocks: seq<int>, data: seq<Block>, k: nat) {
    forall x: Image {:trigger Look(x)} | x == d && Look(x) :: CommitState(L, x, blocks, data, k)
  }

  lemma OpenCommit(L: Layout, d: Image, blocks: seq<int>, data: seq<Block>, k: nat)
    requires CommitStage(L, d, blocks, data, k)
    ensures CommitState(L, d, blocks, data, k)
  {
    assert Look(d);
  }

  /** What a home block holds after the transaction. */
  ghost function Overlay(before: Block, blocks: seq<int>, data: seq<Block>, b: int): Block {
    if b in blocks then At(data, IndexOf(blocks, b)) else before
  }

  lemma GoodBlocksKept(L: Layout, d: Image, e: Image, blocks: seq<int>)
    requires GoodBlocks(L, d, blocks) && |e| == |d|
    ensures GoodBlocks(L, e, blocks)
  {
  }

  /** With an empty log, home blocks are durable as they are. */
  lemma EmptyLogDurable(L: Layout, d: Image, e: Image)
    requires Logged(L, d) == [] && Logged(L, e) == [] && |e| == |d|
    requires forall b | L.Home(d, b) :: At(e, b) == At(d, b)
    ensures SameDurable(L, d, e)
  {
  }

  lemma CommitLogStep(L: Layout, d: Image, blocks: seq<int>, data: seq<Block>, k: nat)
    requires CommitStage(L, d, blocks, data, k) && k < |blocks| == |data|
    ensures var e := Apply(d, Write(L.start + 1 + k, data[k]));
            CommitStage(L, e, blocks, data, k + 1) && SameDurable(L, d, e)
  {
    OpenCommit(L, d, blocks, data, k);
    var e := Apply(d, Write(L.start + 1 + k, data[k]));
    assert L.InLog(L.start + 1 + k);
    HeaderUntouched(L, d, e);
    GoodBlocksKept(L, d, e, blocks);
    EmptyLogDurable(L, d, e);
  }

  lemma HeaderDurable(L: Layout, hb: Block, d: Image, blocks: seq<int>, data: seq<Block>, b: int)
    requires L.Fits(d) && |data| == |blocks| < L.size && Logged(L, d) == [] && LogHas(L, d, data, |blocks|) && L.Home(d, b)
    ensures Durable(L, Apply(d, Write(L.start, EncodeHead(hb, blocks))), b) == Overlay(Durable(L, d, b), blocks, data, b)
  {
    HeadRoundTrip(hb, blocks);
    if b in blocks {
      assert At(d, L.start + 1 + IndexOf(blocks, b)) == data[IndexOf(blocks, b)];
    }
  }

  lemma HeaderStage(L: Layout, hb: Block, d: Image, blocks: seq<int>, data: seq<Block>)
    requires CommitStage(L, d, blocks, data, |blocks|)
    ensures CommitStage(L, Apply(d, Write(L.start, EncodeHead(hb, blocks))), blocks, data, |blocks| + 1)
  {
    OpenCommit(L, d, blocks, data, |blocks|);
    HeadRoundTrip(hb, blocks);
    GoodBlocksKept(L, d, Apply(d, Write(L.start, EncodeHead(hb, blocks))), blocks);
  }

  lemma CommitHeadStep(L: Layout, hb: Block, d: Image, blocks: seq<int>, data: seq<Block>)
    requires CommitStage(L, d, blocks, data, |blocks|)
    ensures var e := Apply(d, Write(L.start, EncodeHead(hb, blocks)));
            && CommitStage(L, e, blocks, data, |blocks| + 1)
            && forall b | L.Home(d, b) :: Durable(L, e, b) == Overlay(Durable(L, d, b), blocks, data, b)
  {
    HeaderStage(L, hb, d, blocks, data);
    OpenCommit(L, d, blocks, data, |blocks|);
    var e := Apply(d, Write(L.start, EncodeHead(hb, blocks)));
    forall b | L.Home(d, b)
      ensures Durable(L, e, b) == Overlay(Durable(L, d, b), blocks, data, b)
    {
      HeaderDurable(L, hb, d, blocks, data, b);
    }
  }

  /** Installing one block more. */
  lemma HomeHasNext(d: Image, blocks: seq<int>, data: seq<Block>, i: nat)
    requires NoneTwice(blocks) && i < |blocks| == |data| && 0 <= blocks[i] < |d| && HomeHas(d, blocks, data, i)
    ensures HomeHas(Apply(d, Write(blocks[i], data[i])), blocks, data, i + 1)
  {
    OpenNoneTwice(blocks);
  }

  lemma CommitInstallStep(L: Layout, d: Image, blocks: seq<int>, data: seq<Block>, i: nat)
    requires i < |blocks| == |data| && CommitStage(L, d, blocks, data, |blocks| + 1 + i)
    ensures var e := Apply(d, Write(blocks[i], data[i]));
            CommitStage(L, e, blocks, data, |blocks| + 2 + i) && SameDurable(L, d, e)
  {
    OpenCommit(L, d, blocks, data, |blocks| + 1 + i);
    assert At(d, L.start + 1 + i) == data[i] && L.Home(d, blocks[i]);
    InstallStep(L, d, i);
    HomeHasNext(d, blocks, data, i);
    var e := Apply(d, Write(blocks[i], data[i]));
    GoodBlocksKept(L, d, e, blocks);
    InstalledLog(L, d, e, data);
  }

  lemma InstalledLog(L: Layout, d: Image, e: Image, data: seq<Block>)
    requires |data| < L.size && LogHas(L, d, data, |data|) && forall k | L.InLog(k) :: At(e, k) == At(d, k)
    ensures forall k :: LogHas(L, e, data, k)
  {
    forall i | 0 <= i < |data|
      ensures At(e, L.start + 1 + i) == data[i]
    {
      assert L.InLog(L.start + 1 + i);
    }
  }

  lemma CommitClearStep(L: Layout, hb: Block, d: Image, blocks: seq<int>, data: seq<Block>)
    requires CommitStage(L, d, blocks, data, 2 * |blocks| + 1)
    ensures var e := Apply(d, Write(L.start, EncodeHead(hb, [])));
            CommitStage(L, e, blocks, data, 2 * |blocks| + 2) && SameDurable(L, d, e)
  {
    OpenCommit(L, d, blocks, data, 2 * |blocks| + 1);
    ClearStep(L, d, hb) by {
      assert forall i | 0 <= i < |blocks| :: At(d, L.start + 1 + i) == data[i] && At(d, blocks[i]) == data[i];
    }
    GoodBlocksKept(L, d, Apply(d, Write(L.start, EncodeHead(hb, []))), blocks);
  }

  /** What a write does to durable home blocks: nothing, or what the transaction says. */
  ghost predicate DurableStep(L: Layout, d: Image, e: Image, blocks: seq<int>, data: seq<Block>, header: bool) {
    if header then forall b | L.Home(d, b) :: Durable(L, e, b) == Overlay(Durable(L, d, b), blocks, data, b)
    else SameDurable(L, d, e)
  }

  /** One write of a commit: only the header write changes what is durable. */
  lemma CommitStep(L: Layout, hb: Block, d: Image, blocks: seq<int>, data: seq<Block>, k: nat)
    requires CommitStage(L, d, blocks, data, k) && k < 2 * |blocks| + 2
    ensures var e := Apply(d, CommitWrite(L, hb, blocks, data, k));
            CommitStage(L, e, blocks, data, k + 1) && DurableStep(L, d, e, blocks, data, k == |blocks|)
  {
    var n := |blocks|;
    DataFits(L, d, blocks, data, k);
    if k < n {
      CommitLogStep(L, d, blocks, data, k);
    } else if k == n {
      CommitHeadStep(L, hb, d, blocks, data);
    } else if k <= 2 * n {
      CommitInstallStep(L, d, blocks, data, k - n - 1);
    } else {
      CommitClearStep(L, EncodeHead(hb, blocks), d, blocks, data);
    }
  }

  lemma DataFits(L: Layout, d: Image, blocks: seq<int>, data: seq<Block>, k: nat)
    requires CommitStage(L, d, blocks, data, k)
    ensures |data| == |blocks|
  {
    OpenCommit(L, d, blocks, data, k);
  }

  /** The durable home blocks of `e` are those of `d`, or those of `d` with the transaction applied. */
  ghost predicate Outcome(L: Layout, d: Image, e: Image, blocks: seq<int>, data: seq<Block>, committed: bool) {
    forall b | L.Home(d, b) ::
      Durable(L, e, b) == if committed then Overlay(At(d, b), blocks, data, b) else At(d, b)
  }

  lemma OutcomeStart(L: Layout, d: Image, blocks: seq<int>, data: seq<Block>)
    requires CommitStage(L, d, blocks, data, 0)
    ensures Outcome(L, d, d, blocks, data, false)
  {
    OpenCommit(L, d, blocks, data, 0);
  }

  lemma OutcomeStep(L: Layout, d: Image, e: Image, hb: Block, blocks: seq<int>, data: seq<Block>, k: nat)
    requires CommitStage(L, e, blocks, data, k) && k < 2 * |blocks| + 2 && |e| == |d|
    requires Outcome(L, d, e, blocks, data, k > |blocks|)
    ensures var e' := Apply(e, CommitWrite(L, hb, blocks, data, k));
            CommitStage(L, e', blocks, data, k + 1) && Outcome(L, d, e', blocks, data, k >= |blocks|)
  {
    var e' := Apply(e, CommitWrite(L, hb, blocks, data, k));
    CommitStep(L, hb, e, blocks, data, k);
    forall b | L.Home(d, b)
      ensures Durable(L, e', b) == if k >= |blocks| then Overlay(At(d, b), blocks, data, b) else At(d, b)
    {
      assert L.Home(e, b);
    }
  }

  /** The image after `k` writes of the commit of `blocks` in `d`. */
  function CommitImage(L: Layout, d: Image, blocks: seq<int>, data: seq<Block>, k: nat): (e: Image)
    ensures |e| == |d|
  {
    if k == 0 then d
    else Apply(CommitImage(L, d, blocks, data, k - 1), CommitWrite(L, At(d, L.start), blocks, data, k - 1))
  }

  lemma {:induction false} CommitImageIs(L: Layout, d: Image, blocks: seq<int>, data: seq<Block>, k: nat)
    requires k <= 2 * |blocks| + 2
    ensures CommitImage(L, d, blocks, data, k) == ApplyFirst(d, CommitWrites(L, At(d, L.start), blocks, data), k)
  {
    if k > 0 {
      CommitImageIs(L, d, blocks, data, k - 1);
    }
  }

  lemma {:induction false} CommitImageAtomic(L: Layout, d: Image, blocks: seq<int>, data: seq<Block>, k: nat)
    requires CommitStage(L, d, blocks, data, 0) && k <= 2 * |blocks| + 2
    ensures var e := CommitImage(L, d, blocks, data, k);
            CommitStage(L, e, blocks, data, k) && Outcome(L, d, e, blocks, data, k > |blocks|)
  {
    if k == 0 {
      OutcomeStart(L, d, blocks, data);
    } else {
      CommitImageAtomic(L, d, blocks, data, k - 1);
      OutcomeStep(L, d, CommitImage(L, d, blocks, data, k - 1), At(d, L.start), blocks, data, k - 1);
    }
  }

  /**
    Crash atomicity of one commit: cut off after any `k` writes, the durable
    home blocks are all the old ones (`k <= n`) or all the new ones.
   */
  lemma CommitCrashAtomic(L: Layout, d: Image, blocks: seq<int>, data: seq<Block>, k: nat)
    requires CommitStage(L, d, blocks, data, 0) && k <= 2 * |blocks| + 2
    ensures var e := ApplyFirst(d, CommitWrites(L, At(d, L.start), blocks, data), k);
            CommitStage(L, e, blocks, data, k) && Outcome(L, d, e, blocks, data, k > |blocks|)
  {
    CommitImageAtomic(L, d, blocks, data, k);
    CommitImageIs(L, d, blocks, data, k);
  }

  // ----- exactly when the log is big enough -----

  /** A disk of `N` blocks with an empty log, about to commit `blocks`. */
  ghost predicate ReadyToCommit(L: Layout, d: Image, N: nat, blocks: seq<int>, data: seq<Block>) {
    |d| == N && Sound(L, d) && Logged(L, d) == [] && |data| == |blocks|
  }

  /** Cut off after `k` writes, recovery finds all old home blocks or all new ones. */
  ghost predicate AllOrNothing(L: Layout, d: Image, blocks: seq<int>, data: seq<Block>, k: nat)
    requires k <= 2 * |blocks| + 2
  {
    var e := ApplyFirst(d, CommitWrites(L, At(d, L.start), blocks, data), k);
    && Sound(L, e)
    && (Outcome(L, d, e, blocks, data, false) || Outcome(L, d, e, blocks, data, true))
  }

  ghost predicate CommitIsAtomic(L: Layout, N: nat, blocks: seq<int>) {
    forall d: Image, data: seq<Block>, k: nat
      | ReadyToCommit(L, d, N, blocks, data) && k <= 2 * |blocks| + 2
      :: AllOrNothing(L, d, blocks, data, k)
  }

  /** The transaction that spills over the end of the log area. */
  lemma SpillIsNotAtomic(L: Layout, d: Image, blocks: seq<int>, data: seq<Block>)
    requires 0 <= L.start && 2 <= L.size <= |blocks| <= LOGSIZE && L.start + |blocks| < |d|
    requires Distinct(blocks) && forall i | 0 <= i < |blocks| :: L.Home(d, blocks[i])
    requires d == seq(|d|, i => Block([0])) && data == seq(|blocks|, i => Block([1]))
    ensures !AllOrNothing(L, d, blocks, data, L.size)
  {
    var ws := CommitWrites(L, At(d, L.start), blocks, data);
    var e := ApplyFirst(d, ws, L.size);
    var spilled := L.start + L.size;
    assert e[spilled] == Block([1]);
    var kept := if blocks[0] == spilled then blocks[1] else blocks[0];
    ApplyFrame(d, ws, L.size, kept);
    ApplyFrame(d, ws, L.size, L.start);
    IndexOfUnique(blocks, 0);
    IndexOfUnique(blocks, 1);
    assert e[kept] == Block([0]);
    if Sound(L, e) {
      assert Logged(L, e) == [];
      assert L.Home(d, spilled) && Durable(L, e, spilled) != d[spilled];
      assert L.Home(d, kept) && Durable(L, e, kept) != Overlay(d[kept], blocks, data, kept);
    }
  }

  /**
    A commit of distinct home blocks is atomic under every crash, for all disk
    contents, exactly when the log area has a data block for each of them.
   */
  lemma CommitAtomicIffLogFits(L: Layout, N: nat, blocks: seq<int>)
    requires 0 <= L.start && 2 <= L.size && L.start + L.size <= N && |blocks| <= LOGSIZE && L.start + |blocks| < N
    requires Distinct(blocks) && forall i | 0 <= i < |blocks| :: 0 <= blocks[i] < N && !L.InLog(blocks[i])
    ensures CommitIsAtomic(L, N, blocks) <==> |blocks| < L.size
  {
    if |blocks| < L.size {
      forall d: Image, data: seq<Block>, k: nat
        | ReadyToCommit(L, d, N, blocks, data) && k <= 2 * |blocks| + 2
        ensures AllOrNothing(L, d, blocks, data, k)
      {
        CommitCrashAtomic(L, d, blocks, data, k);
        OpenCommit(L, ApplyFirst(d, CommitWrites(L, At(d, L.start), blocks, data), k), blocks, data, k);
      }
    } else {
      var d: Image := seq(N, i => Block([0]));
      var data: seq<Block> := seq(|blocks|, i => Block([1]));
      SpillIsNotAtomic(L, d, blocks, data);
      assert ReadyToCommit(L, d, N, blocks, data);
    }
  }
}
