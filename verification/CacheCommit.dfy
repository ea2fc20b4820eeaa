/**
  The commit of log.c:175-200 run on the buffer cache it really has, of `NBUF`
  buffers (bio.c). The machine in `GroupCommit` has room for every block; here
  it is shown that this makes no difference, block by block, until a `bread`
  finds no buffer, and exactly when that happens.

  Other processes may hold any buffers but those of the log and of the
  transaction; while one of those is in use the commit waits for it. Here they
  hold what they hold; `CacheRace` lets them come and go while the commit runs.
 */
module CacheCommit {
  import opened Disk
  import opened Recovery
  import opened BufferCache
  import GroupCommit
  import LogCode

  type Dev = LogCode.Dev

  // ----- what the cache stands for -----

  ghost predicate Dirties(bufs: seq<Buf>, no: int) { exists i :: 0 <= i < |bufs| && Holds(bufs[i], 1, no) && bufs[i].dirty }

  /** No process is using the buffer of block `no`, if there is one. */
  ghost predicate Unused(bufs: seq<Buf>, no: int) {
    forall i | 0 <= i < |bufs| && Holds(bufs[i], 1, no) :: bufs[i].refcnt == 0 && !bufs[i].locked
  }

  /** A `bread` of block `no` finds a buffer. */
  ghost predicate Room(bufs: seq<Buf>, no: int) { Has(bufs, no) || AnyFree(bufs) }

  /** The same disk, the same reads, the same blocks waiting for a commit; which clean blocks are cached does not matter. */
  ghost predicate Sim(v: Dev, bufs: seq<Buf>, disk: Image) {
    && v.disk == disk
    && (forall no :: LogCode.Bread(v, no) == View(bufs, disk, no))
    && (forall no :: GroupCommit.Dirty(v.cache, no) <==> Dirties(bufs, no))
  }

  /** Cache traffic of the machine is invisible: bringing in a block or letting a clean one go. */
  lemma TrafficInvisible(v: Dev, bufs: seq<Buf>, disk: Image, b: int)
    requires Sim(v, bufs, disk)
    ensures b !in v.cache ==> Sim(v.(cache := v.cache[b := GroupCommit.Buf(At(v.disk, b), false)]), bufs, disk)
    ensures b in v.cache && !v.cache[b].dirty && v.cache[b].data == At(v.disk, b) ==>
              Sim(v.(cache := v.cache - {b}), bufs, disk)
  {
    var fill, evict := v.(cache := v.cache[b := GroupCommit.Buf(At(v.disk, b), false)]), v.(cache := v.cache - {b});
    forall no
      ensures b !in v.cache ==> LogCode.Bread(fill, no) == View(bufs, disk, no)
      ensures b in v.cache && v.cache[b].data == At(v.disk, b) ==> LogCode.Bread(evict, no) == View(bufs, disk, no)
    {
      assert LogCode.Bread(v, no) == View(bufs, disk, no);
    }
  }

  /** Every buffer that cannot be taken over is one of these blocks'. */
  ghost predicate BusyIn(bufs: seq<Buf>, used: set<int>) {
    forall i | 0 <= i < |bufs| && !Free(bufs[i]) :: bufs[i].dev == 1 && bufs[i].blockno in used
  }

  /** Locked buffers are as they were, and no buffer has come into use. */
  ghost predicate Kept(bufs: seq<Buf>, bufs': seq<Buf>) {
    && |bufs'| == |bufs|
    && (forall i | 0 <= i < |bufs| && bufs[i].locked :: bufs'[i] == bufs[i])
    && (forall i | 0 <= i < |bufs'| && !Free(bufs'[i]) ::
          !Free(bufs[i]) && bufs'[i].dev == bufs[i].dev && bufs'[i].blockno == bufs[i].blockno)
  }

  lemma KeptBusy(bufs: seq<Buf>, bufs': seq<Buf>, used: set<int>)
    requires Kept(bufs, bufs') && BusyIn(bufs, used)
    ensures BusyIn(bufs', used)
  {
  }

  lemma KeptTrans(a: seq<Buf>, b: seq<Buf>, c: seq<Buf>)
    requires Kept(a, b) && Kept(b, c)
    ensures Kept(a, c)
  {
  }

  // ----- one block used and let go -----

  /** Buffer `b`, found or taken over for block `no`, has been used and released, and is left with `dirty` and `data`. */
  ghost predicate Visited(bufs: seq<Buf>, bufs': seq<Buf>, b: int, no: int, dirty: bool, data: Block) {
    && 0 <= b < |bufs|
    && (Holds(bufs[b], 1, no) || (Free(bufs[b]) && !Has(bufs, no)))
    && bufs' == bufs[b := Buf(1, no, true, dirty, if Holds(bufs[b], 1, no) then bufs[b].refcnt else 0, false, data)]
  }

  lemma VisitedDirties(bufs: seq<Buf>, bufs': seq<Buf>, b: int, no: int, dirty: bool, data: Block, x: int)
    requires OneBufferPerBlock(bufs) && Visited(bufs, bufs', b, no, dirty, data)
    ensures Dirties(bufs', x) <==> if x == no then dirty else Dirties(bufs, x)
  {
    assert Holds(bufs'[b], 1, no);
    if Dirties(bufs, x) {
      var i :| 0 <= i < |bufs| && Holds(bufs[i], 1, x) && bufs[i].dirty;
      assert i != b ==> bufs'[i] == bufs[i];
    }
  }

  lemma VisitedUnused(bufs: seq<Buf>, bufs': seq<Buf>, b: int, no: int, dirty: bool, data: Block, x: int)
    requires OneBufferPerBlock(bufs) && Visited(bufs, bufs', b, no, dirty, data) && Unused(bufs, x)
    ensures Unused(bufs', x)
  {
  }

  /** A block nobody else uses, left clean, leaves a free buffer behind. */
  lemma VisitedFree(bufs: seq<Buf>, bufs': seq<Buf>, b: int, no: int, data: Block)
    requires Visited(bufs, bufs', b, no, false, data) && Unused(bufs, no)
    ensures AnyFree(bufs')
  {
    assert Free(bufs'[b]);
  }

  lemma VisitedKept(bufs: seq<Buf>, bufs': seq<Buf>, b: int, no: int, dirty: bool, data: Block)
    requires Visited(bufs, bufs', b, no, dirty, data) && Unused(bufs, no)
    requires forall i | 0 <= i < |bufs| && bufs[i].locked :: !Free(bufs[i])
    requires dirty ==> Holds(bufs[b], 1, no) && bufs[b].dirty
    ensures Kept(bufs, bufs')
  {
  }

  lemma VisitedOne(bufs: seq<Buf>, bufs': seq<Buf>, b: int, no: int, dirty: bool, data: Block)
    requires OneBufferPerBlock(bufs) && Visited(bufs, bufs', b, no, dirty, data)
    ensures OneBufferPerBlock(bufs')
  {
  }

  /** A block nobody uses and nothing waits in reads as the disk has it. */
  lemma CleanView(bufs: seq<Buf>, disk: Image, no: int)
    requires OneBufferPerBlock(bufs) && (forall i | 0 <= i < |bufs| :: Settled(bufs[i], disk))
    requires Unused(bufs, no) && !Dirties(bufs, no)
    ensures View(bufs, disk, no) == At(disk, no)
  {
    if i :| 0 <= i < |bufs| && Holds(bufs[i], 1, no) && bufs[i].valid {
      ViewOf(bufs, disk, i);
    }
  }

  /** Block `dst` holds `data`, on the disk and for every reader, and waits for nothing; no other block has changed. */
  ghost predicate Stored(bufs: seq<Buf>, disk: Image, bufs': seq<Buf>, disk': Image, dst: int, data: Block) {
    && 0 <= dst < |disk| && disk' == disk[dst := data]
    && (forall no :: View(bufs', disk', no) == if no == dst then data else View(bufs, disk, no))
    && (forall no :: Dirties(bufs', no) <==> Dirties(bufs, no) && no != dst)
    && (forall no | Unused(bufs, no) :: Unused(bufs', no))
  }

  /** A `bwrite` on the cache is a write-through of the machine. */
  lemma SimStored(v: Dev, bufs: seq<Buf>, disk: Image, bufs': seq<Buf>, disk': Image, dst: int, data: Block)
    requires Sim(v, bufs, disk) && Stored(bufs, disk, bufs', disk', dst, data)
    ensures Sim(LogCode.Bwrite(v, dst, data), bufs', disk')
  {
    var w := LogCode.Bwrite(v, dst, data);
    forall no
      ensures LogCode.Bread(w, no) == View(bufs', disk', no)
      ensures GroupCommit.Dirty(w.cache, no) <==> Dirties(bufs', no)
    {
      assert LogCode.Bread(v, no) == View(bufs, disk, no);
      assert GroupCommit.Dirty(v.cache, no) <==> Dirties(bufs, no);
    }
  }

  /** `brelse` by a process that has logged or written what it changed. */
  method Brelse(c: Cache, b: int)
    requires c.Valid() && 0 <= b < NBUF && c.bufs[b].locked
    requires c.bufs[b].dev == 1 && c.bufs[b].valid && !c.bufs[b].dirty ==> c.bufs[b].data == At(c.disk, c.bufs[b].blockno)
    modifies c
    ensures c.Valid() && c.disk == old(c.disk)
    ensures c.bufs == old(c.bufs)[b := old(c.bufs[b]).(locked := false, refcnt := old(c.bufs[b].refcnt) - 1)]
    ensures forall no :: View(c.bufs, c.disk, no) == View(old(c.bufs), old(c.disk), no)
  {
    var ok := c.ReleaseLock(b);
    c.Unreference(b);
  }

  /** The first of two blocks in use at once: the second, cached and dirty, keeps its buffer. */
  lemma TookOther(bufs: seq<Buf>, disk: Image, bufs': seq<Buf>, b: int, no: int, x: int)
    requires Took(bufs, disk, bufs', b, no) && x != no && Dirties(bufs, x) && Unused(bufs, x)
    ensures Has(bufs', x)
    ensures forall i | 0 <= i < |bufs'| && Holds(bufs'[i], 1, x) :: i != b && bufs'[i] == bufs[i] && !bufs'[i].locked
  {
    var i :| 0 <= i < |bufs| && Holds(bufs[i], 1, x) && bufs[i].dirty;
    assert Holds(bufs'[i], 1, x);
  }

  /** Two buffers used together and left as they are here are two visits. */
  lemma TwoVisits(bufs: seq<Buf>, disk: Image, took: seq<Buf>, both: seq<Buf>, bufs': seq<Buf>,
                  a: int, log: int, b: int, home: int, dirty: bool, data: Block, kept: Block)
    requires OneBufferPerBlock(bufs) && Took(bufs, disk, took, a, log) && Took(took, disk, both, b, home)
    requires log != home && Dirties(bufs, home) && Unused(bufs, home)
    requires |bufs'| == |bufs| && (forall i | 0 <= i < |bufs| && i != a && i != b :: bufs'[i] == both[i])
    requires bufs'[a] == both[a].(dirty := false, data := data, locked := false, refcnt := both[a].refcnt - 1)
    requires bufs'[b] == both[b].(dirty := dirty, data := kept, locked := false, refcnt := both[b].refcnt - 1)
    ensures a != b
    ensures Visited(bufs, bufs[a := bufs'[a]], a, log, false, data)
    ensures Visited(bufs[a := bufs'[a]], bufs', b, home, dirty, kept)
  {
    TookOther(bufs, disk, took, a, log, home);
    assert Holds(took[b], 1, home);
    assert bufs' == bufs[a := bufs'[a]][b := bufs'[b]];
  }

  /** What two visits do to which blocks wait and which are in use. */
  lemma TwoVisitsEffect(bufs: seq<Buf>, mid: seq<Buf>, bufs': seq<Buf>, a: int, log: int, b: int, home: int, dirty: bool, data: Block, kept: Block)
    requires OneBufferPerBlock(bufs) && Visited(bufs, mid, a, log, false, data) && Visited(mid, bufs', b, home, dirty, kept)
    requires log != home && a != b && Unused(bufs, log) && Unused(bufs, home)
    requires (dirty ==> Holds(mid[b], 1, home) && mid[b].dirty) && (forall i | 0 <= i < |bufs| && bufs[i].locked :: !Free(bufs[i]))
    ensures forall no :: Dirties(bufs', no) <==> if no == home then dirty else Dirties(bufs, no) && no != log
    ensures forall no | Unused(bufs, no) :: Unused(bufs', no)
    ensures AnyFree(bufs') && Kept(bufs, bufs')
  {
    VisitedKept(bufs, mid, a, log, false, data);
    VisitedUnused(bufs, mid, a, log, false, data, home);
    VisitedKept(mid, bufs', b, home, dirty, kept);
    KeptTrans(bufs, mid, bufs');
    VisitedOne(bufs, mid, a, log, false, data);
    forall no
      ensures Dirties(bufs', no) <==> if no == home then dirty else Dirties(bufs, no) && no != log
    {
      VisitedDirties(bufs, mid, a, log, false, data, no);
      VisitedDirties(mid, bufs', b, home, dirty, kept, no);
    }
    forall no | Unused(bufs, no)
      ensures Unused(bufs', no)
    {
      VisitedUnused(bufs, mid, a, log, false, data, no);
      VisitedUnused(mid, bufs', b, home, dirty, kept, no);
    }
    assert Free(bufs'[a]);
  }

  /** A buffer let go with these contents. */
  function Given(b: Buf, dirty: bool, data: Block): Buf {
    b.(dirty := dirty, data := data, locked := false, refcnt := b.refcnt - 1)
  }

  /** A loop body of the commit, between its breads and its end. */
  lemma CopyEffect(bufs: seq<Buf>, disk: Image, took: seq<Buf>, both: seq<Buf>, bufs': seq<Buf>,
                   a: int, log: int, b: int, home: int, dirty: bool, data: Block, kept: Block)
    requires OneBufferPerBlock(bufs) && Took(bufs, disk, took, a, log) && Took(took, disk, both, b, home)
    requires log != home && Dirties(bufs, home) && Unused(bufs, home) && Unused(bufs, log)
    requires bufs' == both[a := Given(both[a], false, data)][b := Given(both[b], dirty, kept)]
    requires forall i | 0 <= i < |bufs| && bufs[i].locked :: !Free(bufs[i])
    ensures Kept(bufs, bufs')
    ensures forall no :: Dirties(bufs', no) <==> if no == home then dirty else Dirties(bufs, no) && no != log
    ensures forall no | Unused(bufs, no) :: Unused(bufs', no)
    ensures AnyFree(bufs')
  {
    BothInHand(bufs, disk, took, both, a, log, b, home);
    TwoVisits(bufs, disk, took, both, bufs', a, log, b, home, dirty, data, kept);
    TwoVisitsEffect(bufs, bufs[a := bufs'[a]], bufs', a, log, b, home, dirty, data, kept);
  }

  /** `a` and `b` stored in either order. */
  lemma EitherOrder(both: seq<Buf>, a: int, x: Buf, b: int, y: Buf)
    requires 0 <= a < |both| && 0 <= b < |both| && a != b
    ensures both[a := x][b := y] == both[b := y][a := x]
  {
  }

  // ----- the loop bodies and the header write -----

  /** Both breads of a loop body; -1 if the first finds no buffer. The second finds its block cached. */
  method GetBoth(c: Cache, log: int, home: int) returns (a: int, b: int, ghost took: seq<Buf>)
    requires c.Valid() && 0 <= log < |c.disk| && 0 <= home < |c.disk| && log != home
    requires Unused(c.bufs, log) && Unused(c.bufs, home) && Dirties(c.bufs, home)
    modifies c`bufs
    ensures a == -1 <==> !Room(old(c.bufs), log)
    ensures a != -1 ==>
              c.Valid() && Took(old(c.bufs), c.disk, took, a, log) && Took(took, c.disk, c.bufs, b, home)
    ensures forall no :: View(c.bufs, c.disk, no) == View(old(c.bufs), c.disk, no)
    ensures forall no :: View(took, c.disk, no) == View(old(c.bufs), c.disk, no)
  {
    ghost var bufs := c.bufs;
    a := c.Bread(1, log);
    took, b := c.bufs, -1;
    if a != -1 {
      TookOther(bufs, c.disk, took, a, log, home);
      b := c.Bread(1, home);
    }
  }

  /** The two buffers in hand. */
  lemma BothInHand(bufs: seq<Buf>, disk: Image, took: seq<Buf>, both: seq<Buf>, a: int, log: int, b: int, home: int)
    requires OneBufferPerBlock(bufs) && Took(bufs, disk, took, a, log) && Took(took, disk, both, b, home)
    requires log != home && Dirties(bufs, home) && Unused(bufs, home)
    ensures a != b && both[a].locked && both[b].locked && both[a].valid && both[b].valid && both[b].dirty
    ensures Holds(both[a], 1, log) && Holds(both[b], 1, home)
    ensures both[a].data == View(bufs, disk, log) && both[b].data == View(took, disk, home)
    ensures !Dirties(bufs, log) ==> !both[a].dirty
  {
    TookOther(bufs, disk, took, a, log, home);
    assert Holds(took[b], 1, home);
    var i :| 0 <= i < |bufs| && Holds(bufs[i], 1, home) && bufs[i].dirty;
    assert Holds(took[i], 1, home) && i == b;
  }

  /** `memmove` into a buffer in hand and `bwrite`. */
  method Store(c: Cache, b: int, data: Block)
    requires c.Valid() && 0 <= b < NBUF && c.bufs[b].locked && c.bufs[b].valid && c.bufs[b].dev == 1
    requires 0 <= c.bufs[b].blockno < |c.disk|
    modifies c`bufs, c`disk
    ensures c.Valid() && c.disk == old(c.disk[c.bufs[b].blockno := data])
    ensures c.bufs == old(c.bufs)[b := old(c.bufs[b]).(data := data, dirty := false)]
    ensures forall no :: View(c.bufs, c.disk, no) ==
                         if no == c.bufs[b].blockno then data else View(old(c.bufs), old(c.disk), no)
  {
    c.Modify(b, data);
    var wrote := c.Bwrite(b);
  }

  /** The rest of a loop body: store into one of the two buffers, release the other and then that one. */
  method Finish(c: Cache, into: int, other: int, data: Block)
    requires c.Valid() && 0 <= into < NBUF && 0 <= other < NBUF && into != other && c.bufs[into].locked && c.bufs[other].locked
    requires c.bufs[into].valid && c.bufs[into].dev == 1 && 0 <= c.bufs[into].blockno < |c.disk|
    requires c.bufs[other].dev == 1 && c.bufs[other].blockno != c.bufs[into].blockno
    requires c.bufs[other].valid && !c.bufs[other].dirty ==> c.bufs[other].data == At(c.disk, c.bufs[other].blockno)
    modifies c
    ensures c.Valid() && c.disk == old(c.disk[c.bufs[into].blockno := data])
    ensures c.bufs == old(c.bufs[into := Given(c.bufs[into], false, data)]
                          [other := Given(c.bufs[other], c.bufs[other].dirty, c.bufs[other].data)])
    ensures forall no :: View(c.bufs, c.disk, no) ==
                         if no == old(c.bufs[into].blockno) then data else View(old(c.bufs), old(c.disk), no)
  {
    Store(c, into, data);
    Brelse(c, other);
    Brelse(c, into);
  }

  /** log.c:181-186: copy a block of the transaction to its log block; false if `bread` finds no buffer. */
  method LogBlock(c: Cache, log: int, home: int) returns (ok: bool)
    requires c.Valid() && 0 <= log < |c.disk| && 0 <= home < |c.disk| && log != home
    requires Unused(c.bufs, log) && Unused(c.bufs, home) && Dirties(c.bufs, home)
    modifies c
    ensures ok <==> Room(old(c.bufs), log)
    ensures !ok ==> c.disk == old(c.disk)
    ensures ok ==> c.Valid() && AnyFree(c.bufs) && Kept(old(c.bufs), c.bufs)
                   && Stored(old(c.bufs), old(c.disk), c.bufs, c.disk, log, View(old(c.bufs), old(c.disk), home))
  {
    ghost var bufs, disk := c.bufs, c.disk;
    var to, from; ghost var took;
    to, from, took := GetBoth(c, log, home);
    if to == -1 {
      return false;
    }
    ghost var both, data := c.bufs, c.bufs[from].data;
    BothInHand(bufs, disk, took, both, to, log, from, home);
    Finish(c, to, from, c.bufs[from].data);
    CopyEffect(bufs, disk, took, both, c.bufs, to, log, from, home, true, data, data);
    ok := true;
  }

  /** log.c:75-80: copy a log block to its home location. */
  method InstallBlock(c: Cache, log: int, home: int) returns (ok: bool)
    requires c.Valid() && 0 <= log < |c.disk| && 0 <= home < |c.disk| && log != home
    requires Unused(c.bufs, log) && !Dirties(c.bufs, log) && Unused(c.bufs, home) && Dirties(c.bufs, home)
    modifies c
    ensures ok <==> Room(old(c.bufs), log)
    ensures !ok ==> c.disk == old(c.disk)
    ensures ok ==> c.Valid() && AnyFree(c.bufs) && Kept(old(c.bufs), c.bufs)
                   && Stored(old(c.bufs), old(c.disk), c.bufs, c.disk, home, View(old(c.bufs), old(c.disk), log))
  {
    ghost var bufs, disk := c.bufs, c.disk;
    CleanView(bufs, disk, log);
    var lbuf, dbuf; ghost var took;
    lbuf, dbuf, took := GetBoth(c, log, home);
    if lbuf == -1 {
      return false;
    }
    ghost var both, data := c.bufs, c.bufs[lbuf].data;
    BothInHand(bufs, disk, took, both, lbuf, log, dbuf, home);
    Finish(c, dbuf, lbuf, c.bufs[lbuf].data);
    EitherOrder(both, dbuf, Given(both[dbuf], false, data), lbuf, Given(both[lbuf], false, data));
    CopyEffect(bufs, disk, took, both, c.bufs, lbuf, log, dbuf, home, false, data, data);
    ok := true;
  }

  /** log.c:104-112: the header names `blocks`, and keeps the rest of what it held. */
  method WriteHead(c: Cache, start: int, blocks: seq<int>) returns (ok: bool)
    requires c.Valid() && 0 <= start < |c.disk| && Unused(c.bufs, start)
    modifies c
    ensures ok <==> Room(old(c.bufs), start)
    ensures !ok ==> c.disk == old(c.disk)
    ensures ok ==> c.Valid() && AnyFree(c.bufs) && Kept(old(c.bufs), c.bufs)
                   && Stored(old(c.bufs), old(c.disk), c.bufs, c.disk, start, EncodeHead(View(old(c.bufs), old(c.disk), start), blocks))
  {
    ghost var bufs := c.bufs;
    var b := c.Bread(1, start);
    if b == -1 {
      return false;
    }
    var data := EncodeHead(c.bufs[b].data, blocks);
    Store(c, b, data);
    Brelse(c, b);
    VisitEffect(bufs, c.bufs, b, start, false, data);
    VisitedFree(bufs, c.bufs, b, start, data);
    VisitedKept(bufs, c.bufs, b, start, false, data);
    ok := true;
  }

  lemma VisitEffect(bufs: seq<Buf>, bufs': seq<Buf>, b: int, no: int, dirty: bool, data: Block)
    requires OneBufferPerBlock(bufs) && Visited(bufs, bufs', b, no, dirty, data)
    ensures forall x :: Dirties(bufs', x) <==> if x == no then dirty else Dirties(bufs, x)
    ensures forall x | Unused(bufs, x) :: Unused(bufs', x)
  {
    forall x
      ensures Dirties(bufs', x) <==> if x == no then dirty else Dirties(bufs, x)
    {
      VisitedDirties(bufs, bufs', b, no, dirty, data, x);
    }
    forall x | Unused(bufs, x)
      ensures Unused(bufs', x)
    {
      VisitedUnused(bufs, bufs', b, no, dirty, data, x);
    }
  }

  /** `memmove` into a buffer in hand and the flag that keeps it cached, then `brelse`. */
  method MarkAndRelease(c: Cache, b: int, data: Block)
    requires c.Valid() && 0 <= b < NBUF && c.bufs[b].locked && c.bufs[b].valid && c.bufs[b].dev == 1
    modifies c
    ensures c.Valid() && c.disk == old(c.disk)
    ensures c.bufs == old(c.bufs[b := c.bufs[b].(data := data, dirty := true, locked := false, refcnt := c.bufs[b].refcnt - 1)])
    ensures forall no :: View(c.bufs, c.disk, no) ==
                         if no == old(c.bufs[b].blockno) then data else View(old(c.bufs), old(c.disk), no)
  {
    c.Modify(b, data);
    c.MarkDirty(b);
    Brelse(c, b);
  }

  /** The typical use of `log_write` (log.c:206-210): what the machine's append does to the cache. */
  method LogWrite(c: Cache, no: int, data: Block, ghost v: Dev) returns (ok: bool)
    requires c.Valid() && 0 <= no < |c.disk| && Unused(c.bufs, no) && Sim(v, c.bufs, c.disk)
    modifies c
    ensures ok <==> Room(old(c.bufs), no)
    ensures ok ==> c.Valid() && c.disk == old(c.disk)
                   && Sim(v.(cache := v.cache[no := GroupCommit.Buf(data, true)]), c.bufs, c.disk)
    ensures ok ==> forall x | Unused(old(c.bufs), x) :: Unused(c.bufs, x)
    ensures ok ==> forall used | BusyIn(old(c.bufs), used) :: BusyIn(c.bufs, used + {no})
  {
    ghost var bufs := c.bufs;
    var b := c.Bread(1, no);
    if b == -1 {
      return false;
    }
    MarkAndRelease(c, b, data);
    VisitEffect(bufs, c.bufs, b, no, true, data);
    SimLogged(v, bufs, c.bufs, c.disk, no, data);
    ok := true;
  }

  lemma SimLogged(v: Dev, bufs: seq<Buf>, bufs': seq<Buf>, disk: Image, no: int, data: Block)
    requires Sim(v, bufs, disk)
    requires forall x :: View(bufs', disk, x) == if x == no then data else View(bufs, disk, x)
    requires forall x :: Dirties(bufs', x) <==> if x == no then true else Dirties(bufs, x)
    ensures Sim(v.(cache := v.cache[no := GroupCommit.Buf(data, true)]), bufs', disk)
  {
    var w := v.(cache := v.cache[no := GroupCommit.Buf(data, true)]);
    forall x
      ensures LogCode.Bread(w, x) == View(bufs', disk, x)
      ensures GroupCommit.Dirty(w.cache, x) <==> Dirties(bufs', x)
    {
      assert LogCode.Bread(v, x) == View(bufs, disk, x);
      assert GroupCommit.Dirty(v.cache, x) <==> Dirties(bufs, x);
    }
  }

  // ----- the whole commit -----

  /** The device after `k` writes of a commit, as the machine computes them. */
  function Turns(L: Layout, v: Dev, blocks: seq<int>, k: nat): Dev {
    if k == 0 then v else LogCode.CommitTurn(L, Turns(L, v, blocks, k - 1), blocks, k - 1)
  }

  lemma {:induction false} TurnsAreFlushed(L: Layout, s: GroupCommit.State, k: nat)
    requires LogCode.CommitBegins(L, s) && k <= GroupCommit.CommitLength(s)
    ensures Turns(L, LogCode.DevOf(s), s.lh, k) == LogCode.Flushed(L, s, k)
  {
    if k > 0 {
      TurnsAreFlushed(L, s, k - 1);
      LogCode.FlushedNext(L, s, k - 1);
    }
  }

  /** A commit under way with the machine at `v`: nobody uses its blocks, and those from `lo` on still wait. */
  ghost predicate WorkingState(L: Layout, blocks: seq<int>, bufs: seq<Buf>, disk: Image, v: Dev, lo: int) {
    && Sim(v, bufs, disk) && L.Fits(disk) && |blocks| < L.size && NoneTwice(blocks)
    && (forall b | L.InLog(b) :: Unused(bufs, b) && !Dirties(bufs, b))
    && (forall i | 0 <= i < |blocks| ::
          L.Home(disk, blocks[i]) && Unused(bufs, blocks[i]) && (lo <= i ==> Dirties(bufs, blocks[i])))
  }

  /** Always true; see `Disk.Look`. */
  ghost predicate LookBufs(bufs: seq<Buf>) { true }

  /** The same, unfolded only where a proof names the buffers in `LookBufs`. */
  ghost predicate Working(L: Layout, blocks: seq<int>, bufs: seq<Buf>, disk: Image, v: Dev, lo: int) {
    forall x: seq<Buf> {:trigger LookBufs(x)} | x == bufs && LookBufs(x) :: WorkingState(L, blocks, x, disk, v, lo)
  }

  lemma OpenWorking(L: Layout, blocks: seq<int>, bufs: seq<Buf>, disk: Image, v: Dev, lo: int)
    requires Working(L, blocks, bufs, disk, v, lo)
    ensures WorkingState(L, blocks, bufs, disk, v, lo)
  {
    assert LookBufs(bufs);
  }

  /** Always true; see `Disk.Look`. */
  ghost predicate LookDev(v: Dev) { true }

  /** The machine is at `w` after `k` writes of the commit it began at `v`. */
  ghost predicate Reached(L: Layout, v: Dev, blocks: seq<int>, k: nat, w: Dev) {
    forall x: Dev {:trigger LookDev(x)} | x == w && LookDev(x) :: x == Turns(L, v, blocks, k)
  }

  lemma OpenReached(L: Layout, v: Dev, blocks: seq<int>, k: nat, w: Dev)
    requires Reached(L, v, blocks, k, w)
    ensures w == Turns(L, v, blocks, k)
  {
    assert LookDev(w);
  }

  lemma ReachedNext(L: Layout, v: Dev, blocks: seq<int>, k: nat, w: Dev)
    requires Reached(L, v, blocks, k, w)
    ensures Reached(L, v, blocks, k + 1, LogCode.CommitTurn(L, w, blocks, k))
  {
    OpenReached(L, v, blocks, k, w);
  }

  lemma WorkingStored(L: Layout, blocks: seq<int>, bufs: seq<Buf>, disk: Image, v: Dev, lo: int,
                      bufs': seq<Buf>, disk': Image, dst: int, data: Block, lo': int)
    requires WorkingState(L, blocks, bufs, disk, v, lo) && 0 <= lo && Stored(bufs, disk, bufs', disk', dst, data) && lo <= lo'
    requires forall i | lo' <= i < |blocks| :: blocks[i] != dst
    ensures WorkingState(L, blocks, bufs', disk', LogCode.Bwrite(v, dst, data), lo')
  {
    SimStored(v, bufs, disk, bufs', disk', dst, data);
  }

  /** What the next bodies of the loops need: the log block, and the block of the transaction that still waits. */
  lemma BlocksReady(L: Layout, blocks: seq<int>, bufs: seq<Buf>, disk: Image, w: Dev, lo: int, i: int)
    requires Working(L, blocks, bufs, disk, w, lo) && lo <= i && 0 <= i < |blocks|
    ensures L.InLog(L.start + i + 1) && 0 <= L.start + i + 1 < |disk| && 0 <= blocks[i] < |disk| && L.start + i + 1 != blocks[i]
    ensures Unused(bufs, L.start + i + 1) && !Dirties(bufs, L.start + i + 1) && Unused(bufs, blocks[i]) && Dirties(bufs, blocks[i])
    ensures LogCode.Bread(w, blocks[i]) == View(bufs, disk, blocks[i])
    ensures LogCode.Bread(w, L.start + i + 1) == View(bufs, disk, L.start + i + 1)
  {
    OpenWorking(L, blocks, bufs, disk, w, lo);
    assert L.InLog(L.start + i + 1);
  }

  lemma HeadReady(L: Layout, blocks: seq<int>, bufs: seq<Buf>, disk: Image, w: Dev, lo: int)
    requires Working(L, blocks, bufs, disk, w, lo)
    ensures L.InLog(L.start) && 0 <= L.start < |disk| && Unused(bufs, L.start)
    ensures LogCode.Bread(w, L.start) == View(bufs, disk, L.start)
  {
    OpenWorking(L, blocks, bufs, disk, w, lo);
    assert L.InLog(L.start);
  }

  /** Writing to the log area leaves the commit under way; so does installing the next block. */
  lemma WorkedOn(L: Layout, blocks: seq<int>, bufs: seq<Buf>, disk: Image, w: Dev, lo: int,
                 bufs': seq<Buf>, disk': Image, dst: int, data: Block)
    requires Working(L, blocks, bufs, disk, w, lo) && 0 <= lo && Stored(bufs, disk, bufs', disk', dst, data)
    ensures L.InLog(dst) ==> Working(L, blocks, bufs', disk', LogCode.Bwrite(w, dst, data), lo)
    ensures lo < |blocks| && dst == blocks[lo] ==> Working(L, blocks, bufs', disk', LogCode.Bwrite(w, dst, data), lo + 1)
  {
    OpenWorking(L, blocks, bufs, disk, w, lo);
    if L.InLog(dst) {
      WorkingStored(L, blocks, bufs, disk, w, lo, bufs', disk', dst, data, lo);
    } else if lo < |blocks| && dst == blocks[lo] {
      OpenNoneTwice(blocks);
      WorkingStored(L, blocks, bufs, disk, w, lo, bufs', disk', dst, data, lo + 1);
    }
  }

  lemma LogTurnDone(L: Layout, blocks: seq<int>, bufs: seq<Buf>, disk: Image, v: Dev, w: Dev, i: int, bufs': seq<Buf>, disk': Image)
    returns (w': Dev)
    requires Working(L, blocks, bufs, disk, w, 0) && 0 <= i < |blocks| && Reached(L, v, blocks, i, w)
    requires Stored(bufs, disk, bufs', disk', L.start + i + 1, View(bufs, disk, blocks[i]))
    ensures Working(L, blocks, bufs', disk', w', 0) && Reached(L, v, blocks, i + 1, w')
  {
    BlocksReady(L, blocks, bufs, disk, w, 0, i);
    w' := LogCode.Bwrite(w, L.start + 1 + i, LogCode.Bread(w, blocks[i]));
    ReachedNext(L, v, blocks, i, w);
    WorkedOn(L, blocks, bufs, disk, w, 0, bufs', disk', L.start + i + 1, View(bufs, disk, blocks[i]));
  }

  lemma InstallTurnIs(L: Layout, w: Dev, blocks: seq<int>, i: int)
    requires 0 <= i < |blocks|
    ensures LogCode.CommitTurn(L, w, blocks, |blocks| + 1 + i) == LogCode.Bwrite(w, blocks[i], LogCode.Bread(w, L.start + i + 1))
  {
  }

  lemma InstallTurnDone(L: Layout, blocks: seq<int>, bufs: seq<Buf>, disk: Image, v: Dev, w: Dev, i: int, bufs': seq<Buf>, disk': Image)
    returns (w': Dev)
    requires 0 <= i < |blocks| && Working(L, blocks, bufs, disk, w, i) && Reached(L, v, blocks, |blocks| + 1 + i, w)
    requires Stored(bufs, disk, bufs', disk', blocks[i], View(bufs, disk, L.start + i + 1))
    ensures Working(L, blocks, bufs', disk', w', i + 1) && Reached(L, v, blocks, |blocks| + 2 + i, w')
  {
    BlocksReady(L, blocks, bufs, disk, w, i, i);
    InstallTurnIs(L, w, blocks, i);
    ReachedNext(L, v, blocks, |blocks| + 1 + i, w);
    w' := LogCode.Bwrite(w, blocks[i], LogCode.Bread(w, L.start + i + 1));
    WorkedOn(L, blocks, bufs, disk, w, i, bufs', disk', blocks[i], View(bufs, disk, L.start + i + 1));
  }

  lemma HeadTurnDone(L: Layout, blocks: seq<int>, bufs: seq<Buf>, disk: Image, v: Dev, w: Dev, lh: seq<int>, k: nat, lo: int,
                     bufs': seq<Buf>, disk': Image)
    returns (w': Dev)
    requires 0 <= lo && Working(L, blocks, bufs, disk, w, lo) && Reached(L, v, blocks, k, w)
    requires 0 < |blocks| && ((k == |blocks| && lh == blocks) || (k == 2 * |blocks| + 1 && lh == []))
    requires Stored(bufs, disk, bufs', disk', L.start, EncodeHead(View(bufs, disk, L.start), lh))
    ensures Working(L, blocks, bufs', disk', w', lo) && Reached(L, v, blocks, k + 1, w')
  {
    HeadReady(L, blocks, bufs, disk, w, lo);
    ReachedNext(L, v, blocks, k, w);
    w' := LogCode.Bwrite(w, L.start, EncodeHead(LogCode.Bread(w, L.start), lh));
    WorkedOn(L, blocks, bufs, disk, w, lo, bufs', disk', L.start, EncodeHead(View(bufs, disk, L.start), lh));
  }

  method LogTurn(c: Cache, L: Layout, blocks: seq<int>, tail: int, ghost v: Dev, ghost w: Dev) returns (ok: bool, ghost w': Dev)
    requires c.Valid() && 0 <= tail < |blocks| && Working(L, blocks, c.bufs, c.disk, w, 0) && Reached(L, v, blocks, tail, w)
    modifies c
    ensures ok <==> Room(old(c.bufs), L.start + tail + 1)
    ensures !ok ==> c.disk == old(c.disk)
    ensures ok ==> c.Valid() && AnyFree(c.bufs) && Working(L, blocks, c.bufs, c.disk, w', 0) && Reached(L, v, blocks, tail + 1, w')
  {
    ghost var bufs, disk := c.bufs, c.disk;
    BlocksReady(L, blocks, bufs, disk, w, 0, tail);
    ok := LogBlock(c, L.start + tail + 1, blocks[tail]);
    w' := w;
    if ok {
      w' := LogTurnDone(L, blocks, bufs, disk, v, w, tail, c.bufs, c.disk);
    }
  }

  /** `InstallBlock` with a free buffer to be had. */
  method InstallFree(c: Cache, log: int, home: int)
    requires c.Valid() && AnyFree(c.bufs) && 0 <= log < |c.disk| && 0 <= home < |c.disk| && log != home
    requires Unused(c.bufs, log) && !Dirties(c.bufs, log) && Unused(c.bufs, home) && Dirties(c.bufs, home)
    modifies c
    ensures c.Valid() && AnyFree(c.bufs)
    ensures Stored(old(c.bufs), old(c.disk), c.bufs, c.disk, home, View(old(c.bufs), old(c.disk), log))
  {
    var ok := InstallBlock(c, log, home);
  }

  method InstallTurn(c: Cache, L: Layout, blocks: seq<int>, tail: int, ghost v: Dev, ghost w: Dev) returns (ghost w': Dev)
    requires c.Valid() && AnyFree(c.bufs)
    requires 0 <= tail < |blocks| && Working(L, blocks, c.bufs, c.disk, w, tail) && Reached(L, v, blocks, |blocks| + 1 + tail, w)
    modifies c
    ensures c.Valid() && AnyFree(c.bufs)
    ensures Working(L, blocks, c.bufs, c.disk, w', tail + 1) && Reached(L, v, blocks, |blocks| + 2 + tail, w')
  {
    ghost var bufs, disk := c.bufs, c.disk;
    BlocksReady(L, blocks, bufs, disk, w, tail, tail);
    InstallFree(c, L.start + tail + 1, blocks[tail]);
    w' := InstallTurnDone(L, blocks, bufs, disk, v, w, tail, c.bufs, c.disk);
  }

  method HeadTurn(c: Cache, L: Layout, blocks: seq<int>, lh: seq<int>, ghost k: nat, ghost lo: int, ghost v: Dev, ghost w: Dev)
    returns (ghost w': Dev)
    requires c.Valid() && AnyFree(c.bufs) && 0 <= lo && Working(L, blocks, c.bufs, c.disk, w, lo) && Reached(L, v, blocks, k, w)
    requires 0 < |blocks| && ((k == |blocks| && lh == blocks) || (k == 2 * |blocks| + 1 && lh == []))
    modifies c
    ensures c.Valid() && AnyFree(c.bufs) && Working(L, blocks, c.bufs, c.disk, w', lo) && Reached(L, v, blocks, k + 1, w')
  {
    ghost var bufs, disk := c.bufs, c.disk;
    HeadReady(L, blocks, bufs, disk, w, lo);
    var ok := WriteHead(c, L.start, lh);
    w' := HeadTurnDone(L, blocks, bufs, disk, v, w, lh, k, lo, c.bufs, c.disk);
  }

  /** write_log on the cache; it fails exactly if its first `bread` does. */
  method WriteLog(c: Cache, L: Layout, blocks: seq<int>, ghost v: Dev) returns (ok: bool, ghost w: Dev)
    requires c.Valid() && Working(L, blocks, c.bufs, c.disk, v, 0) && blocks != []
    modifies c
    ensures ok <==> Room(old(c.bufs), L.start + 1)
    ensures !ok ==> c.disk == old(c.disk)
    ensures ok ==> c.Valid() && AnyFree(c.bufs) && Working(L, blocks, c.bufs, c.disk, w, 0) && Reached(L, v, blocks, |blocks|, w)
  {
    w := v;
    var tail := 0;
    while tail < |blocks|
      invariant 0 <= tail <= |blocks| && c.Valid()
      invariant Working(L, blocks, c.bufs, c.disk, w, 0) && Reached(L, v, blocks, tail, w)
      invariant if tail == 0 then c.bufs == old(c.bufs) && c.disk == old(c.disk)
                else AnyFree(c.bufs) && Room(old(c.bufs), L.start + 1)
    {
      ok, w := LogTurn(c, L, blocks, tail, v, w);
      if !ok {
        return;
      }
      tail := tail + 1;
    }
    ok := true;
  }

  /** install_trans on the cache: after write_head there is always a buffer, if nobody else takes it. */
  method InstallTrans(c: Cache, L: Layout, blocks: seq<int>, ghost v: Dev, ghost u: Dev) returns (ghost w: Dev)
    requires c.Valid() && AnyFree(c.bufs) && Working(L, blocks, c.bufs, c.disk, u, 0) && Reached(L, v, blocks, |blocks| + 1, u)
    modifies c
    ensures c.Valid() && AnyFree(c.bufs)
    ensures Working(L, blocks, c.bufs, c.disk, w, |blocks|) && Reached(L, v, blocks, 2 * |blocks| + 1, w)
  {
    w := u;
    var tail := 0;
    while tail < |blocks|
      invariant 0 <= tail <= |blocks| && c.Valid() && AnyFree(c.bufs)
      invariant Working(L, blocks, c.bufs, c.disk, w, tail) && Reached(L, v, blocks, |blocks| + 1 + tail, w)
    {
      w := InstallTurn(c, L, blocks, tail, v, w);
      tail := tail + 1;
    }
  }

  /** The rest of commit once the log blocks are written: it cannot fail. */
  method FinishCommit(c: Cache, L: Layout, blocks: seq<int>, ghost v: Dev, ghost u: Dev)
    requires c.Valid() && AnyFree(c.bufs) && 0 < |blocks|
    requires Working(L, blocks, c.bufs, c.disk, u, 0) && Reached(L, v, blocks, |blocks|, u)
    modifies c
    ensures c.Valid() && Sim(Turns(L, v, blocks, 2 * |blocks| + 2), c.bufs, c.disk)
  {
    ghost var w := HeadTurn(c, L, blocks, blocks, |blocks|, 0, v, u);
    w := InstallTrans(c, L, blocks, v, w);
    w := HeadTurn(c, L, blocks, [], 2 * |blocks| + 1, |blocks|, v, w);
    OpenReached(L, v, blocks, 2 * |blocks| + 2, w);
    OpenWorking(L, blocks, c.bufs, c.disk, w, |blocks|);
  }

  /**
    commit on the cache: the machine's commit, write by write, unless the very
    first `bread` finds neither its block nor a free buffer.
   */
  method Commit(c: Cache, L: Layout, blocks: seq<int>, ghost v: Dev) returns (ok: bool)
    requires c.Valid() && Working(L, blocks, c.bufs, c.disk, v, 0)
    modifies c
    ensures ok <==> blocks == [] || Room(old(c.bufs), L.start + 1)
    ensures !ok ==> c.disk == old(c.disk)
    ensures ok ==> c.Valid() && Sim(Turns(L, v, blocks, if blocks == [] then 0 else 2 * |blocks| + 2), c.bufs, c.disk)
  {
    ok := true;
    if |blocks| > 0 {
      ghost var w;
      ok, w := WriteLog(c, L, blocks, v);
      if ok {
        FinishCommit(c, L, blocks, v, w);
      }
    } else {
      OpenWorking(L, blocks, c.bufs, c.disk, v, 0);
    }
  }

  /** A commit of the machine about to begin, on a cache that stands for its device. */
  lemma WorkingStart(L: Layout, s: GroupCommit.State, bufs: seq<Buf>, disk: Image)
    requires LogCode.CommitBegins(L, s) && Sim(LogCode.DevOf(s), bufs, disk)
    requires (forall b | L.InLog(b) :: Unused(bufs, b)) && (forall i | 0 <= i < |s.lh| :: Unused(bufs, s.lh[i]))
    ensures Working(L, s.lh, bufs, disk, LogCode.DevOf(s), 0)
  {
    assert LogCode.LookAt(s);
    OpenCommit(L, s.disk, s.lh, s.phase.data, s.phase.done);
    forall i | 0 <= i < |s.lh|
      ensures L.Home(disk, s.lh[i]) && Dirties(bufs, s.lh[i])
    {
      assert GroupCommit.Dirty(s.cache, s.lh[i]);
    }
    forall b | L.InLog(b)
      ensures !Dirties(bufs, b)
    {
      assert !GroupCommit.Dirty(s.cache, b);
    }
  }

  /**
    The commit that every run of the machine makes, on `NBUF` buffers: the same
    disk and the same reads when it is done; or, exactly if the first log block
    is not cached and no buffer is free, a panic with nothing written.
   */
  method CommitOnCache(c: Cache, L: Layout, blocks: seq<int>, ghost s: GroupCommit.State) returns (ok: bool)
    requires c.Valid() && LogCode.CommitBegins(L, s) && s.lh == blocks && Sim(LogCode.DevOf(s), c.bufs, c.disk)
    requires (forall b | L.InLog(b) :: Unused(c.bufs, b)) && (forall i | 0 <= i < |blocks| :: Unused(c.bufs, blocks[i]))
    modifies c
    ensures ok <==> blocks == [] || Room(old(c.bufs), L.start + 1)
    ensures !ok ==> c.disk == old(c.disk)
    ensures ok ==> c.Valid() && Sim(LogCode.Flushed(L, s, GroupCommit.CommitLength(s)), c.bufs, c.disk)
  {
    WorkingStart(L, s, c.bufs, c.disk);
    TurnsAreFlushed(L, s, GroupCommit.CommitLength(s));
    ok := Commit(c, L, blocks, LogCode.DevOf(s));
  }

  // ----- when there is a buffer -----

  /** The block numbers of the first `n` buffers, leaving out buffer `k`. */
  ghost function Numbers(bufs: seq<Buf>, n: nat, k: int): set<int>
    requires n <= |bufs|
  {
    set i | 0 <= i < n && i != k :: bufs[i].blockno
  }

  lemma NumbersNext(bufs: seq<Buf>, n: nat, k: int)
    requires n < |bufs|
    ensures Numbers(bufs, n + 1, k) == if n == k then Numbers(bufs, n, k) else Numbers(bufs, n, k) + {bufs[n].blockno}
  {
    forall x
      ensures x in Numbers(bufs, n + 1, k) <==> x in Numbers(bufs, n, k) || (n != k && x == bufs[n].blockno)
    {
      if x in Numbers(bufs, n + 1, k) {
        var i :| 0 <= i < n + 1 && i != k && bufs[i].blockno == x;
        assert i < n ==> x in Numbers(bufs, n, k);
      }
      if x in Numbers(bufs, n, k) {
        var i :| 0 <= i < n && i != k && bufs[i].blockno == x;
        assert 0 <= i < n + 1;
      }
    }
  }

  lemma {:induction false} NumbersAtMost(bufs: seq<Buf>, n: nat, k: int)
    requires n <= |bufs|
    ensures |Numbers(bufs, n, k)| <= if 0 <= k < n then n - 1 else n
  {
    if n > 0 {
      NumbersAtMost(bufs, n - 1, k);
      NumbersNext(bufs, n - 1, k);
    }
  }

  lemma {:induction false} NumbersExact(bufs: seq<Buf>, n: nat)
    requires n <= |bufs| && OneBufferPerBlock(bufs) && forall i | 0 <= i < n :: bufs[i].dev == 1
    ensures |Numbers(bufs, n, -1)| == n
  {
    if n > 0 {
      NumbersExact(bufs, n - 1);
      NumbersNext(bufs, n - 1, -1);
      assert bufs[n - 1].blockno !in Numbers(bufs, n - 1, -1);
    }
  }

  lemma {:induction false} SetSize(blocks: seq<int>)
    requires Distinct(blocks)
    ensures |set b | b in blocks| == |blocks|
  {
    if blocks != [] {
      var n := |blocks| - 1;
      var init := blocks[..n];
      SetSize(init);
      assert blocks[n] !in init;
      assert (set b | b in blocks) == (set b | b in init) + {blocks[n]};
    }
  }

  lemma Within(a: set<int>, b: set<int>)
    requires a <= b
    ensures |a| <= |b|
  {
    assert a + (b - a) == b && a * (b - a) == {};
  }

  /** Fewer blocks in use than there are buffers: one is free. */
  lemma FewLeaveOne(bufs: seq<Buf>, used: set<int>)
    requires OneBufferPerBlock(bufs) && BusyIn(bufs, used) && |used| < |bufs|
    ensures AnyFree(bufs)
  {
    if !AnyFree(bufs) {
      NumbersExact(bufs, |bufs|);
      Within(Numbers(bufs, |bufs|, -1), used);
      assert false;
    }
  }

  /** The buffer of block `no` cannot be taken over. */
  ghost predicate InUse(bufs: seq<Buf>, no: int) { exists i :: 0 <= i < |bufs| && Holds(bufs[i], 1, no) && !Free(bufs[i]) }

  lemma DirtyInUse(bufs: seq<Buf>, no: int)
    requires Dirties(bufs, no)
    ensures InUse(bufs, no)
  {
    var i :| 0 <= i < |bufs| && Holds(bufs[i], 1, no) && bufs[i].dirty;
    assert !Free(bufs[i]);
  }

  /** As many blocks in use as there are buffers: no other block finds one. */
  lemma FullTakesAll(bufs: seq<Buf>, blocks: set<int>, no: int)
    requires (forall b | b in blocks :: InUse(bufs, b)) && |bufs| <= |blocks| && no !in blocks
    ensures !Room(bufs, no)
  {
    if Room(bufs, no) {
      if Has(bufs, no) {
        var k :| 0 <= k < |bufs| && Holds(bufs[k], 1, no);
        OneLeftOut(bufs, blocks, k);
      } else {
        var k :| 0 <= k < |bufs| && Free(bufs[k]);
        OneLeftOut(bufs, blocks, k);
      }
    }
  }

  /** Buffer `k` is none of these blocks': there is one block too many. */
  lemma OneLeftOut(bufs: seq<Buf>, blocks: set<int>, k: int)
    requires (forall b | b in blocks :: InUse(bufs, b)) && 0 <= k < |bufs|
    requires Free(bufs[k]) || bufs[k].blockno !in blocks
    ensures |blocks| < |bufs|
  {
    forall b | b in blocks
      ensures b in Numbers(bufs, |bufs|, k)
    {
      var i :| 0 <= i < |bufs| && Holds(bufs[i], 1, b) && !Free(bufs[i]);
      assert bufs[i].blockno == b && i != k;
    }
    NumbersAtMost(bufs, |bufs|, k);
    Within(blocks, Numbers(bufs, |bufs|, k));
  }

  /** With no other buffer in use, a commit finds one exactly if its transaction is smaller than the cache. */
  lemma CommitFindsBufferIff(L: Layout, blocks: seq<int>, bufs: seq<Buf>)
    requires |bufs| == NBUF && OneBufferPerBlock(bufs) && Distinct(blocks) && L.start + 1 !in blocks
    requires (forall b | b in blocks :: Dirties(bufs, b)) && BusyIn(bufs, (set b | b in blocks))
    ensures Room(bufs, L.start + 1) <==> |blocks| < NBUF
  {
    SetSize(blocks);
    if |blocks| < NBUF {
      FewLeaveOne(bufs, (set b | b in blocks));
    } else {
      forall b | b in blocks
        ensures InUse(bufs, b)
      {
        DirtyInUse(bufs, b);
      }
      FullTakesAll(bufs, (set b | b in blocks), L.start + 1);
    }
  }

  /** All buffers free, and so with `k` blocks logged: those blocks and no other are in use. */
  ghost predicate Filling(blocks: seq<int>, bufs: seq<Buf>, disk: Image, v: Dev, k: nat) {
    && k <= |blocks| && Sim(v, bufs, disk) && (forall no :: Unused(bufs, no))
    && BusyIn(bufs, set i | 0 <= i < k :: blocks[i])
    && (forall no :: Dirties(bufs, no) <==> no in blocks[..k])
  }

  lemma FillingRoom(blocks: seq<int>, bufs: seq<Buf>, disk: Image, v: Dev, k: nat)
    requires Filling(blocks, bufs, disk, v, k) && k < |bufs| && OneBufferPerBlock(bufs)
    ensures AnyFree(bufs)
  {
    PrefixSize(blocks, k);
    FewLeaveOne(bufs, set i | 0 <= i < k :: blocks[i]);
  }

  lemma {:induction false} PrefixSize(blocks: seq<int>, k: nat)
    requires k <= |blocks|
    ensures |set i | 0 <= i < k :: blocks[i]| <= k
  {
    if k > 0 {
      PrefixSize(blocks, k - 1);
      PrefixNext(blocks, k - 1);
    }
  }

  lemma PrefixNext(blocks: seq<int>, k: nat)
    requires k < |blocks|
    ensures (set i | 0 <= i < k + 1 :: blocks[i]) == (set i | 0 <= i < k :: blocks[i]) + {blocks[k]}
  {
  }

  /** One block more is logged. */
  method LogNext(c: Cache, blocks: seq<int>, k: int, data: Block, ghost v: Dev) returns (ok: bool, ghost v': Dev)
    requires c.Valid() && 0 <= k < |blocks| <= NBUF && 0 <= blocks[k] < |c.disk| && Filling(blocks, c.bufs, c.disk, v, k)
    modifies c
    ensures ok && c.Valid() && c.disk == old(c.disk) && Filling(blocks, c.bufs, c.disk, v', k + 1)
  {
    FillingRoom(blocks, c.bufs, c.disk, v, k);
    ok := LogWrite(c, blocks[k], data, v);
    v' := v.(cache := v.cache[blocks[k] := GroupCommit.Buf(data, true)]);
    PrefixNext(blocks, k);
    assert blocks[..k + 1] == blocks[..k] + [blocks[k]];
  }

  method LogAll(c: Cache, blocks: seq<int>, data: Block, ghost v0: Dev) returns (ok: bool, ghost v: Dev)
    requires c.Valid() && |blocks| <= NBUF && Filling(blocks, c.bufs, c.disk, v0, 0)
    requires forall i | 0 <= i < |blocks| :: 0 <= blocks[i] < |c.disk|
    modifies c
    ensures ok && c.Valid() && c.disk == old(c.disk) && Filling(blocks, c.bufs, c.disk, v, |blocks|)
  {
    ok, v := true, v0;
    var k := 0;
    while k < |blocks|
      invariant 0 <= k <= |blocks| && ok && c.Valid() && c.disk == old(c.disk) && Filling(blocks, c.bufs, c.disk, v, k)
    {
      ok, v := LogNext(c, blocks, k, data, v);
      k := k + 1;
    }
  }

  lemma FilledUp(L: Layout, blocks: seq<int>, bufs: seq<Buf>, disk: Image, v: Dev)
    requires Filling(blocks, bufs, disk, v, |blocks|) && |blocks| == |bufs| && Distinct(blocks)
    requires L.Fits(disk) && |blocks| < L.size && forall i | 0 <= i < |blocks| :: L.Home(disk, blocks[i])
    ensures Working(L, blocks, bufs, disk, v, 0) && !Room(bufs, L.start + 1)
  {
    assert blocks[..|blocks|] == blocks;
    SetSize(blocks);
    assert L.InLog(L.start + 1) || L.size == 1;
    forall b | b in blocks
      ensures InUse(bufs, b)
    {
      DirtyInUse(bufs, b);
    }
    FullTakesAll(bufs, (set b | b in blocks), L.start + 1);
  }

  /**
    From a cache as `binit` leaves it, a transaction of as many blocks as there
    are buffers can always be logged and never be committed. `LOGSIZE` lets it
    through whenever the log area has a block for each.
   */
  method FullTransaction(L: Layout, disk: Image, blocks: seq<int>, data: Block) returns (logged: bool, committed: bool)
    requires L.Fits(disk) && |blocks| == NBUF == LOGSIZE && |blocks| < L.size && Distinct(blocks)
    requires forall i | 0 <= i < |blocks| :: L.Home(disk, blocks[i])
    ensures logged && !committed
  {
    var c := new Cache(disk);
    ghost var v := LogCode.Dev(disk, map[]);
    assert Filling(blocks, c.bufs, c.disk, v, 0);
    logged, v := LogAll(c, blocks, data, v);
    FilledUp(L, blocks, c.bufs, c.disk, v);
    committed := Commit(c, L, blocks, v);
  }
}
