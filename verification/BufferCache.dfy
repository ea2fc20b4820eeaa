/**
  The doubly linked ring of bio.c, as `next` and `prev` links between buffer
  indices, with the list head at index `h`.
 */
module Ring {

  /** `next` and `prev` link `h`, then the elements of `ring` in order, then `h` again. */
  ghost predicate Linked(next: seq<int>, prev: seq<int>, h: int, ring: seq<int>) {
    && |next| == |prev| == h + 1 && h >= 0
    && (forall i | 0 <= i < |ring| :: 0 <= ring[i] < h)
    && (forall i, j | 0 <= i < j < |ring| :: ring[i] != ring[j])
    && (forall i | 0 <= i <= |ring| :: next[At(h, ring, i)] == At(h, ring, i + 1))
    && (forall i | 0 <= i <= |ring| :: prev[At(h, ring, i + 1)] == At(h, ring, i))
  }

  /** Position `i` of the closed walk h, ring[0], ..., ring[n-1], h. */
  function At(h: int, ring: seq<int>, i: int): int {
    if 1 <= i <= |ring| then ring[i - 1] else h
  }

  /** One step along the links, either way. */
  lemma Walk(next: seq<int>, prev: seq<int>, h: int, ring: seq<int>, i: int)
    requires Linked(next, prev, h, ring) && 0 <= i <= |ring|
    ensures 0 <= At(h, ring, i) <= h && 0 <= At(h, ring, i + 1) <= h
    ensures next[At(h, ring, i)] == At(h, ring, i + 1) && prev[At(h, ring, i + 1)] == At(h, ring, i)
  {
  }

  function Without(ring: seq<int>, k: int): seq<int>
    requires 0 <= k < |ring|
  {
    ring[..k] + ring[k + 1..]
  }

  /** bio.c:132-133: take element `k` out. */
  lemma Unlink(next: seq<int>, prev: seq<int>, h: int, ring: seq<int>, k: int)
    requires Linked(next, prev, h, ring) && 0 <= k < |ring|
    ensures var b := ring[k];
            && 0 <= next[b] <= h && 0 <= prev[b] <= h
            && Linked(next[prev[b] := next[b]], prev[next[b] := prev[b]], h, Without(ring, k))
  {
    var b, rest := ring[k], Without(ring, k);
    assert At(h, ring, k + 1) == b;
    assert next[b] == At(h, ring, k + 2) && prev[b] == At(h, ring, k);
    var next', prev' := next[prev[b] := next[b]], prev[next[b] := prev[b]];
    forall i | 0 <= i <= |rest|
      ensures next'[At(h, rest, i)] == At(h, rest, i + 1) && prev'[At(h, rest, i + 1)] == At(h, rest, i)
    {
      var j := if i <= k then i else i + 1;
      assert At(h, rest, i) == At(h, ring, j);
      assert next[At(h, ring, j)] == At(h, ring, j + 1) && prev[At(h, ring, j + 1)] == At(h, ring, j);
      assert At(h, rest, i + 1) == if i < k then At(h, ring, i + 1) else At(h, ring, i + 2);
    }
  }

  /** bio.c:50-54 and bio.c:134-137: put `b` right after the head. */
  lemma PushFront(next: seq<int>, prev: seq<int>, h: int, ring: seq<int>, b: int)
    requires Linked(next, prev, h, ring) && 0 <= b < h && b !in ring
    ensures 0 <= next[h] <= h && next[h] != b
    ensures Linked(next[b := next[h]][h := b], prev[b := h][next[h] := b], h, [b] + ring)
  {
    assert At(h, ring, 0) == h && next[h] == At(h, ring, 1);
    var more := [b] + ring;
    var next', prev' := next[b := next[h]][h := b], prev[b := h][next[h] := b];
    forall i | 0 <= i <= |more|
      ensures next'[At(h, more, i)] == At(h, more, i + 1) && prev'[At(h, more, i + 1)] == At(h, more, i)
    {
      if i > 0 {
        assert At(h, more, i) == if i == 1 then b else At(h, ring, i - 1);
        assert At(h, more, i + 1) == At(h, ring, i);
        assert next[At(h, ring, i - 1)] == At(h, ring, i) && prev[At(h, ring, i)] == At(h, ring, i - 1);
      }
    }
  }

  /** The order `binit` leaves: `n - 1`, `n - 2`, ..., `0`. */
  predicate Descending(ring: seq<int>, n: int) {
    |ring| == n && forall i | 0 <= i < n :: ring[i] == n - 1 - i
  }

  lemma DescendingIsPermutation(ring: seq<int>, n: int)
    requires Descending(ring, n)
    ensures Permutation(n, ring)
  {
    forall b | 0 <= b < n
      ensures b in ring
    {
      assert ring[n - 1 - b] == b;
    }
  }

  /** Every index below `h` is in the ring exactly once. */
  ghost predicate Permutation(h: int, ring: seq<int>) {
    |ring| == h && forall b | 0 <= b < h :: b in ring
  }

  lemma MovedIsPermutation(h: int, ring: seq<int>, k: int)
    requires Permutation(h, ring) && 0 <= k < |ring|
    ensures Permutation(h, [ring[k]] + Without(ring, k))
  {
    var moved := [ring[k]] + Without(ring, k);
    forall b | 0 <= b < h
      ensures b in moved
    {
      assert b in ring;
      var i :| 0 <= i < |ring| && ring[i] == b;
      assert moved[if i < k then i + 1 else if i == k then 0 else i] == b;
    }
  }
}

/**
  The buffer cache of bio.c over the one-block-at-a-time disk of memide.c:38-59.
  Each method is one critical section of the code (or one access by the process
  that holds a buffer's sleep lock), so any interleaving of processes is a
  sequence of method calls.
 */
module BufferCache {
  import opened Disk
  import Ring

  const NBUF := 30

  datatype Buf = Buf(dev: int, blockno: int, valid: bool, dirty: bool, refcnt: int, locked: bool, data: Block)

  predicate Holds(b: Buf, dev: int, blockno: int) { b.dev == dev && b.blockno == blockno }

  predicate Free(b: Buf) { b.refcnt == 0 && !b.dirty }

  /** What a client reading block `blockno` of disk 1 is to see. */
  ghost function View(bufs: seq<Buf>, disk: Image, blockno: int): Block {
    if exists i | 0 <= i < |bufs| :: Holds(bufs[i], 1, blockno) && bufs[i].valid
    then
      var i :| 0 <= i < |bufs| && Holds(bufs[i], 1, blockno) && bufs[i].valid;
      bufs[i].data
    else At(disk, blockno)
  }

  /** At most one buffer per block; `binit` leaves the untouched ones on device 0. */
  ghost predicate OneBufferPerBlock(bufs: seq<Buf>) {
    forall i, j | 0 <= i < j < |bufs| && Holds(bufs[j], bufs[i].dev, bufs[i].blockno) :: bufs[i].dev == 0
  }

  /** A buffer that nobody holds and that is not waiting for a commit agrees with the disk. */
  ghost predicate Settled(b: Buf, disk: Image) {
    && 0 <= b.refcnt
    && (b.locked ==> b.refcnt > 0)
    && (b.dirty ==> b.valid)
    && (b.dev == 1 && b.valid && !b.dirty && !b.locked ==> b.data == At(disk, b.blockno))
  }

  lemma ViewOf(bufs: seq<Buf>, disk: Image, i: int)
    requires OneBufferPerBlock(bufs) && 0 <= i < |bufs| && bufs[i].dev == 1
    ensures bufs[i].valid ==> View(bufs, disk, bufs[i].blockno) == bufs[i].data
    ensures !bufs[i].valid ==> View(bufs, disk, bufs[i].blockno) == At(disk, bufs[i].blockno)
  {
  }

  /** A change to one buffer that keeps its key changes no other block's view. */
  lemma ViewFrame(bufs: seq<Buf>, disk: Image, i: int, b: Buf, blockno: int)
    requires OneBufferPerBlock(bufs) && 0 <= i < |bufs| && OneBufferPerBlock(bufs[i := b])
    requires !Holds(bufs[i], 1, blockno) || !bufs[i].valid
    requires !Holds(b, 1, blockno) || !b.valid
    ensures View(bufs[i := b], disk, blockno) == View(bufs, disk, blockno)
  {
    var bufs' := bufs[i := b];
    if k :| 0 <= k < |bufs| && Holds(bufs[k], 1, blockno) && bufs[k].valid {
      assert Holds(bufs'[k], 1, blockno) && bufs'[k].valid;
      ViewOf(bufs, disk, k);
      ViewOf(bufs', disk, k);
    } else {
      assert forall k | 0 <= k < |bufs'| :: !(Holds(bufs'[k], 1, blockno) && bufs'[k].valid);
    }
  }

  /** Same blocks with the same contents, whatever the reference counts, locks and dirty bits. */
  ghost predicate SameContents(b: Buf, c: Buf) {
    b.dev == c.dev && b.blockno == c.blockno && b.valid == c.valid && (b.valid ==> b.data == c.data)
  }

  lemma SameContentsView(bufs: seq<Buf>, disk: Image, i: int, b: Buf)
    requires OneBufferPerBlock(bufs) && 0 <= i < |bufs| && SameContents(bufs[i], b)
    ensures OneBufferPerBlock(bufs[i := b])
    ensures forall no :: View(bufs[i := b], disk, no) == View(bufs, disk, no)
  {
    var bufs' := bufs[i := b];
    assert forall k | 0 <= k < |bufs| :: bufs'[k].dev == bufs[k].dev && bufs'[k].blockno == bufs[k].blockno;
    forall no
      ensures View(bufs', disk, no) == View(bufs, disk, no)
    {
      if Holds(b, 1, no) && b.valid {
        assert Holds(bufs[i], 1, no) && Holds(bufs'[i], 1, no);
        ViewOf(bufs, disk, i);
        ViewOf(bufs', disk, i);
      } else {
        ViewFrame(bufs, disk, i, b, no);
      }
    }
  }

  /** Taking over a free, settled buffer for a block no buffer holds changes no view. */
  lemma RecycleView(bufs: seq<Buf>, disk: Image, i: int, dev: int, blockno: int)
    requires OneBufferPerBlock(bufs) && 0 <= i < |bufs| && dev != 0
    requires Free(bufs[i]) && Settled(bufs[i], disk)
    requires forall k | 0 <= k < |bufs| :: !Holds(bufs[k], dev, blockno)
    ensures var b := Buf(dev, blockno, false, false, 1, bufs[i].locked, bufs[i].data);
            && OneBufferPerBlock(bufs[i := b])
            && forall no :: View(bufs[i := b], disk, no) == View(bufs, disk, no)
  {
    var b := Buf(dev, blockno, false, false, 1, bufs[i].locked, bufs[i].data);
    var bufs' := bufs[i := b];
    forall no
      ensures View(bufs', disk, no) == View(bufs, disk, no)
    {
      if Holds(bufs[i], 1, no) && bufs[i].valid {
        ViewOf(bufs, disk, i);
        assert forall k | 0 <= k < |bufs'| :: !(Holds(bufs'[k], 1, no) && bufs'[k].valid);
      } else {
        ViewFrame(bufs, disk, i, b, no);
      }
    }
  }

  lemma ViewIfDisk1(bufs: seq<Buf>, disk: Image, i: int)
    requires OneBufferPerBlock(bufs) && 0 <= i < |bufs|
    ensures bufs[i].dev == 1 ==>
              View(bufs, disk, bufs[i].blockno) == if bufs[i].valid then bufs[i].data else At(disk, bufs[i].blockno)
  {
    if bufs[i].dev == 1 {
      ViewOf(bufs, disk, i);
    }
  }

  lemma KeepKeys(bufs: seq<Buf>, i: int, b: Buf)
    requires OneBufferPerBlock(bufs) && 0 <= i < |bufs| && Holds(b, bufs[i].dev, bufs[i].blockno)
    ensures OneBufferPerBlock(bufs[i := b])
  {
    var bufs' := bufs[i := b];
    assert forall k | 0 <= k < |bufs| :: bufs'[k].dev == bufs[k].dev && bufs'[k].blockno == bufs[k].blockno;
  }

  /** New contents for one buffer's block: that block's view changes, no other. */
  lemma ModifyView(bufs: seq<Buf>, disk: Image, i: int, data: Block)
    requires OneBufferPerBlock(bufs) && 0 <= i < |bufs| && bufs[i].dev == 1
    ensures var bufs' := bufs[i := bufs[i].(valid := true, data := data)];
            && OneBufferPerBlock(bufs')
            && forall no :: View(bufs', disk, no) == if no == bufs[i].blockno then data else View(bufs, disk, no)
  {
    var b := bufs[i].(valid := true, data := data);
    KeepKeys(bufs, i, b);
    ViewOf(bufs[i := b], disk, i);
    forall no | no != bufs[i].blockno
      ensures View(bufs[i := b], disk, no) == View(bufs, disk, no)
    {
      ViewFrame(bufs, disk, i, b, no);
    }
  }

  lemma FillView(bufs: seq<Buf>, disk: Image, i: int)
    requires OneBufferPerBlock(bufs) && 0 <= i < |bufs| && bufs[i].dev == 1 && !bufs[i].valid
    ensures var bufs' := bufs[i := bufs[i].(valid := true, data := At(disk, bufs[i].blockno))];
            && OneBufferPerBlock(bufs')
            && forall no :: View(bufs', disk, no) == View(bufs, disk, no)
  {
    ModifyView(bufs, disk, i, At(disk, bufs[i].blockno));
    ViewOf(bufs, disk, i);
  }

  /** Writing a cached block to its own place on the disk changes no view. */
  lemma WriteView(bufs: seq<Buf>, disk: Image, i: int)
    requires OneBufferPerBlock(bufs) && 0 <= i < |bufs| && bufs[i].dev == 1 && bufs[i].valid
    requires 0 <= bufs[i].blockno < |disk|
    ensures forall no :: View(bufs, disk[bufs[i].blockno := bufs[i].data], no) == View(bufs, disk, no)
  {
    var disk' := disk[bufs[i].blockno := bufs[i].data];
    forall no
      ensures View(bufs, disk', no) == View(bufs, disk, no)
    {
      if k :| 0 <= k < |bufs| && Holds(bufs[k], 1, no) && bufs[k].valid {
        ViewOf(bufs, disk, k);
        ViewOf(bufs, disk', k);
      }
    }
  }

  /** `b` is the last buffer of the ring that is free. */
  ghost predicate LastFree(bufs: seq<Buf>, ring: seq<int>, b: int)
    requires |bufs| == |ring| == NBUF && forall i | 0 <= i < NBUF :: 0 <= ring[i] < NBUF
  {
    exists k | 0 <= k < NBUF :: ring[k] == b && Free(bufs[b]) && forall j | k < j < NBUF :: !Free(bufs[ring[j]])
  }

  /** bio.c:69-76: walk the ring forwards to the buffer of a block; `NBUF` if there is none. */
  method FindBuf(bufs: seq<Buf>, next: seq<int>, prev: seq<int>, dev: int, blockno: int, ghost ring: seq<int>)
    returns (b: int)
    requires |bufs| == NBUF && Ring.Linked(next, prev, NBUF, ring) && Ring.Permutation(NBUF, ring)
    ensures 0 <= b <= NBUF
    ensures b < NBUF ==> Holds(bufs[b], dev, blockno)
    ensures b == NBUF ==> forall i | 0 <= i < NBUF :: !Holds(bufs[i], dev, blockno)
  {
    Ring.Walk(next, prev, NBUF, ring, 0);
    b := next[NBUF];
    ghost var k := 0;
    while b != NBUF && !(bufs[b].dev == dev && bufs[b].blockno == blockno)
      invariant 0 <= k <= NBUF && b == Ring.At(NBUF, ring, k + 1)
      invariant forall j | 0 <= j < k :: !Holds(bufs[ring[j]], dev, blockno)
      decreases NBUF - k
    {
      Ring.Walk(next, prev, NBUF, ring, k + 1);
      b := next[b];
      k := k + 1;
    }
    assert k < NBUF ==> b == ring[k];
    forall i | b == NBUF && 0 <= i < NBUF
      ensures !Holds(bufs[i], dev, blockno)
    {
      assert i in ring;
    }
  }

  /** bio.c:81-91: walk it backwards to the least recently used free buffer; `NBUF` if there is none. */
  method FindFree(bufs: seq<Buf>, next: seq<int>, prev: seq<int>, ghost ring: seq<int>) returns (b: int)
    requires |bufs| == NBUF && Ring.Linked(next, prev, NBUF, ring) && Ring.Permutation(NBUF, ring)
    ensures 0 <= b <= NBUF
    ensures b < NBUF ==> LastFree(bufs, ring, b)
    ensures b == NBUF ==> forall i | 0 <= i < NBUF :: !Free(bufs[i])
  {
    Ring.Walk(next, prev, NBUF, ring, NBUF);
    b := prev[NBUF];
    ghost var k := NBUF;
    while b != NBUF && !(bufs[b].refcnt == 0 && !bufs[b].dirty)
      invariant 0 <= k <= NBUF && b == Ring.At(NBUF, ring, k)
      invariant forall j | k <= j < NBUF :: !Free(bufs[ring[j]])
      decreases k
    {
      Ring.Walk(next, prev, NBUF, ring, k - 1);
      b := prev[b];
      k := k - 1;
    }
    assert 0 < k ==> b == ring[k - 1];
    forall i | b == NBUF && 0 <= i < NBUF
      ensures !Free(bufs[i])
    {
      assert i in ring;
    }
  }

  /** Disk block `no` has a buffer. */
  ghost predicate Has(bufs: seq<Buf>, no: int) { exists i :: 0 <= i < |bufs| && Holds(bufs[i], 1, no) }

  ghost predicate AnyFree(bufs: seq<Buf>) { exists i :: 0 <= i < |bufs| && Free(bufs[i]) }

  /** Buffer `b` was found for, or taken over for, disk block `no`, and is locked and read in. */
  ghost predicate Took(bufs: seq<Buf>, disk: Image, bufs': seq<Buf>, b: int, no: int) {
    && 0 <= b < |bufs|
    && (Holds(bufs[b], 1, no) || (Free(bufs[b]) && !Has(bufs, no)))
    && bufs' == bufs[b := Buf(1, no, true, bufs[b].dirty, (if Holds(bufs[b], 1, no) then bufs[b].refcnt else 0) + 1,
                             true, View(bufs, disk, no))]
  }

  /** Later before earlier: the ring has the buffers in the order they were last let go, all before `clock`. */
  ghost predicate InOrder(ring: seq<int>, released: seq<int>, clock: int) {
    && |ring| == |released| == NBUF && (forall i | 0 <= i < NBUF :: released[i] < clock)
    && (forall i | 0 <= i < NBUF :: 0 <= ring[i] < NBUF)
    && forall i, j | 0 <= i < j < NBUF :: Later(released, ring[i], ring[j])
  }

  ghost predicate Later(released: seq<int>, b: int, c: int) {
    0 <= b < |released| && 0 <= c < |released| && released[b] > released[c]
  }

  /** Always true; see `Disk.Look`. */
  ghost predicate LookRing(ring: seq<int>) { true }

  /** The same, unfolded only where a proof names the ring in `LookRing`. */
  ghost predicate ByRelease(ring: seq<int>, released: seq<int>, clock: int) {
    |released| == NBUF && forall x: seq<int> {:trigger LookRing(x)} | x == ring && LookRing(x) :: InOrder(x, released, clock)
  }

  /** So the last free buffer of the ring is the one let go longest ago. */
  lemma LongestAgo(bufs: seq<Buf>, ring: seq<int>, released: seq<int>, clock: int, b: int, i: int)
    requires |bufs| == |ring| == NBUF && (forall j | 0 <= j < NBUF :: 0 <= ring[j] < NBUF)
    requires ByRelease(ring, released, clock) && Ring.Permutation(NBUF, ring)
    requires LastFree(bufs, ring, b) && 0 <= i < NBUF && Free(bufs[i])
    ensures 0 <= b < NBUF && released[b] <= released[i]
  {
    assert LookRing(ring);
    assert i in ring;
    var m :| 0 <= m < NBUF && ring[m] == i;
    var k :| 0 <= k < NBUF && ring[k] == b && Free(bufs[b]) && forall j | k < j < NBUF :: !Free(bufs[ring[j]]);
    assert m < k ==> Later(released, ring[m], ring[k]);
  }

  lemma OldestFree(bufs: seq<Buf>, ring: seq<int>, released: seq<int>, clock: int, b: int)
    requires |bufs| == |ring| == NBUF && (forall j | 0 <= j < NBUF :: 0 <= ring[j] < NBUF)
    requires ByRelease(ring, released, clock) && Ring.Permutation(NBUF, ring) && LastFree(bufs, ring, b)
    ensures 0 <= b < NBUF && Free(bufs[b]) && forall i | 0 <= i < NBUF && Free(bufs[i]) :: released[b] <= released[i]
  {
    forall i | 0 <= i < NBUF && Free(bufs[i])
      ensures released[b] <= released[i]
    {
      LongestAgo(bufs, ring, released, clock, b, i);
    }
  }

  lemma MovedByRelease(ring: seq<int>, released: seq<int>, clock: int, k: int)
    requires ByRelease(ring, released, clock) && |ring| == NBUF && 0 <= k < NBUF && 0 <= ring[k] < NBUF
    ensures ByRelease([ring[k]] + Ring.Without(ring, k), released[ring[k] := clock], clock + 1)
  {
    assert LookRing(ring);
    var b, ring', released' := ring[k], [ring[k]] + Ring.Without(ring, k), released[ring[k] := clock];
    forall i, j | 0 <= i < j < NBUF
      ensures Later(released', ring'[i], ring'[j])
    {
      MovedLater(ring, released, clock, k, i, j);
    }
    assert InOrder(ring', released', clock + 1);
  }

  lemma MovedLater(ring: seq<int>, released: seq<int>, clock: int, k: int, i: int, j: int)
    requires InOrder(ring, released, clock) && 0 <= k < NBUF && 0 <= i < j < NBUF
    ensures var ring' := [ring[k]] + Ring.Without(ring, k);
            Later(released[ring[k] := clock], ring'[i], ring'[j])
  {
    var y := if j <= k then j - 1 else j;
    assert Later(released, ring[if y < k then y else k], ring[if y < k then k else y]);
    if i > 0 {
      var x := if i <= k then i - 1 else i;
      assert Later(released, ring[x], ring[y]);
      assert Later(released, ring[if x < k then x else k], ring[if x < k then k else x]);
    }
  }

  class Cache {
    var bufs: seq<Buf>
    var next: seq<int>
    var prev: seq<int>
    var disk: Image
    ghost var ring: seq<int>
    ghost var released: seq<int>
    ghost var clock: int

    ghost predicate Valid()
      reads this
    {
      && |bufs| == NBUF
      && Ring.Linked(next, prev, NBUF, ring) && Ring.Permutation(NBUF, ring) && ByRelease(ring, released, clock)
      && OneBufferPerBlock(bufs)
      && forall i | 0 <= i < NBUF :: Settled(bufs[i], disk)
    }

    /** `binit`: every buffer on the ring, the last one most recent, all on device 0. */
    constructor (disk: Image)
      ensures Valid() && this.disk == disk
      ensures Ring.Descending(ring, NBUF)
      ensures forall i | 0 <= i < NBUF :: Free(bufs[i]) && bufs[i].dev == 0
      ensures forall blockno :: View(bufs, disk, blockno) == At(disk, blockno)
    {
      this.disk := disk;
      bufs := seq(NBUF, i => Buf(0, 0, false, false, 0, false, ZERO));
      next := seq(NBUF + 1, i => NBUF);
      prev := seq(NBUF + 1, i => NBUF);
      ring, released, clock := [], seq(NBUF, i => i), NBUF;
      new;
      var b := 0;
      while b < NBUF
        invariant 0 <= b <= NBUF && |bufs| == NBUF && this.disk == disk && released == seq(NBUF, i => i) && clock == NBUF
        invariant forall i | 0 <= i < NBUF :: bufs[i] == Buf(0, 0, false, false, 0, false, ZERO)
        invariant Ring.Linked(next, prev, NBUF, ring) && Ring.Descending(ring, b)
      {
        Ring.PushFront(next, prev, NBUF, ring, b);
        next := next[b := next[NBUF]];
        prev := prev[b := NBUF];
        prev := prev[next[NBUF] := b];
        next := next[NBUF := b];
        ring := [b] + ring;
        b := b + 1;
      }
      Ring.DescendingIsPermutation(ring, NBUF);
      assert InOrder(ring, released, clock);
    }

    /**
      The critical section of `bget`: the buffer that holds the block, or else
      the least recently used buffer that is free and clean, taken over; -1 for
      the panic when there is none. The caller still has to take its sleep lock.
     */
    method Bget(dev: int, blockno: int) returns (b: int)
      requires Valid() && dev != 0
      modifies `bufs
      ensures Valid()
      ensures forall no :: View(bufs, disk, no) == View(old(bufs), disk, no)
      ensures forall i | 0 <= i < NBUF && i != b :: bufs[i] == old(bufs[i])
      ensures b == -1 <==> forall i | 0 <= i < NBUF :: !Holds(old(bufs[i]), dev, blockno) && !Free(old(bufs[i]))
      ensures b != -1 ==> 0 <= b < NBUF && Holds(bufs[b], dev, blockno) && bufs[b].refcnt == old(bufs[b].refcnt) + 1
      ensures b != -1 && Holds(old(bufs[b]), dev, blockno) ==>
                bufs[b] == old(bufs[b]).(refcnt := old(bufs[b].refcnt) + 1)
      ensures b != -1 && !Holds(old(bufs[b]), dev, blockno) ==>
                && !bufs[b].valid && !bufs[b].dirty && !bufs[b].locked
                && (forall i | 0 <= i < NBUF :: !Holds(old(bufs[i]), dev, blockno))
                && LastFree(old(bufs), ring, b)
                && Free(old(bufs[b])) && forall i | 0 <= i < NBUF && Free(old(bufs[i])) :: released[b] <= released[i]
    {
      b := FindBuf(bufs, next, prev, dev, blockno, ring);
      if b != NBUF {
        SameContentsView(bufs, disk, b, bufs[b].(refcnt := bufs[b].refcnt + 1));
        bufs := bufs[b := bufs[b].(refcnt := bufs[b].refcnt + 1)];
        return;
      }
      b := FindFree(bufs, next, prev, ring);
      if b != NBUF {
        OldestFree(bufs, ring, released, clock, b);
        RecycleView(bufs, disk, b, dev, blockno);
        bufs := bufs[b := Buf(dev, blockno, false, false, 1, bufs[b].locked, bufs[b].data)];
        return;
      }
      b := -1;
    }

    /** `acquiresleep` on a buffer, once no other process holds it. */
    method Acquire(b: int)
      requires Valid() && 0 <= b < NBUF && bufs[b].refcnt > 0 && !bufs[b].locked
      modifies `bufs
      ensures Valid() && bufs == old(bufs)[b := old(bufs[b]).(locked := true)]
      ensures forall no :: View(bufs, disk, no) == View(old(bufs), disk, no)
    {
      SameContentsView(bufs, disk, b, bufs[b].(locked := true));
      bufs := bufs[b := bufs[b].(locked := true)];
    }

    /** The second half of `bread`: read the block in unless it is already there; false for a panic of `iderw`. */
    method Fill(b: int) returns (ok: bool)
      requires Valid() && 0 <= b < NBUF && bufs[b].locked
      modifies `bufs
      ensures Valid()
      ensures ok <==> old(bufs[b].valid) || (bufs[b].dev == 1 && 0 <= bufs[b].blockno < |disk|)
      ensures !ok ==> bufs == old(bufs)
      ensures ok ==> bufs == old(bufs)[b := old(bufs[b]).(valid := true, data := bufs[b].data)]
      ensures ok && bufs[b].dev == 1 ==> bufs[b].data == View(old(bufs), disk, bufs[b].blockno)
      ensures forall no :: View(bufs, disk, no) == View(old(bufs), disk, no)
    {
      ok := true;
      ViewIfDisk1(bufs, disk, b);
      if !bufs[b].valid {
        if bufs[b].dev != 1 || bufs[b].blockno < 0 || bufs[b].blockno >= |disk| {
          return false;
        }
        FillView(bufs, disk, b);
        bufs := bufs[b := bufs[b].(valid := true, data := disk[bufs[b].blockno])];
      }
    }

    /** `bread` of a block no other process is using. */
    method Bread(dev: int, blockno: int) returns (b: int)
      requires Valid() && dev != 0
      requires forall i | 0 <= i < NBUF && Holds(bufs[i], dev, blockno) :: !bufs[i].locked
      modifies `bufs
      ensures Valid()
      ensures b != -1 <==>
                || (exists i | 0 <= i < NBUF :: Holds(old(bufs[i]), dev, blockno) && old(bufs[i].valid))
                || (dev == 1 && 0 <= blockno < |disk|
                    && exists i | 0 <= i < NBUF :: Holds(old(bufs[i]), dev, blockno) || Free(old(bufs[i])))
      ensures b != -1 ==>
                && 0 <= b < NBUF && Holds(bufs[b], dev, blockno) && bufs[b].locked && bufs[b].valid
                && (dev == 1 ==> bufs[b].data == View(old(bufs), disk, blockno))
      ensures dev == 1 && 0 <= blockno < |disk| ==>
                if Has(old(bufs), blockno) || AnyFree(old(bufs)) then Took(old(bufs), disk, bufs, b, blockno)
                else b == -1 && bufs == old(bufs)
      ensures forall no :: View(bufs, disk, no) == View(old(bufs), disk, no)
    {
      b := Bget(dev, blockno);
      if b != -1 {
        Acquire(b);
        var ok := Fill(b);
        if !ok {
          b := -1;
        }
      }
    }

    /** The holder of the lock changes the contents. */
    method Modify(b: int, data: Block)
      requires Valid() && 0 <= b < NBUF && bufs[b].locked && bufs[b].valid && bufs[b].dev == 1
      modifies `bufs
      ensures Valid() && bufs == old(bufs)[b := old(bufs[b]).(data := data)]
      ensures forall no :: View(bufs, disk, no) == if no == bufs[b].blockno then data else View(old(bufs), disk, no)
    {
      ModifyView(bufs, disk, b, data);
      bufs := bufs[b := bufs[b].(data := data)];
    }

    /** `log_write` marks the buffer dirty, which keeps `bget` from recycling it. */
    method MarkDirty(b: int)
      requires Valid() && 0 <= b < NBUF && bufs[b].locked && bufs[b].valid
      modifies `bufs
      ensures Valid() && bufs == old(bufs)[b := old(bufs[b]).(dirty := true)]
      ensures forall no :: View(bufs, disk, no) == View(old(bufs), disk, no)
    {
      SameContentsView(bufs, disk, b, bufs[b].(dirty := true));
      bufs := bufs[b := bufs[b].(dirty := true)];
    }

    /** Write the contents through to the disk; false for a panic. A buffer never read in is written as it is. */
    method Bwrite(b: int) returns (ok: bool)
      requires Valid() && 0 <= b < NBUF
      modifies `bufs, `disk
      ensures ok <==> old(bufs[b].locked && bufs[b].dev == 1 && 0 <= bufs[b].blockno < |disk|)
      ensures !ok ==> bufs == old(bufs) && disk == old(disk)
      ensures ok ==> Valid() && disk == old(disk[bufs[b].blockno := bufs[b].data])
                     && bufs == old(bufs)[b := old(bufs[b]).(dirty := false, valid := true)]
      ensures ok ==> forall no :: View(bufs, disk, no) ==
                       if no == bufs[b].blockno then old(bufs[b].data) else View(old(bufs), old(disk), no)
      ensures ok && old(bufs[b].valid) ==> forall no :: View(bufs, disk, no) == View(old(bufs), old(disk), no)
    {
      ok := bufs[b].locked && bufs[b].dev == 1 && 0 <= bufs[b].blockno < |disk|;
      if ok {
        ViewOf(bufs, disk, b);
        ModifyView(bufs, disk, b, bufs[b].data);
        bufs := bufs[b := bufs[b].(valid := true)];
        SameContentsView(bufs, disk, b, bufs[b].(dirty := false));
        bufs := bufs[b := bufs[b].(dirty := false)];
        WriteView(bufs, disk, b);
        disk := disk[bufs[b].blockno := bufs[b].data];
      }
    }

    /** The six pointer assignments of bio.c:132-137. */
    method MoveToFront(b: int)
      requires 0 <= b < NBUF && Ring.Linked(next, prev, NBUF, ring) && Ring.Permutation(NBUF, ring)
      modifies `next, `prev, `ring
      ensures Ring.Linked(next, prev, NBUF, ring) && Ring.Permutation(NBUF, ring)
      ensures exists k | 0 <= k < NBUF :: old(ring)[k] == b && ring == [b] + Ring.Without(old(ring), k)
    {
      assert b in ring;
      ghost var k :| 0 <= k < NBUF && ring[k] == b;
      Ring.Unlink(next, prev, NBUF, ring, k);
      Ring.MovedIsPermutation(NBUF, ring, k);
      prev := prev[next[b] := prev[b]];
      next := next[prev[b] := next[b]];
      ring := Ring.Without(ring, k);
      Ring.PushFront(next, prev, NBUF, ring, b);
      next := next[b := next[NBUF]];
      prev := prev[b := NBUF];
      prev := prev[next[NBUF] := b];
      next := next[NBUF := b];
      ring := [b] + ring;
    }

    /** Buffer `b` is let go: now the most recent. */
    method LetGo(b: int)
      requires 0 <= b < NBUF && Ring.Linked(next, prev, NBUF, ring) && Ring.Permutation(NBUF, ring) && ByRelease(ring, released, clock)
      modifies `next, `prev, `ring, `released, `clock
      ensures Ring.Linked(next, prev, NBUF, ring) && Ring.Permutation(NBUF, ring) && ByRelease(ring, released, clock)
      ensures exists k | 0 <= k < NBUF :: old(ring)[k] == b && ring == [b] + Ring.Without(old(ring), k)
      ensures released == old(released)[b := old(clock)] && clock == old(clock) + 1
    {
      ghost var was := ring;
      MoveToFront(b);
      ghost var k :| 0 <= k < NBUF && was[k] == b && ring == [b] + Ring.Without(was, k);
      MovedByRelease(was, released, clock, k);
      released, clock := released[b := clock], clock + 1;
    }

    /**
      The first half of `brelse`, `releasesleep`; false for the panic. All is
      well exactly if the holder has logged or written out what it changed.
     */
    method ReleaseLock(b: int) returns (ok: bool)
      requires Valid() && 0 <= b < NBUF
      modifies `bufs
      ensures ok <==> old(bufs[b].locked)
      ensures bufs == if ok then old(bufs)[b := old(bufs[b]).(locked := false)] else old(bufs)
      ensures forall no :: View(bufs, disk, no) == View(old(bufs), disk, no)
      ensures Valid() <==>
                (ok && bufs[b].dev == 1 && bufs[b].valid && !bufs[b].dirty ==> bufs[b].data == At(disk, bufs[b].blockno))
    {
      ok := bufs[b].locked;
      if ok {
        SameContentsView(bufs, disk, b, bufs[b].(locked := false));
        bufs := bufs[b := bufs[b].(locked := false)];
      }
    }

    /**
      The second half of `brelse`, under the cache's lock: drop a reference that
      is not the one of a process that holds the buffer.
     */
    method Unreference(b: int)
      requires Valid() && 0 <= b < NBUF && bufs[b].refcnt > if bufs[b].locked then 1 else 0
      modifies `bufs, `next, `prev, `ring, `released, `clock
      ensures Valid() && bufs == old(bufs)[b := old(bufs[b]).(refcnt := old(bufs[b].refcnt) - 1)]
      ensures bufs[b].refcnt > 0 ==> ring == old(ring) && released == old(released) && clock == old(clock)
      ensures bufs[b].refcnt == 0 ==> released == old(released)[b := old(clock)] && clock == old(clock) + 1
      ensures bufs[b].refcnt == 0 ==>
                exists k | 0 <= k < NBUF :: old(ring)[k] == b && ring == [b] + Ring.Without(old(ring), k)
      ensures forall no :: View(bufs, disk, no) == View(old(bufs), disk, no)
    {
      SameContentsView(bufs, disk, b, bufs[b].(refcnt := bufs[b].refcnt - 1));
      bufs := bufs[b := bufs[b].(refcnt := bufs[b].refcnt - 1)];
      if bufs[b].refcnt == 0 {
        LetGo(b);
      }
    }
  }
}
