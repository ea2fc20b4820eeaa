/**
  The inode content layer of fs.c as code: the free-map scan, block mapping,
  truncation, and the block-by-block read and write loops, on the logical disk
  that the buffer cache and the log present. The loops update a volume held in
  local variables; class `FileSystem` keeps the volume and the inodes.
 */
module FsCode {
  import opened FsBytes
  import opened Inodes

  const T_DEV := 3

  /** What a call comes back with: -1, a panic, a device's own result, or `n` bytes done. */
  datatype Result<T> = Err | Halt | Device | Done(value: T)

  predicate IsBytes(s: seq<int>) { forall j | 0 <= j < |s| :: 0 <= s[j] < 256 }

  // ----- blocks -----

  /** Find and take the first free block, zeroed; -1 for "out of blocks". */
  method Balloc(sb: Super, v: Vol) returns (b: int, w: Vol)
    requires Shape(sb, v)
    ensures b == -1 ==> w == v && forall c | 0 <= c < sb.size :: InUse(sb, v, c)
    ensures b != -1 ==> 0 <= b < sb.size && !InUse(sb, v, b) && w == Alloc(sb, v, b)
    ensures forall c | 0 <= c < b :: InUse(sb, v, c)
  {
    var base := 0;
    while base < sb.size
      invariant 0 <= base && base % 4096 == 0
      invariant forall c | 0 <= c < base && c < sb.size :: InUse(sb, v, c)
    {
      MapBlock(sb, base);
      var bp := v.blocks[base / 4096 + sb.bmapstart];
      var bi := 0;
      while bi < 4096 && base + bi < sb.size
        invariant 0 <= bi <= 4096
        invariant forall c | 0 <= c < base + bi && c < sb.size :: InUse(sb, v, c)
      {
        BitPlace(base, bi);
        if !Bit(bp[bi / 8], bi % 8) {
          b := base + bi;
          w := v.(blocks := v.blocks[base / 4096 + sb.bmapstart := bp[bi / 8 := PutBit(bp[bi / 8], bi % 8, true)]]);
          w := w.(blocks := w.blocks[b := ZeroBlock()]);
          return;
        }
        bi := bi + 1;
      }
      base := base + 4096;
    }
    return -1, v;
  }

  /** Give a block back; false for the panic "freeing free block". */
  method Bfree(sb: Super, v: Vol, b: int) returns (ok: bool, w: Vol)
    requires Shape(sb, v) && 0 <= b < sb.size
    ensures ok <==> InUse(sb, v, b)
    ensures w == if ok then Mark(sb, v, b, false) else v
  {
    MapBlock(sb, b);
    var m := b / 4096 + sb.bmapstart;
    var bi := b % 4096;
    BitPlace(b - bi, bi);
    ok := Bit(v.blocks[m][bi / 8], bi % 8);
    w := v;
    if ok {
      w := v.(blocks := v.blocks[m := v.blocks[m][bi / 8 := PutBit(v.blocks[m][bi / 8], bi % 8, false)]]);
    }
  }

  lemma BitPlace(base: int, bi: int)
    requires 0 <= base && base % 4096 == 0 && 0 <= bi < 4096
    ensures (base + bi) / 4096 == base / 4096 && (base + bi) % 4096 == bi && (base + bi) % 8 == bi % 8
  {
  }

  // ----- block mapping -----

  /** Inode `i` may have new blocks in empty slots; no slot lost or changed a block. */
  ghost predicate Grown(v: Vol, w: Vol, i: int) {
    && |w.addrs| == |v.addrs|
    && forall i', k | 0 <= k && (i' != i || Slot(v, i', k) != 0) :: Slot(w, i', k) == Slot(v, i', k)
  }

  lemma GrownTrans(u: Vol, v: Vol, w: Vol, i: int)
    requires Grown(u, v, i) && Grown(v, w, i)
    ensures Grown(u, w, i)
  {
  }

  lemma SameBytesTrans(u: Vol, v: Vol, w: Vol)
    requires SameBytes(u, v) && SameBytes(v, w)
    ensures SameBytes(u, w)
  {
    assert forall i, o | 0 <= o :: ByteAt(u, i, o) == ByteAt(v, i, o);
  }

  lemma AssignTrans(u: Vol, v: Vol, w: Vol, i: int, k: int, b: int)
    requires SameBytes(u, v) && SameSlots(u, v) && SameBytes(v, w) && SlotAssigned(v, w, i, k, b)
    ensures SameBytes(u, w) && SlotAssigned(u, w, i, k, b)
  {
    SameBytesTrans(u, v, w);
  }

  /** A free block, taken and put into an empty address of inode `i`. */
  lemma TakeAddr(sb: Super, v: Vol, i: int, k: int, b: int)
    requires Consistent(sb, v) && 0 <= b < sb.size && !InUse(sb, v, b)
    requires 0 <= i < |v.addrs| && 0 <= k <= NDIRECT && Addr(v, i, k) == 0
    ensures sb.IsData(b) && SameSlots(v, Alloc(sb, v, b)) && Shape(sb, Alloc(sb, v, b))
    ensures var w := SetAddr(Alloc(sb, v, b), i, k, b);
            Consistent(sb, w) && SameBytes(v, w) && SlotAssigned(v, w, i, k, b)
  {
    var own := Witness(sb, v, {});
    var u := Alloc(sb, v, b);
    AllocOwned(sb, v, own, {}, b);
    assert {} + {b} == {b};
    assert Addr(u, i, k) == Slot(u, i, k) == Slot(v, i, k);
    AssignAddr(sb, u, own, i, k, b);
    AssignTrans(v, u, SetAddr(u, i, k, b), i, k, b);
  }

  /** A free block, taken and put into an empty entry of inode `i`'s indirect block. */
  lemma TakeEntry(sb: Super, v: Vol, i: int, j: int, b: int)
    requires Consistent(sb, v) && 0 <= b < sb.size && !InUse(sb, v, b)
    requires 0 <= i < |v.addrs| && 0 <= j < NINDIRECT
    requires Addr(v, i, NDIRECT) != 0 && Slot(v, i, NDIRECT + 1 + j) == 0
    ensures sb.IsData(b) && SameSlots(v, Alloc(sb, v, b)) && Shape(sb, Alloc(sb, v, b))
    ensures var w := PutEntry(Alloc(sb, v, b), Addr(v, i, NDIRECT), j, b);
            Consistent(sb, w) && SameBytes(v, w) && SlotAssigned(v, w, i, NDIRECT + 1 + j, b)
  {
    var own := Witness(sb, v, {});
    var u := Alloc(sb, v, b);
    AllocOwned(sb, v, own, {}, b);
    assert {} + {b} == {b};
    assert Addr(u, i, NDIRECT) == Slot(u, i, NDIRECT);
    AssignEntry(sb, u, own, i, j, b);
    AssignTrans(v, u, PutEntry(u, Addr(v, i, NDIRECT), j, b), i, NDIRECT + 1 + j, b);
  }

  /** Give an empty address of inode `i`, direct or indirect, a fresh block; false when the disk is full. */
  method AllocAddr(sb: Super, v: Vol, i: int, k: int) returns (ok: bool, w: Vol)
    requires Consistent(sb, v) && 0 <= i < |v.addrs| && 0 <= k <= NDIRECT && Addr(v, i, k) == 0
    ensures ok ==> Consistent(sb, w) && SameBytes(v, w) && SlotAssigned(v, w, i, k, Addr(w, i, k)) && Addr(w, i, k) != 0
    ensures !ok ==> w == v && forall c | 0 <= c < sb.size :: InUse(sb, v, c)
  {
    ConsistentShape(sb, v);
    var b;
    b, w := Balloc(sb, v);
    ok := b != -1;
    if ok {
      TakeAddr(sb, v, i, k, b);
      w := w.(addrs := w.addrs[i := w.addrs[i][k := b]]);
    }
  }

  /** Give an empty entry of inode `i`'s indirect block a fresh block. */
  method AllocEntry(sb: Super, v: Vol, i: int, j: int) returns (ok: bool, w: Vol)
    requires Consistent(sb, v) && 0 <= i < |v.addrs| && 0 <= j < NINDIRECT
    requires Addr(v, i, NDIRECT) != 0 && Slot(v, i, NDIRECT + 1 + j) == 0
    ensures ok ==> Consistent(sb, w) && SameBytes(v, w) && Slot(w, i, NDIRECT + 1 + j) != 0
    ensures ok ==> SlotAssigned(v, w, i, NDIRECT + 1 + j, Slot(w, i, NDIRECT + 1 + j))
    ensures !ok ==> w == v && forall c | 0 <= c < sb.size :: InUse(sb, v, c)
  {
    SlotIsData(sb, v, i, NDIRECT);
    var b;
    b, w := Balloc(sb, v);
    ok := b != -1;
    if ok {
      TakeEntry(sb, v, i, j, b);
      var a := v.addrs[i][NDIRECT];
      w := w.(blocks := w.blocks[a := PutWord(w.blocks[a], j, b)]);
    }
  }

  /** The outcome of mapping file block `bn`. */
  ghost predicate Mapped(sb: Super, v: Vol, w: Vol, i: int, bn: int, addr: int) {
    Consistent(sb, w) && SameBytes(v, w) && Grown(v, w, i) && addr == Slot(w, i, DataSlot(bn)) != 0
  }

  lemma AssignedIsGrown(v: Vol, w: Vol, i: int, k: int, b: int)
    requires SlotAssigned(v, w, i, k, b)
    ensures Grown(v, w, i)
  {
  }

  lemma ConsistentShape(sb: Super, v: Vol)
    requires Consistent(sb, v)
    ensures Shape(sb, v)
  {
    var own := Witness(sb, v, {});
  }

  /** bmap for the indirect part, once the indirect block is there. */
  method BmapEntry(sb: Super, v: Vol, i: int, j: int) returns (r: Result<int>, w: Vol)
    requires Consistent(sb, v) && 0 <= i < |v.addrs| && 0 <= j < NINDIRECT && Addr(v, i, NDIRECT) != 0
    ensures r.Done? || r.Halt?
    ensures r.Done? ==> Mapped(sb, v, w, i, NDIRECT + j, r.value)
    ensures Slot(v, i, NDIRECT + 1 + j) != 0 ==> r.Done? && w == v
    ensures r.Halt? ==> w == v && forall c | 0 <= c < sb.size :: InUse(sb, w, c)
  {
    SlotIsData(sb, v, i, NDIRECT);
    w := v;
    if Word(v.blocks[v.addrs[i][NDIRECT]], j) == 0 {
      var ok;
      ok, w := AllocEntry(sb, v, i, j);
      if !ok {
        return Halt, w;
      }
      AssignedIsGrown(v, w, i, NDIRECT + 1 + j, Slot(w, i, NDIRECT + 1 + j));
    }
    SlotIsData(sb, w, i, NDIRECT);
    return Done(Word(w.blocks[w.addrs[i][NDIRECT]], j)), w;
  }

  /**
    The disk block of file block `bn`, allocated if there is none. Halt for
    the panics: block number out of range, or the disk is full.
   */
  method Bmap(sb: Super, v: Vol, i: int, bn: int) returns (r: Result<int>, w: Vol)
    requires Consistent(sb, v) && 0 <= i < |v.addrs| && 0 <= bn
    ensures r.Done? || r.Halt?
    ensures r.Done? ==> bn < MAXFILE && Mapped(sb, v, w, i, bn, r.value)
    ensures Consistent(sb, w) && SameBytes(v, w) && Grown(v, w, i)
    ensures bn < MAXFILE && Slot(v, i, DataSlot(bn)) != 0 ==> r.Done? && w == v
    ensures r.Halt? && bn < MAXFILE ==> forall c | 0 <= c < sb.size :: InUse(sb, w, c)
  {
    ConsistentShape(sb, v);
    w := v;
    if bn < NDIRECT {
      if v.addrs[i][bn] == 0 {
        var ok;
        ok, w := AllocAddr(sb, v, i, bn);
        if !ok {
          return Halt, w;
        }
        AssignedIsGrown(v, w, i, bn, Addr(w, i, bn));
      }
      return Done(Addr(w, i, bn)), w;
    }
    if bn - NDIRECT < NINDIRECT {
      if v.addrs[i][NDIRECT] == 0 {
        var ok;
        ok, w := AllocAddr(sb, v, i, NDIRECT);
        if !ok {
          return Halt, w;
        }
        AssignedIsGrown(v, w, i, NDIRECT, Addr(w, i, NDIRECT));
      }
      ghost var u := w;
      r, w := BmapEntry(sb, w, i, bn - NDIRECT);
      if r.Done? {
        GrownTrans(v, u, w, i);
        SameBytesTrans(v, u, w);
      }
      return;
    }
    return Halt, w;
  }

  // ----- file contents -----

  function Min(a: int, b: int): int { if a < b then a else b }

  function Max(a: int, b: int): int { if a < b then b else a }

  /** `n` bytes of file `i` from `off` on. */
  function FileBytes(v: Vol, i: int, off: int, n: nat): (s: seq<int>)
    ensures |s| == n
  {
    if n == 0 then [] else FileBytes(v, i, off, n - 1) + [ByteAt(v, i, off + n - 1)]
  }

  lemma {:induction false} FileBytesAt(v: Vol, i: int, off: int, n: nat, j: nat)
    requires j < n
    ensures FileBytes(v, i, off, n)[j] == ByteAt(v, i, off + j)
    decreases n
  {
    if j < n - 1 {
      FileBytesAt(v, i, off, n - 1, j);
    }
  }

  /** The file `i` of `n` bytes. */
  function Contents(v: Vol, n: nat, i: int): seq<int> {
    FileBytes(v, i, 0, n)
  }

  lemma ContentsSlice(v: Vol, n: nat, i: int, off: nat, m: nat)
    requires off + m <= n
    ensures Contents(v, n, i)[off..off + m] == FileBytes(v, i, off, m)
  {
    forall j | 0 <= j < m
      ensures Contents(v, n, i)[off + j] == FileBytes(v, i, off, m)[j]
    {
      SliceByte(v, n, i, off, m, j);
    }
    SliceIs(Contents(v, n, i), off, FileBytes(v, i, off, m));
  }

  lemma SliceByte(v: Vol, n: nat, i: int, off: nat, m: nat, j: nat)
    requires off + m <= n && j < m
    ensures Contents(v, n, i)[off + j] == FileBytes(v, i, off, m)[j]
  {
    FileBytesAt(v, i, 0, n, off + j);
    FileBytesAt(v, i, off, m, j);
  }

  lemma SliceIs(s: seq<int>, off: nat, t: seq<int>)
    requires off + |t| <= |s| && forall j | 0 <= j < |t| :: s[off + j] == t[j]
    ensures s[off..off + |t|] == t
  {
  }

  lemma {:induction false} SameFileBytes(v: Vol, w: Vol, i: int, off: nat, n: nat)
    requires SameBytes(v, w)
    ensures FileBytes(v, i, off, n) == FileBytes(w, i, off, n)
    decreases n
  {
    if n > 0 {
      SameFileBytes(v, w, i, off, n - 1);
      assert ByteAt(v, i, off + n - 1) == ByteAt(w, i, off + n - 1);
    }
  }

  /** Every block below the end of the file is there. */
  ghost predicate NoHoles(v: Vol, n: int, i: int) {
    forall bn | 0 <= bn && bn * 512 < n :: Slot(v, i, DataSlot(bn)) != 0
  }

  lemma InFile(at: int, n: int)
    requires 0 <= at < n <= MAXBYTES
    ensures 0 <= at / 512 < MAXFILE && at / 512 * 512 <= at < n
  {
  }

  /** fs.c:444 and fs.c:479: the 32-bit sum of `off` and `n` is less than `off`, that is, it wrapped. */
  predicate Wraps(off: int, n: int)
    requires 0 <= off < U32 && 0 <= n < U32
    ensures Wraps(off, n) <==> off + n >= U32
  {
    (off + n) % 0x1_0000_0000 < off
  }

  /** How much of `left` bytes at `at` lies in one block. */
  function ChunkLength(at: int, left: int): (m: int)
    requires 0 <= at && 0 < left
    ensures 0 < m <= left && m <= 512 - at % 512
  {
    Min(left, 512 - at % 512)
  }

  // ----- reading -----

  /** A slice of the block under `at` is the file's bytes from `at` on. */
  lemma ReadSlice(v: Vol, i: int, at: int, m: int)
    requires 0 <= at && 0 <= m <= 512 - at % 512 && Slot(v, i, DataSlot(at / 512)) != 0
    ensures FileBytes(v, i, at, m) == BlockAt(v, Slot(v, i, DataSlot(at / 512)))[at % 512..at % 512 + m]
  {
    var b := BlockAt(v, Slot(v, i, DataSlot(at / 512)));
    forall j | 0 <= j < m
      ensures FileBytes(v, i, at, m)[j] == b[at % 512..at % 512 + m][j]
    {
      FileBytesAt(v, i, at, m, j);
      BlockOf(at + j, at / 512);
    }
  }

  /** What a read loop keeps: it may fill holes, but every file reads the same. */
  ghost predicate ReadSafe(sb: Super, v: Vol, w: Vol) {
    Consistent(sb, w) && SameBytes(v, w) && |w.addrs| == |v.addrs|
  }

  /** One turn of the read loop: as many of the `left` bytes at `at` as lie in one block. */
  method ReadChunk(sb: Super, v: Vol, i: int, n: nat, at: int, left: int) returns (r: Result<seq<int>>, w: Vol)
    requires Consistent(sb, v) && 0 <= i < |v.addrs| && 0 <= at && 0 < left && at + left <= n <= MAXBYTES
    ensures r.Done? || r.Halt?
    ensures r.Done? ==> ReadSafe(sb, v, w)
    ensures r.Done? ==> 0 < |r.value| <= left && r.value == Contents(v, n, i)[at..at + |r.value|]
    ensures r.Halt? ==> forall c | 0 <= c < sb.size :: InUse(sb, w, c)
    ensures NoHoles(v, n, i) ==> r.Done? && w == v
  {
    InFile(at, n);
    var a;
    a, w := Bmap(sb, v, i, at / 512);
    if a.Halt? {
      return Halt, w;
    }
    var m := ChunkLength(at, left);
    SlotIsData(sb, w, i, DataSlot(at / 512));
    ReadSlice(w, i, at, m);
    SameFileBytes(v, w, i, at, m);
    ContentsSlice(v, n, i, at, m);
    return Done(w.blocks[a.value][at % 512..at % 512 + m]), w;
  }

  lemma JoinSlices(s: seq<int>, off: nat, n: nat, m: nat)
    requires off + n + m <= |s|
    ensures s[off..off + n] + s[off + n..off + n + m] == s[off..off + (n + m)]
  {
  }

  /** The first `tot` of the bytes wanted have been read. */
  ghost predicate ReadState(sb: Super, v: Vol, w: Vol, file: seq<int>, off: int, tot: int, dst: seq<int>) {
    0 <= off && 0 <= tot && off + tot <= |file| && dst == file[off..off + tot] && ReadSafe(sb, v, w)
  }

  /** The same, unfolded only where a proof names the volume in `Look`. */
  ghost predicate ReadTo(sb: Super, v: Vol, w: Vol, file: seq<int>, off: int, tot: int, dst: seq<int>) {
    forall x: Vol {:trigger Look(x)} | x == w && Look(x) :: ReadState(sb, v, x, file, off, tot, dst)
  }

  lemma OpenRead(sb: Super, v: Vol, w: Vol, file: seq<int>, off: int, tot: int, dst: seq<int>)
    requires ReadTo(sb, v, w, file, off, tot, dst)
    ensures ReadState(sb, v, w, file, off, tot, dst)
  {
    assert Look(w);
  }

  lemma ReadStep(sb: Super, v: Vol, u: Vol, w: Vol, i: int, n: nat, off: int, tot: int, dst: seq<int>, chunk: seq<int>)
    requires ReadState(sb, v, u, Contents(v, n, i), off, tot, dst) && ReadSafe(sb, u, w)
    requires off + tot + |chunk| <= n && chunk == Contents(u, n, i)[off + tot..off + tot + |chunk|]
    ensures ReadTo(sb, v, w, Contents(v, n, i), off, tot + |chunk|, dst + chunk)
  {
    SameFileBytes(v, u, i, 0, n);
    SameBytesTrans(v, u, w);
    JoinSlices(Contents(v, n, i), off, tot, |chunk|);
  }

  /** One turn of the loop, with `dst` read so far; halts when a hole cannot be filled. */
  method ReadTurn(sb: Super, u: Vol, i: int, n: nat, off: int, left: int, dst: seq<int>, ghost v: Vol)
    returns (r: Result<seq<int>>, w: Vol)
    requires ReadTo(sb, v, u, Contents(v, n, i), off, |dst|, dst) && 0 <= i < |v.addrs|
    requires 0 <= off && |dst| < left && off + left <= n <= MAXBYTES
    ensures r.Done? || r.Halt?
    ensures r.Done? ==> |dst| < |r.value| <= left && ReadTo(sb, v, w, Contents(v, n, i), off, |r.value|, r.value)
    ensures r.Halt? ==> forall c | 0 <= c < sb.size :: InUse(sb, w, c)
    ensures NoHoles(u, n, i) ==> r.Done? && w == u
  {
    OpenRead(sb, v, u, Contents(v, n, i), off, |dst|, dst);
    r, w := ReadChunk(sb, u, i, n, off + |dst|, left - |dst|);
    if r.Done? {
      ReadStep(sb, v, u, w, i, n, off, |dst|, dst, r.value);
      r := Done(dst + r.value);
    }
  }

  /** The read loop: `left` bytes at `off` of a file of `n`, block by block. */
  method ReadBlocks(sb: Super, v: Vol, i: int, n: nat, off: int, left: int) returns (r: Result<seq<int>>, w: Vol)
    requires Consistent(sb, v) && 0 <= i < |v.addrs| && 0 <= off && 0 <= left && off + left <= n <= MAXBYTES
    ensures r.Done? || r.Halt?
    ensures r.Done? ==> ReadSafe(sb, v, w) && r.value == Contents(v, n, i)[off..off + left]
    ensures r.Halt? ==> forall c | 0 <= c < sb.size :: InUse(sb, w, c)
    ensures NoHoles(v, n, i) ==> r.Done? && w == v
  {
    var dst := [];
    w := v;
    while |dst| < left
      invariant |dst| <= left && ReadTo(sb, v, w, Contents(v, n, i), off, |dst|, dst)
      invariant NoHoles(v, n, i) ==> w == v
      decreases left - |dst|
    {
      r, w := ReadTurn(sb, w, i, n, off, left, dst, v);
      if r.Halt? {
        return;
      }
      dst := r.value;
    }
    OpenRead(sb, v, w, Contents(v, n, i), off, |dst|, dst);
    return Done(dst), w;
  }

  // ----- writing -----

  lemma WroteTrans(u: Vol, v: Vol, w: Vol, i: int, at: nat, a: seq<int>, b: seq<int>)
    requires Wrote(u, v, i, at, a) && Wrote(v, w, i, at + |a|, b)
    ensures Wrote(u, w, i, at, a + b)
  {
    forall i', o | 0 <= o
      ensures ByteAt(w, i', o) == if i' == i && at <= o < at + |a + b| then (a + b)[o - at] else ByteAt(u, i', o)
    {
      assert ByteAt(v, i', o) == if i' == i && at <= o < at + |a| then a[o - at] else ByteAt(u, i', o);
    }
  }

  /** Since `v`, inode `i` has lost no block and has one for every byte from `off` to `end`. */
  ghost predicate Backed(v: Vol, w: Vol, i: int, off: int, end: int) {
    && Grown(v, w, i)
    && forall bn | off < bn * 512 + 512 && bn * 512 < end && off < end :: Slot(w, i, DataSlot(bn)) != 0
  }

  lemma BackedTrans(u: Vol, v: Vol, w: Vol, i: int, a: nat, b: nat, c: nat)
    requires Backed(u, v, i, a, b) && Backed(v, w, i, b, c) && a <= b <= c
    ensures Backed(u, w, i, a, c)
  {
    GrownTrans(u, v, w, i);
    forall bn | a < bn * 512 + 512 && bn * 512 < c && a < c
      ensures Slot(w, i, DataSlot(bn)) != 0
    {
      if b < bn * 512 + 512 && b < c {
        assert bn * 512 < c;
      } else {
        assert bn * 512 < b && a < b;
        assert Slot(v, i, DataSlot(bn)) != 0;
      }
    }
  }

  /** A write loop, begun on `v`, has put `src` at `off` and stands at `w`. */
  ghost predicate Writing(sb: Super, v: Vol, w: Vol, i: int, off: int, src: seq<int>) {
    Consistent(sb, w) && Wrote(v, w, i, off, src) && Backed(v, w, i, off, off + |src|)
  }

  lemma WritingTrans(sb: Super, u: Vol, v: Vol, w: Vol, i: int, off: nat, a: seq<int>, b: seq<int>)
    requires Writing(sb, u, v, i, off, a) && Writing(sb, v, w, i, off + |a|, b)
    ensures Writing(sb, u, w, i, off, a + b)
  {
    WroteTrans(u, v, w, i, off, a, b);
    BackedTrans(u, v, w, i, off, off + |a|, off + |a| + |b|);
  }

  /** The first `tot` bytes of `src` are in place. */
  ghost predicate WritingTo(sb: Super, v: Vol, w: Vol, i: int, off: int, src: seq<int>, tot: int) {
    0 <= tot <= |src| && Writing(sb, v, w, i, off, src[..tot])
  }

  lemma WritingStep(sb: Super, u: Vol, v: Vol, w: Vol, i: int, off: nat, src: seq<int>, tot: nat, m: nat)
    requires WritingTo(sb, u, v, i, off, src, tot) && tot + m <= |src|
    requires Writing(sb, v, w, i, off + tot, src[tot..][..m])
    ensures WritingTo(sb, u, w, i, off, src, tot + m)
  {
    WritingTrans(sb, u, v, w, i, off, src[..tot], src[tot..][..m]);
    PrefixAndNext(src, tot, m);
  }

  lemma WholePrefix(s: seq<int>)
    ensures s[..|s|] == s
  {
  }

  lemma PrefixAndNext(s: seq<int>, n: nat, m: nat)
    requires n + m <= |s|
    ensures s[..n] + s[n..][..m] == s[..n + m]
  {
  }

  lemma WritingOn(sb: Super, v: Vol, w: Vol, i: int, off: int, src: seq<int>, tot: int)
    requires WritingTo(sb, v, w, i, off, src, tot)
    ensures Consistent(sb, w) && |w.addrs| == |v.addrs|
  {
  }

  /** Inside a file without holes, the next block is there. */
  lemma InsideSlot(sb: Super, v: Vol, w: Vol, n: int, i: int, off: nat, src: seq<int>, tot: int)
    requires WritingTo(sb, v, w, i, off, src, tot) && NoHoles(v, n, i) && off + tot < n
    ensures Slot(w, i, DataSlot((off + tot) / 512)) != 0
  {
    assert (off + tot) / 512 * 512 < n;
    assert Slot(v, i, DataSlot((off + tot) / 512)) != 0;
  }

  lemma WholeOffset(at: nat)
    ensures at / 512 * 512 + at % 512 == at
  {
  }

  lemma PatchConsistent(sb: Super, v: Vol, i: int, bn: int, at: int, src: seq<int>)
    requires Consistent(sb, v) && 0 <= i < |v.addrs| && 0 <= bn < MAXFILE && Slot(v, i, DataSlot(bn)) != 0
    requires 0 <= at && at + |src| <= 512 && IsBytes(src)
    ensures var a := Slot(v, i, DataSlot(bn));
            var w := SetBlock(v, a, Patch(BlockAt(v, a), at, src));
            Consistent(sb, w) && SameSlots(v, w) && Wrote(v, w, i, bn * 512 + at, src)
  {
    var own := Witness(sb, v, {});
    PatchBytes(sb, v, own, i, bn, at, src);
  }

  /** A patch of the block under byte `at` of file `i` changes those bytes and no other. */
  lemma PatchAt(sb: Super, v: Vol, i: int, at: nat, src: seq<int>)
    requires Consistent(sb, v) && 0 <= i < |v.addrs| && at / 512 < MAXFILE && Slot(v, i, DataSlot(at / 512)) != 0
    requires |src| <= 512 - at % 512 && IsBytes(src)
    ensures var a := Slot(v, i, DataSlot(at / 512));
            var w := SetBlock(v, a, Patch(BlockAt(v, a), at % 512, src));
            Consistent(sb, w) && SameSlots(v, w) && Wrote(v, w, i, at, src)
  {
    PatchConsistent(sb, v, i, at / 512, at % 512, src);
    WholeOffset(at);
  }

  /** Bytes kept by `bmap`, then a patch of the block under `at`. */
  lemma WritePatch(sb: Super, u: Vol, v: Vol, i: int, at: nat, src: seq<int>)
    requires Consistent(sb, v) && SameBytes(u, v) && Grown(u, v, i)
    requires 0 <= i < |v.addrs| && at / 512 < MAXFILE && Slot(v, i, DataSlot(at / 512)) != 0
    requires |src| <= 512 - at % 512 && IsBytes(src)
    ensures var a := Slot(v, i, DataSlot(at / 512));
            var w := SetBlock(v, a, Patch(BlockAt(v, a), at % 512, src));
            SameSlots(v, w) && Writing(sb, u, w, i, at, src)
  {
    var a := Slot(v, i, DataSlot(at / 512));
    var w := SetBlock(v, a, Patch(BlockAt(v, a), at % 512, src));
    PatchAt(sb, v, i, at, src);
    PatchWrote(u, v, w, i, at, src);
    PatchBacked(u, v, w, i, at, |src|);
  }

  lemma PatchWrote(u: Vol, v: Vol, w: Vol, i: int, at: nat, src: seq<int>)
    requires SameBytes(u, v) && Wrote(v, w, i, at, src)
    ensures Wrote(u, w, i, at, src)
  {
    forall i', o | 0 <= o
      ensures ByteAt(w, i', o) == if i' == i && at <= o < at + |src| then src[o - at] else ByteAt(u, i', o)
    {
      assert ByteAt(u, i', o) == ByteAt(v, i', o);
    }
  }

  lemma PatchBacked(u: Vol, v: Vol, w: Vol, i: int, at: nat, m: nat)
    requires Grown(u, v, i) && SameSlots(v, w) && Slot(v, i, DataSlot(at / 512)) != 0 && m <= 512 - at % 512
    ensures Backed(u, w, i, at, at + m)
  {
    forall bn | at < bn * 512 + 512 && bn * 512 < at + m && at < at + m
      ensures Slot(w, i, DataSlot(bn)) != 0
    {
      assert bn == at / 512;
    }
  }

  /** One turn of the write loop: as much of `src` at `at` as lies in one block; 0 when the disk is full. */
  method WriteChunk(sb: Super, v: Vol, i: int, at: int, src: seq<int>) returns (m: int, w: Vol)
    requires Consistent(sb, v) && 0 <= i < |v.addrs| && 0 <= at && 0 < |src| && at + |src| <= MAXBYTES && IsBytes(src)
    ensures 0 <= m <= |src|
    ensures Writing(sb, v, w, i, at, src[..m])
    ensures m == 0 ==> forall c | 0 <= c < sb.size :: InUse(sb, w, c)
    ensures Slot(v, i, DataSlot(at / 512)) != 0 ==> m > 0 && w.addrs == v.addrs
  {
    InFile(at, MAXBYTES);
    var a;
    a, w := Bmap(sb, v, i, at / 512);
    m := 0;
    if a.Done? {
      m := ChunkLength(at, |src|);
      SlotIsData(sb, w, i, DataSlot(at / 512));
      WritePatch(sb, v, w, i, at, src[..m]);
      w := w.(blocks := w.blocks[a.value := Patch(w.blocks[a.value], at % 512, src[..m])]);
    } else {
      WroteNothing(sb, v, w, i, at);
      assert src[..m] == [];
    }
  }

  lemma WroteNothing(sb: Super, v: Vol, w: Vol, i: int, at: int)
    requires Consistent(sb, w) && SameBytes(v, w) && Grown(v, w, i)
    ensures Writing(sb, v, w, i, at, [])
  {
    assert forall i', o | 0 <= o :: ByteAt(w, i', o) == ByteAt(v, i', o);
  }

  /** One turn of the loop, from byte `tot` on; `n` is the size of the file, for what is said about holes. */
  method WriteTurn(sb: Super, v: Vol, i: int, off: int, src: seq<int>, tot: int, ghost v0: Vol, ghost n: int)
    returns (m: int, w: Vol)
    requires WritingTo(sb, v0, v, i, off, src, tot) && 0 <= i < |v0.addrs| && tot < |src|
    requires 0 <= off && off + |src| <= MAXBYTES && IsBytes(src)
    ensures 0 <= m <= |src| - tot
    ensures WritingTo(sb, v0, w, i, off, src, tot + m)
    ensures m == 0 ==> forall c | 0 <= c < sb.size :: InUse(sb, w, c)
    ensures NoHoles(v0, n, i) && off + |src| <= n ==> m > 0 && w.addrs == v.addrs
  {
    WritingOn(sb, v0, v, i, off, src, tot);
    if NoHoles(v0, n, i) && off + |src| <= n {
      InsideSlot(sb, v0, v, n, i, off, src, tot);
    }
    m, w := WriteChunk(sb, v, i, off + tot, src[tot..]);
    WritingStep(sb, v0, v, w, i, off, src, tot, m);
  }

  /** The write loop: `src` at `off`, block by block; it stops early, at `tot`, when the disk fills up. */
  method WriteBlocks(sb: Super, v: Vol, i: int, off: int, src: seq<int>, ghost n: int) returns (tot: int, w: Vol)
    requires Consistent(sb, v) && 0 <= i < |v.addrs| && 0 <= off && off + |src| <= MAXBYTES && IsBytes(src)
    ensures WritingTo(sb, v, w, i, off, src, tot)
    ensures tot < |src| ==> forall c | 0 <= c < sb.size :: InUse(sb, w, c)
    ensures NoHoles(v, n, i) && off + |src| <= n ==> tot == |src| && w.addrs == v.addrs
  {
    w := v;
    tot := 0;
    while tot < |src|
      invariant WritingTo(sb, v, w, i, off, src, tot)
      invariant NoHoles(v, n, i) && off + |src| <= n ==> w.addrs == v.addrs
    {
      var m;
      m, w := WriteTurn(sb, w, i, off, src, tot, v, n);
      if m == 0 {
        return;
      }
      tot := tot + m;
    }
  }

  /** `src` laid over `s` at `off`, making it longer if need be. */
  function Splice(s: seq<int>, off: nat, src: seq<int>): seq<int>
    requires off <= |s|
  {
    s[..off] + src + if off + |src| < |s| then s[off + |src|..] else []
  }

  lemma WroteContentsAt(v: Vol, w: Vol, i: int, n: nat, off: nat, src: seq<int>, j: nat)
    requires Wrote(v, w, i, off, src) && off <= n && j < Max(n, off + |src|)
    ensures ByteAt(w, i, j) == Splice(Contents(v, n, i), off, src)[j]
  {
    if j < n {
      FileBytesAt(v, i, 0, n, j);
    }
  }

  lemma WroteContents(v: Vol, w: Vol, i: int, n: nat, off: nat, src: seq<int>)
    requires Wrote(v, w, i, off, src) && off <= n
    ensures Contents(w, Max(n, off + |src|), i) == Splice(Contents(v, n, i), off, src)
  {
    forall j | 0 <= j < Max(n, off + |src|)
      ensures Contents(w, Max(n, off + |src|), i)[j] == Splice(Contents(v, n, i), off, src)[j]
    {
      FileBytesAt(w, i, 0, Max(n, off + |src|), j);
      WroteContentsAt(v, w, i, n, off, src, j);
    }
  }

  lemma {:induction false} WroteOtherFile(v: Vol, w: Vol, i: int, off: nat, src: seq<int>, i': int, n: nat)
    requires Wrote(v, w, i, off, src) && i' != i
    ensures Contents(w, n, i') == Contents(v, n, i')
    decreases n
  {
    if n > 0 {
      WroteOtherFile(v, w, i, off, src, i', n - 1);
      assert ByteAt(w, i', n - 1) == ByteAt(v, i', n - 1);
    }
  }

  /** File `i` has `src` laid over it at `off` and is longer only if it must be; every other file is as it was. */
  ghost predicate Spliced(v: Vol, n: seq<nat>, w: Vol, m: seq<nat>, i: int, off: int, src: seq<int>) {
    && 0 <= i < |n| && 0 <= off <= n[i]
    && m == n[i := Max(n[i], off + |src|)]
    && Contents(w, m[i], i) == Splice(Contents(v, n[i], i), off, src)
    && forall i' | 0 <= i' < |n| && i' != i :: Contents(w, m[i'], i') == Contents(v, n[i'], i')
  }

  lemma WroteSpliced(v: Vol, w: Vol, n: seq<nat>, i: int, off: int, src: seq<int>)
    requires Wrote(v, w, i, off, src) && 0 <= i < |n| && 0 <= off <= n[i]
    ensures Spliced(v, n, w, n[i := Max(n[i], off + |src|)], i, off, src)
  {
    WroteContents(v, w, i, n[i], off, src);
    forall i' | 0 <= i' < |n| && i' != i
      ensures Contents(w, n[i'], i') == Contents(v, n[i'], i')
    {
      WroteOtherFile(v, w, i, off, src, i', n[i']);
    }
  }

  lemma WroteNoHoles(v: Vol, w: Vol, i: int, n: nat, off: nat, src: seq<int>)
    requires Backed(v, w, i, off, off + |src|) && off <= n && NoHoles(v, n, i)
    ensures NoHoles(w, Max(n, off + |src|), i)
  {
    forall bn | 0 <= bn && bn * 512 < Max(n, off + |src|)
      ensures Slot(w, i, DataSlot(bn)) != 0
    {
      if bn * 512 >= n {
        assert off < bn * 512 + 512;
      }
    }
  }

  // ----- truncation -----

  /** Every file but `i` has the same slots and the same bytes. */
  ghost predicate OthersSame(v: Vol, w: Vol, i: int) {
    && |w.addrs| == |v.addrs|
    && (forall i', k | 0 <= k && i' != i :: Slot(w, i', k) == Slot(v, i', k))
    && (forall i', o | 0 <= o && i' != i :: ByteAt(w, i', o) == ByteAt(v, i', o))
  }

  lemma OthersTrans(u: Vol, v: Vol, w: Vol, i: int)
    requires OthersSame(u, v, i) && OthersSame(v, w, i)
    ensures OthersSame(u, w, i)
  {
    assert forall i', o | 0 <= o && i' != i :: ByteAt(v, i', o) == ByteAt(u, i', o);
  }

  /** Clearing an address of inode `i` is no concern of other files. */
  lemma ClearAddrOthers(v: Vol, i: int, k: int)
    requires 0 <= i < |v.addrs| && 0 <= k < |v.addrs[i]|
    ensures OthersSame(v, SetAddr(v, i, k, 0), i)
  {
    var w := SetAddr(v, i, k, 0);
    forall i', k' | 0 <= k' && i' != i
      ensures Slot(w, i', k') == Slot(v, i', k')
    {
      assert forall k'' :: Addr(w, i', k'') == Addr(v, i', k'');
    }
  }

  /** The first `n` direct addresses of inode `i` are empty; the rest of its slots are as they were. */
  ghost predicate Emptied(v: Vol, w: Vol, i: int, n: int) {
    && OthersSame(v, w, i)
    && forall k | 0 <= k :: Slot(w, i, k) == if k < n then 0 else Slot(v, i, k)
  }

  /** The order does not matter: the address may be cleared first. */
  lemma FreeDirectOwned(sb: Super, v: Vol, i: int, k: int)
    requires Consistent(sb, v) && 0 <= i < |v.addrs| && 0 <= k < NDIRECT && Addr(v, i, k) != 0
    ensures Shape(sb, v) && sb.IsData(Addr(v, i, k)) && InUse(sb, v, Addr(v, i, k))
    ensures var u := SetAddr(v, i, k, 0);
            var w := Mark(sb, u, Addr(v, i, k), false);
            && w == SetAddr(Mark(sb, v, Addr(v, i, k), false), i, k, 0)
            && Consistent(sb, w) && SameSlots(u, w) && SameBytes(u, w)
  {
    var own := Witness(sb, v, {});
    var b := Addr(v, i, k);
    SlotIsOwned(sb, v, own, {}, i, k);
    DetachDirect(sb, v, own, i, k);
    FreeOwned(sb, SetAddr(v, i, k, 0), own - {b}, {b}, b);
    assert {b} - {b} == {};
  }

  /** bfree, then the address set to 0: one direct block of inode `i` goes back to the free map. */
  lemma FreeDirect(sb: Super, v: Vol, i: int, k: int)
    requires Consistent(sb, v) && 0 <= i < |v.addrs| && 0 <= k < NDIRECT && Addr(v, i, k) != 0
    ensures Shape(sb, v) && sb.IsData(Addr(v, i, k)) && InUse(sb, v, Addr(v, i, k))
    ensures var w := SetAddr(Mark(sb, v, Addr(v, i, k), false), i, k, 0);
            && Consistent(sb, w) && OthersSame(v, w, i)
            && forall k' | 0 <= k' :: Slot(w, i, k') == if k' == k then 0 else Slot(v, i, k')
  {
    FreeDirectOwned(sb, v, i, k);
    var u := SetAddr(v, i, k, 0);
    ClearAddrOthers(v, i, k);
    SameIsOthers(u, Mark(sb, u, Addr(v, i, k), false), i);
    OthersTrans(v, u, Mark(sb, u, Addr(v, i, k), false), i);
    forall k' | 0 <= k'
      ensures Slot(u, i, k') == if k' == k then 0 else Slot(v, i, k')
    {
      ClearedSlots(v, i, k, i, k');
    }
  }

  lemma SameIsOthers(u: Vol, w: Vol, i: int)
    requires SameSlots(u, w) && SameBytes(u, w)
    ensures OthersSame(u, w, i)
  {
    assert forall i', o | 0 <= o && i' != i :: ByteAt(u, i', o) == ByteAt(w, i', o);
  }

  /** The free loop over the direct addresses, fs.c:396-401. */
  method TruncDirect(sb: Super, v: Vol, i: int) returns (w: Vol)
    requires Consistent(sb, v) && 0 <= i < |v.addrs|
    ensures Consistent(sb, w) && Emptied(v, w, i, NDIRECT)
  {
    w := v;
    var k := 0;
    while k < NDIRECT
      invariant 0 <= k <= NDIRECT && Consistent(sb, w) && Emptied(v, w, i, k)
    {
      ConsistentShape(sb, w);
      if w.addrs[i][k] != 0 {
        ghost var u := w;
        FreeDirect(sb, u, i, k);
        var ok;
        ok, w := Bfree(sb, w, w.addrs[i][k]);
        assert ok;
        w := w.(addrs := w.addrs[i := w.addrs[i][k := 0]]);
        OthersTrans(v, u, w, i);
      } else {
        assert Slot(w, i, k) == 0;
      }
      k := k + 1;
    }
  }

  /** The volume with inode `i`'s indirect block detached. */
  function Detached(v: Vol, i: int): Vol
    requires 0 <= i < |v.addrs| && |v.addrs[i]| == NDIRECT + 1
  {
    SetAddr(v, i, NDIRECT, 0)
  }

  /**
    fs.c:403-410 part-way: the entries of `i`'s indirect block below `j` are
    free again; with the indirect block detached, it and the later entries are
    all that is in hand.
   */
  ghost predicate FreeingState(sb: Super, v: Vol, w: Vol, i: int, j: int) {
    && 0 <= i < |v.addrs| && Shape(sb, w) && w.addrs == v.addrs && Addr(v, i, NDIRECT) != 0
    && (forall b | sb.IsData(b) :: BlockAt(w, b) == BlockAt(v, b))
    && Holding(sb, Detached(w, i), {Addr(v, i, NDIRECT)} + Entries(v, i, j))
    && OthersSame(v, Detached(w, i), i)
  }

  /** The same, unfolded only where a proof names the volume in `Look`. */
  ghost predicate Freeing(sb: Super, v: Vol, w: Vol, i: int, j: int) {
    forall x: Vol {:trigger Look(x)} | x == w && Look(x) :: FreeingState(sb, v, x, i, j)
  }

  lemma OpenFreeing(sb: Super, v: Vol, w: Vol, i: int, j: int)
    requires Freeing(sb, v, w, i, j)
    ensures FreeingState(sb, v, w, i, j)
  {
    assert Look(w);
  }

  lemma FreeingStart(sb: Super, v: Vol, i: int)
    requires Consistent(sb, v) && 0 <= i < |v.addrs| && Addr(v, i, NDIRECT) != 0
    ensures Freeing(sb, v, v, i, 0)
  {
    var own := Witness(sb, v, {});
    DetachIndirect(sb, v, own, i);
    ClearAddrOthers(v, i, NDIRECT);
  }

  /** Freeing a block in hand of the detached volume. */
  lemma FreeDetached(sb: Super, w: Vol, spare: set<int>, i: int, b: int)
    requires 0 <= i < |w.addrs| && Shape(sb, w) && Holding(sb, Detached(w, i), spare) && b in spare
    ensures sb.IsData(b) && InUse(sb, w, b) && Shape(sb, Mark(sb, w, b, false))
    ensures var w' := Mark(sb, w, b, false);
            && w'.addrs == w.addrs && (forall c | sb.IsData(c) :: BlockAt(w', c) == BlockAt(w, c))
            && Holding(sb, Detached(w', i), spare - {b}) && OthersSame(Detached(w, i), Detached(w', i), i)
  {
    var u := Detached(w, i);
    var own := Witness(sb, u, spare);
    FreeOwned(sb, u, own, spare, b);
    MarkShape(sb, w, b, false);
    MapBlock(sb, b);
    assert Detached(Mark(sb, w, b, false), i) == Mark(sb, u, b, false);
  }

  /** Entry `j`, if any, is next in hand, and comes only once. */
  lemma NextEntry(sb: Super, v: Vol, i: int, j: int)
    requires Consistent(sb, v) && 0 <= i < |v.addrs| && 0 <= j < NINDIRECT && Addr(v, i, NDIRECT) != 0
    ensures sb.IsData(Addr(v, i, NDIRECT))
    ensures var a, b := Addr(v, i, NDIRECT), Slot(v, i, NDIRECT + 1 + j);
            && (b == 0 ==> {a} + Entries(v, i, j) == {a} + Entries(v, i, j + 1))
            && (b != 0 ==> b in {a} + Entries(v, i, j) && {a} + Entries(v, i, j) - {b} == {a} + Entries(v, i, j + 1))
  {
    var own := Witness(sb, v, {});
    SlotIsOwned(sb, v, own, {}, i, NDIRECT);
    EntriesNext(sb, v, own, i, j);
  }

  lemma FreeingEntry(sb: Super, v: Vol, w: Vol, i: int, j: int)
    requires Consistent(sb, v) && Freeing(sb, v, w, i, j) && 0 <= j < NINDIRECT
    ensures Shape(sb, w) && sb.IsData(Addr(v, i, NDIRECT)) && Word(BlockAt(w, Addr(v, i, NDIRECT)), j) == Slot(v, i, NDIRECT + 1 + j)
    ensures var b := Slot(v, i, NDIRECT + 1 + j);
            && (b == 0 ==> Freeing(sb, v, w, i, j + 1))
            && (b != 0 ==> sb.IsData(b) && InUse(sb, w, b) && Freeing(sb, v, Mark(sb, w, b, false), i, j + 1))
  {
    OpenFreeing(sb, v, w, i, j);
    var a, b := Addr(v, i, NDIRECT), Slot(v, i, NDIRECT + 1 + j);
    NextEntry(sb, v, i, j);
    if b != 0 {
      FreeDetached(sb, w, {a} + Entries(v, i, j), i, b);
      OthersTrans(v, Detached(w, i), Detached(Mark(sb, w, b, false), i), i);
    }
  }

  lemma FreeingEnd(sb: Super, v: Vol, w: Vol, i: int)
    requires Freeing(sb, v, w, i, NINDIRECT)
    ensures Shape(sb, w) && w.addrs == v.addrs && 0 <= i < |w.addrs|
    ensures var a := Addr(v, i, NDIRECT);
            && sb.IsData(a) && InUse(sb, w, a)
            && Consistent(sb, Detached(Mark(sb, w, a, false), i))
            && OthersSame(v, Detached(Mark(sb, w, a, false), i), i)
  {
    OpenFreeing(sb, v, w, i, NINDIRECT);
    var a := Addr(v, i, NDIRECT);
    assert {a} + Entries(v, i, NINDIRECT) == {a};
    FreeDetached(sb, w, {a}, i, a);
    assert {a} - {a} == {};
    OthersTrans(v, Detached(w, i), Detached(Mark(sb, w, a, false), i), i);
  }

  /** One turn of the loop over the indirect block's entries, fs.c:407-408. */
  method FreeEntry(sb: Super, w0: Vol, i: int, a: int, j: int, ghost v: Vol) returns (w: Vol)
    requires Consistent(sb, v) && Freeing(sb, v, w0, i, j) && 0 <= j < NINDIRECT && a == Addr(v, i, NDIRECT)
    ensures Freeing(sb, v, w, i, j + 1)
  {
    FreeingEntry(sb, v, w0, i, j);
    w := w0;
    var b := Word(w.blocks[a], j);
    if b != 0 {
      var ok;
      ok, w := Bfree(sb, w, b);
      assert ok;
    }
  }

  /** The loop, fs.c:406-409. */
  method FreeEntries(sb: Super, v: Vol, i: int) returns (w: Vol)
    requires Consistent(sb, v) && 0 <= i < |v.addrs| && Addr(v, i, NDIRECT) != 0
    ensures Freeing(sb, v, w, i, NINDIRECT)
  {
    FreeingStart(sb, v, i);
    w := v;
    var a := v.addrs[i][NDIRECT];
    var j := 0;
    while j < NINDIRECT
      invariant 0 <= j <= NINDIRECT && Freeing(sb, v, w, i, j)
    {
      w := FreeEntry(sb, w, i, a, j, v);
      j := j + 1;
    }
  }

  /** With the indirect block detached, the direct slots are all there is. */
  lemma DetachedSlots(v: Vol, w: Vol, i: int)
    requires 0 <= i < |v.addrs| && |v.addrs[i]| == NDIRECT + 1 && w.addrs == v.addrs
    ensures forall k | 0 <= k :: Slot(Detached(w, i), i, k) == if k < NDIRECT then Slot(v, i, k) else 0
  {
    forall k | 0 <= k
      ensures Slot(Detached(w, i), i, k) == if k < NDIRECT then Slot(v, i, k) else 0
    {
      ClearedSlots(w, i, NDIRECT, i, k);
    }
  }

  lemma NoIndirect(v: Vol, i: int)
    requires Addr(v, i, NDIRECT) == 0
    ensures forall k | 0 <= k :: Slot(v, i, k) == if k < NDIRECT then Slot(v, i, k) else 0
  {
  }

  /** The indirect block and everything it names, fs.c:403-413. */
  method TruncIndirect(sb: Super, v: Vol, i: int) returns (w: Vol)
    requires Consistent(sb, v) && 0 <= i < |v.addrs|
    ensures Consistent(sb, w) && OthersSame(v, w, i)
    ensures forall k | 0 <= k :: Slot(w, i, k) == if k < NDIRECT then Slot(v, i, k) else 0
  {
    ConsistentShape(sb, v);
    w := v;
    if v.addrs[i][NDIRECT] == 0 {
      NoIndirect(v, i);
    } else {
      w := FreeEntries(sb, v, i);
      FreeingEnd(sb, v, w, i);
      var ok;
      ok, w := Bfree(sb, w, v.addrs[i][NDIRECT]);
      assert ok;
      DetachedSlots(v, w, i);
      w := w.(addrs := w.addrs[i := w.addrs[i][NDIRECT := 0]]);
    }
  }

  /** Discard a file's contents: every slot of inode `i` is empty, no other file changes, no panic. */
  method TruncBlocks(sb: Super, v: Vol, i: int) returns (w: Vol)
    requires Consistent(sb, v) && 0 <= i < |v.addrs|
    ensures Consistent(sb, w) && OthersSame(v, w, i)
    ensures forall k | 0 <= k :: Slot(w, i, k) == 0
    ensures forall b | 0 <= b < sb.size ::
              InUse(sb, w, b) <==> InUse(sb, v, b) && (b < sb.data || forall k | 0 <= k < SLOTS :: Slot(v, i, k) != b)
  {
    w := TruncDirect(sb, v, i);
    ghost var u := w;
    w := TruncIndirect(sb, w, i);
    OthersTrans(v, u, w, i);
    forall b | 0 <= b < sb.size
      ensures InUse(sb, w, b) <==> InUse(sb, v, b) && (b < sb.data || forall k | 0 <= k < SLOTS :: Slot(v, i, k) != b)
    {
      TruncFrees(sb, v, w, i, b);
    }
  }

  /** The blocks that truncation frees are exactly those the file's slots named. */
  lemma TruncFrees(sb: Super, v: Vol, w: Vol, i: int, b: int)
    requires Consistent(sb, v) && Consistent(sb, w) && OthersSame(v, w, i) && 0 <= b < sb.size
    requires forall k | 0 <= k :: Slot(w, i, k) == 0
    ensures InUse(sb, w, b) <==> InUse(sb, v, b) && (b < sb.data || forall k | 0 <= k < SLOTS :: Slot(v, i, k) != b)
  {
    UsedBlockHasOneOwner(sb, v, b);
    UsedBlockHasOneOwner(sb, w, b);
    ConsistentShape(sb, v);
    if sb.data <= b {
      if i', k :| IsSlot(v, i', k) && Slot(v, i', k) == b {
        if i' != i {
          assert IsSlot(w, i', k) && Slot(w, i', k) == b;
        }
      }
      if i', k :| IsSlot(w, i', k) && Slot(w, i', k) == b {
        assert i' != i && IsSlot(v, i', k) && Slot(v, i', k) == b;
      }
    }
  }

  // ----- the inode operations -----

  /** The volume, the in-memory inodes and their copies on disk. */
  class FileSystem {
    const sb: Super
    var vol: Vol
    var size: seq<nat>
    var typ: seq<int>
    var daddrs: seq<seq<int>>
    var dsize: seq<nat>

    constructor (sb: Super, vol: Vol, size: seq<nat>, typ: seq<int>)
      requires Consistent(sb, vol) && |size| == |typ| == |vol.addrs|
      requires forall i | 0 <= i < |size| :: size[i] <= MAXBYTES
      ensures Valid() && this.vol == vol && this.size == size && forall i | 0 <= i < |size| :: Synced(i)
    {
      this.sb, this.vol, this.size, this.typ := sb, vol, size, typ;
      this.daddrs, this.dsize := vol.addrs, size;
    }

    ghost predicate Valid()
      reads this
    {
      && Consistent(sb, vol)
      && |size| == |typ| == |vol.addrs| == |daddrs| == |dsize|
      && forall i | 0 <= i < |size| :: size[i] <= MAXBYTES
    }

    predicate IsInode(i: int)
      reads this
    {
      0 <= i < |size| == |typ| == |vol.addrs| == |daddrs| == |dsize|
    }

    /** The on-disk inode agrees with the one in memory. */
    ghost predicate Synced(i: int)
      requires IsInode(i)
      reads this
    {
      daddrs[i] == vol.addrs[i] && dsize[i] == size[i]
    }

    /** Copy the in-memory inode to its place on disk. */
    method Iupdate(i: int)
      requires IsInode(i)
      modifies `daddrs, `dsize
      ensures IsInode(i) && Synced(i)
      ensures forall i' | 0 <= i' < |size| && i' != i :: daddrs[i'] == old(daddrs)[i'] && dsize[i'] == old(dsize)[i']
    {
      daddrs := daddrs[i := vol.addrs[i]];
      dsize := dsize[i := size[i]];
    }

    /** Read up to `n` bytes at `off`. */
    method Readi(i: int, off: int, n: int) returns (r: Result<seq<int>>)
      requires Valid() && IsInode(i) && 0 <= off < U32 && 0 <= n < U32
      modifies `vol
      ensures r.Device? <==> typ[i] == T_DEV
      ensures r.Err? <==> typ[i] != T_DEV && (off > size[i] || off + n >= U32)
      ensures r.Done? ==>
                && Valid() && SameBytes(old(vol), vol)
                && r.value == Contents(old(vol), size[i], i)[off..Min(off + n, size[i])]
      ensures r.Halt? ==> forall c | 0 <= c < sb.size :: InUse(sb, vol, c)
      ensures NoHoles(old(vol), size[i], i) || r.Err? || r.Device? ==> !r.Halt? && vol == old(vol)
    {
      if typ[i] == T_DEV {
        return Device;
      }
      if off > size[i] || Wraps(off, n) {
        return Err;
      }
      var left := if off + n > size[i] then size[i] - off else n;
      r, vol := ReadBlocks(sb, vol, i, size[i], off, left);
    }

    /** Write `src` at `off`, extending the file if need be. */
    method Writei(i: int, off: int, src: seq<int>) returns (r: Result<int>)
      requires Valid() && IsInode(i) && 0 <= off < U32 && |src| < U32 && IsBytes(src)
      modifies `vol, `size, `daddrs, `dsize
      ensures r.Device? <==> typ[i] == T_DEV
      ensures r.Err? <==> typ[i] != T_DEV && (off > old(size)[i] || off + |src| > MAXBYTES)
      ensures r.Err? || r.Device? ==> unchanged(this)
      ensures Valid() && IsInode(i)
      ensures r.Halt? ==> (forall c | 0 <= c < sb.size :: InUse(sb, vol, c)) && unchanged(`size, `daddrs, `dsize)
                          && CutShort(old(vol), vol, size, i, off, src)
      ensures r.Done? ==> r.value == |src| && Spliced(old(vol), old(size), vol, size, i, off, src)
      ensures forall i' | 0 <= i' < |size| && i' != i ::
                && size[i'] == old(size)[i'] && Contents(vol, size[i'], i') == Contents(old(vol), old(size)[i'], i')
                && daddrs[i'] == old(daddrs)[i'] && dsize[i'] == old(dsize)[i']
      ensures r.Done? && NoHoles(old(vol), old(size)[i], i) ==> NoHoles(vol, size[i], i)
      ensures r.Done? && NoHoles(old(vol), old(size)[i], i) && old(Synced(i)) ==> Synced(i)
    {
      if typ[i] == T_DEV {
        return Device;
      }
      if off > size[i] || Wraps(off, |src|) {
        return Err;
      }
      if off + |src| > MAXBYTES {
        return Err;
      }
      ghost var v := vol;
      var tot;
      tot, vol := WriteBlocks(sb, vol, i, off, src, size[i]);
      if tot < |src| {
        WroteCutShort(sb, v, vol, size, i, off, src, tot);
        return Halt;
      }
      WholePrefix(src);
      WroteFile(sb, v, vol, size, i, off, src);
      if |src| > 0 && off + |src| > size[i] {
        size := size[i := off + |src|];
        Iupdate(i);
      } else {
        assert size == size[i := Max(size[i], off + |src|)];
      }
      return Done(|src|);
    }

    /** Truncate: the file is empty, its blocks are free, no other file changes; no panic. */
    method Itrunc(i: int)
      requires Valid() && IsInode(i)
      modifies `vol, `size, `daddrs, `dsize
      ensures Valid() && IsInode(i) && size == old(size)[i := 0] && Synced(i) && OthersSame(old(vol), vol, i)
      ensures forall i' | 0 <= i' < |size| && i' != i ::
                && Contents(vol, size[i'], i') == Contents(old(vol), old(size)[i'], i')
                && daddrs[i'] == old(daddrs)[i'] && dsize[i'] == old(dsize)[i']
      ensures forall k | 0 <= k :: Slot(vol, i, k) == 0
      ensures forall b | 0 <= b < sb.size ::
                InUse(sb, vol, b) <==>
                InUse(sb, old(vol), b) && (b < sb.data || forall k | 0 <= k < SLOTS :: Slot(old(vol), i, k) != b)
    {
      ghost var v, n := vol, size;
      vol := TruncBlocks(sb, vol, i);
      forall i' | 0 <= i' < |n| && i' != i
        ensures Contents(vol, n[i'], i') == Contents(v, n[i'], i')
      {
        OthersContents(v, vol, i, i', n[i']);
      }
      size := size[i := 0];
      Iupdate(i);
    }
  }

  /** Cut short, the write leaves a beginning of `src` in file `i` and every other file as it was. */
  ghost predicate CutShort(v: Vol, w: Vol, n: seq<nat>, i: int, off: int, src: seq<int>) {
    && (exists tot | 0 <= tot < |src| :: Wrote(v, w, i, off, src[..tot]))
    && forall i' | 0 <= i' < |n| && i' != i :: Contents(w, n[i'], i') == Contents(v, n[i'], i')
  }

  lemma WroteCutShort(sb: Super, v: Vol, w: Vol, n: seq<nat>, i: int, off: nat, src: seq<int>, tot: int)
    requires WritingTo(sb, v, w, i, off, src, tot) && tot < |src|
    ensures Consistent(sb, w) && |w.addrs| == |v.addrs| && CutShort(v, w, n, i, off, src)
  {
    forall i' | 0 <= i' < |n| && i' != i
      ensures Contents(w, n[i'], i') == Contents(v, n[i'], i')
    {
      WroteOtherFile(v, w, i, off, src[..tot], i', n[i']);
    }
  }

  lemma {:induction false} OthersContents(v: Vol, w: Vol, i: int, i': int, n: nat)
    requires OthersSame(v, w, i) && i' != i
    ensures Contents(w, n, i') == Contents(v, n, i')
    decreases n
  {
    if n > 0 {
      OthersContents(v, w, i, i', n - 1);
      assert ByteAt(w, i', n - 1) == ByteAt(v, i', n - 1);
    }
  }

  /** What the write loop leaves, in terms of whole files. */
  lemma WroteFile(sb: Super, v: Vol, w: Vol, n: seq<nat>, i: int, off: nat, src: seq<int>)
    requires Writing(sb, v, w, i, off, src) && 0 <= i < |n| && off <= n[i]
    ensures Consistent(sb, w) && |w.addrs| == |v.addrs|
    ensures Spliced(v, n, w, n[i := Max(n[i], off + |src|)], i, off, src)
    ensures NoHoles(v, n[i], i) ==> NoHoles(w, Max(n[i], off + |src|), i)
  {
    WroteSpliced(v, w, n, i, off, src);
    if NoHoles(v, n[i], i) {
      WroteNoHoles(v, w, i, n[i], off, src);
    }
  }
}
