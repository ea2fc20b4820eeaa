/**
  Block ownership and file contents: what the free map, the inodes' block
  addresses and the indirect blocks mean together (fs.c:345-417).
 */
module Inodes {
  import opened FsBytes

  // BSIZE is 512 bytes and BPB 4096 bits; both are written as literals where they divide.
  const NDIRECT := 12
  const NINDIRECT := 128
  const MAXFILE := 140
  const MAXBYTES := 71680

  /** Block slots of an inode: 0..11 direct, 12 the indirect block, 13..140 its entries. */
  const SLOTS := 141

  /** The superblock fields the content layer uses; blocks below `data` are metadata. */
  datatype Super = Super(size: int, bmapstart: int, data: int) {
    predicate Ok() { 0 < bmapstart && bmapstart + (size - 1) / 4096 < data < size < U32 }
    predicate IsData(b: int) { data <= b < size }
  }

  /** The logical disk and the addresses in every (in-memory) inode. */
  datatype Vol = Vol(blocks: seq<seq<int>>, addrs: seq<seq<int>>)

  predicate Shape(sb: Super, v: Vol) {
    && sb.Ok() && |v.blocks| == sb.size
    && (forall b | 0 <= b < |v.blocks| :: IsBlock(v.blocks[b]))
    && (forall i | 0 <= i < |v.addrs| :: |v.addrs[i]| == NDIRECT + 1)
  }

  predicate IsSlot(v: Vol, i: int, k: int) { 0 <= i < |v.addrs| && 0 <= k < SLOTS }

  function BlockAt(v: Vol, b: int): seq<int> {
    if 0 <= b < |v.blocks| && |v.blocks[b]| == 512 then v.blocks[b] else ZeroBlock()
  }

  function Addr(v: Vol, i: int, k: int): int {
    if 0 <= i < |v.addrs| && 0 <= k < |v.addrs[i]| then v.addrs[i][k] else 0
  }

  /** The block number in slot `k` of inode `i`; 0 for none. */
  function Slot(v: Vol, i: int, k: int): int {
    if k <= NDIRECT then Addr(v, i, k)
    else if Addr(v, i, NDIRECT) == 0 || k >= SLOTS then 0
    else Word(BlockAt(v, Addr(v, i, NDIRECT)), k - NDIRECT - 1)
  }

  predicate InUse(sb: Super, v: Vol, b: int) {
    0 <= b && Bit(BlockAt(v, sb.bmapstart + b / 4096)[b % 4096 / 8], b % 8)
  }

  /**
    `own` names, for each block a slot names, that one slot. Bits of the free
    map are set exactly for metadata, owned blocks, and the blocks in `spare`
    that an operation has in hand.
   */
  ghost predicate Owned(sb: Super, v: Vol, own: map<int, (int, int)>, spare: set<int>) {
    && Shape(sb, v)
    && (forall i, k | IsSlot(v, i, k) && Slot(v, i, k) != 0 ::
          Slot(v, i, k) in own && own[Slot(v, i, k)] == (i, k))
    && (forall b | b in own ::
          sb.IsData(b) && b !in spare && IsSlot(v, own[b].0, own[b].1) && Slot(v, own[b].0, own[b].1) == b)
    && (forall b | b in spare :: sb.IsData(b))
    && (forall b | 0 <= b < sb.size :: InUse(sb, v, b) <==> b < sb.data || b in own || b in spare)
  }

  /** Always true; naming a volume in it lets the verifier look into `Holding` for that volume. */
  ghost predicate Look(v: Vol) { true }

  /** Some map witnesses ownership, with the blocks of `spare` in hand. */
  ghost predicate Holding(sb: Super, v: Vol, spare: set<int>) {
    forall x: Vol {:trigger Look(x)} | x == v && Look(x) :: exists own :: Owned(sb, x, own, spare)
  }

  /** Between operations: no block is in hand. */
  ghost predicate Consistent(sb: Super, v: Vol) {
    Holding(sb, v, {})
  }

  lemma Witness(sb: Super, v: Vol, spare: set<int>) returns (own: map<int, (int, int)>)
    requires Holding(sb, v, spare)
    ensures Owned(sb, v, own, spare)
  {
    assert Look(v);
    own :| Owned(sb, v, own, spare);
  }

  /** Stated without the ghost map: a used data block is named by exactly one slot. */
  lemma UsedBlockHasOneOwner(sb: Super, v: Vol, b: int)
    requires Consistent(sb, v) && 0 <= b < sb.size
    ensures InUse(sb, v, b) <==> b < sb.data || exists i, k :: IsSlot(v, i, k) && Slot(v, i, k) == b
    ensures forall i, k, i', k' | IsSlot(v, i, k) && IsSlot(v, i', k') && Slot(v, i, k) == Slot(v, i', k') == b != 0 ::
              i == i' && k == k'
  {
    var own := Witness(sb, v, {});
    if b in own {
      assert Slot(v, own[b].0, own[b].1) == b;
    }
    if i, k :| IsSlot(v, i, k) && Slot(v, i, k) == b && sb.data <= b {
      assert Slot(v, i, k) in own;
    }
  }

  /** The slot that names block `b`, if one does. */
  ghost function OwnerOf(v: Vol, b: int): (int, int)
    requires exists i, k :: IsSlot(v, i, k) && Slot(v, i, k) == b
  {
    var i, k :| IsSlot(v, i, k) && Slot(v, i, k) == b;
    (i, k)
  }

  /** And that, with the free map, is all it takes: nothing is hidden in the ghost map. */
  lemma OneOwnerSuffices(sb: Super, v: Vol)
    requires Shape(sb, v)
    requires forall i, k | IsSlot(v, i, k) && Slot(v, i, k) != 0 :: sb.IsData(Slot(v, i, k))
    requires forall i, k, i', k' | IsSlot(v, i, k) && IsSlot(v, i', k') && Slot(v, i, k) == Slot(v, i', k') != 0 ::
               i == i' && k == k'
    requires forall b | 0 <= b < sb.size ::
               InUse(sb, v, b) <==> b < sb.data || exists i, k :: IsSlot(v, i, k) && Slot(v, i, k) == b
    ensures Consistent(sb, v)
  {
    var own := map b | sb.data <= b < sb.size && exists i, k :: IsSlot(v, i, k) && Slot(v, i, k) == b :: OwnerOf(v, b);
    assert Owned(sb, v, own, {});
  }

  // ----- file contents -----

  /** The slot of file block `bn`. */
  function DataSlot(bn: int): int { if bn < NDIRECT then bn else bn + 1 }

  /** Byte `o` of file `i`; a hole reads as zero. */
  function ByteAt(v: Vol, i: int, o: int): int {
    var a := Slot(v, i, DataSlot(o / 512));
    if a == 0 then 0 else BlockAt(v, a)[o % 512]
  }

  ghost predicate SameBytes(v: Vol, w: Vol) {
    forall i, o | 0 <= o :: ByteAt(v, i, o) == ByteAt(w, i, o)
  }

  ghost predicate SameSlots(v: Vol, w: Vol) {
    |v.addrs| == |w.addrs| && forall i, k | 0 <= k :: Slot(v, i, k) == Slot(w, i, k)
  }

  function SetBlock(v: Vol, b: int, data: seq<int>): Vol {
    if 0 <= b < |v.blocks| then v.(blocks := v.blocks[b := data]) else v
  }

  /** Writing a block that is not an indirect block changes no slot. */
  lemma WriteKeepsSlots(v: Vol, b: int, data: seq<int>)
    requires |data| == 512
    requires forall i | 0 <= i < |v.addrs| :: Addr(v, i, NDIRECT) == 0 || Addr(v, i, NDIRECT) != b
    ensures SameSlots(v, SetBlock(v, b, data))
  {
  }

  /** Writing a block outside the free map changes no bit. */
  lemma WriteKeepsBits(sb: Super, v: Vol, b: int, data: seq<int>, c: int)
    requires |data| == 512 && sb.Ok() && sb.IsData(b) && 0 <= c < sb.size
    ensures InUse(sb, SetBlock(v, b, data), c) <==> InUse(sb, v, c)
  {
    MapBlock(sb, c);
  }

  /** The free-map block of `c` is metadata. */
  lemma MapBlock(sb: Super, c: int)
    requires sb.Ok() && 0 <= c < sb.size
    ensures sb.bmapstart <= sb.bmapstart + c / 4096 < sb.data
  {
    DivMono(c, sb.size - 1);
  }

  lemma DivMono(x: int, y: int)
    requires x <= y
    ensures x / 4096 <= y / 4096
  {
  }

  lemma SlotIsOwned(sb: Super, v: Vol, own: map<int, (int, int)>, spare: set<int>, i: int, k: int)
    requires Owned(sb, v, own, spare) && 0 <= k && Slot(v, i, k) != 0
    ensures IsSlot(v, i, k) && Slot(v, i, k) in own && own[Slot(v, i, k)] == (i, k) && sb.IsData(Slot(v, i, k))
    ensures Slot(v, i, k) !in spare
  {
    assert IsSlot(v, i, k);
  }

  lemma SlotIsData(sb: Super, v: Vol, i: int, k: int)
    requires Consistent(sb, v) && 0 <= k && Slot(v, i, k) != 0
    ensures Shape(sb, v) && IsSlot(v, i, k) && sb.IsData(Slot(v, i, k))
  {
    var own := Witness(sb, v, {});
    SlotIsOwned(sb, v, own, {}, i, k);
  }

  /** Same slots, and every owned block unchanged: every file reads the same. */
  lemma KeepsBytes(sb: Super, v: Vol, own: map<int, (int, int)>, spare: set<int>, w: Vol)
    requires Owned(sb, v, own, spare) && SameSlots(v, w)
    requires forall b | b in own :: BlockAt(w, b) == BlockAt(v, b)
    ensures SameBytes(v, w)
  {
    forall i, o | 0 <= o
      ensures ByteAt(v, i, o) == ByteAt(w, i, o)
    {
      if Slot(v, i, DataSlot(o / 512)) != 0 {
        SlotIsOwned(sb, v, own, spare, i, DataSlot(o / 512));
      }
    }
  }

  // ----- the free map -----

  /** Set or clear the bit of block `b`. */
  function Mark(sb: Super, v: Vol, b: int, on: bool): Vol
    requires 0 <= b
  {
    var m := sb.bmapstart + b / 4096;
    SetBlock(v, m, BlockAt(v, m)[b % 4096 / 8 := PutBit(BlockAt(v, m)[b % 4096 / 8], b % 8, on)])
  }

  lemma EightsMod(q: int, r: int)
    ensures (8 * q + r) % 8 == r % 8
  {
  }

  /** A block number from the place of its bit in the free map. */
  lemma BitCoordinates(b: int)
    requires 0 <= b
    ensures b == 4096 * (b / 4096) + 8 * (b % 4096 / 8) + b % 8
  {
    var r := b % 4096;
    assert b == 8 * (512 * (b / 4096)) + r;
    EightsMod(512 * (b / 4096), r);
    assert r == 8 * (r / 8) + r % 8;
  }

  lemma MarkBits(sb: Super, v: Vol, b: int, on: bool, c: int)
    requires Shape(sb, v) && 0 <= b < sb.size && 0 <= c < sb.size
    ensures InUse(sb, Mark(sb, v, b, on), c) == if c == b then on else InUse(sb, v, c)
  {
    MapBlock(sb, b);
    MapBlock(sb, c);
    var blk := BlockAt(v, sb.bmapstart + b / 4096);
    BitOfPut(blk[b % 4096 / 8], b % 8, on, c % 8);
    BitCoordinates(b);
    BitCoordinates(c);
  }

  lemma MarkShape(sb: Super, v: Vol, b: int, on: bool)
    requires Shape(sb, v) && 0 <= b < sb.size
    ensures Shape(sb, Mark(sb, v, b, on))
  {
    var m := sb.bmapstart + b / 4096;
    MapBlock(sb, b);
    PutBitByte(BlockAt(v, m)[b % 4096 / 8], b % 8, on);
  }

  /** A bit of the free map changes: no slot does, and no data block. */
  lemma MarkKeeps(sb: Super, v: Vol, own: map<int, (int, int)>, spare: set<int>, b: int, on: bool)
    requires Owned(sb, v, own, spare) && 0 <= b < sb.size
    ensures SameSlots(v, Mark(sb, v, b, on))
    ensures forall c | sb.IsData(c) :: BlockAt(Mark(sb, v, b, on), c) == BlockAt(v, c)
  {
    var m := sb.bmapstart + b / 4096;
    MapBlock(sb, b);
    forall i | 0 <= i < |v.addrs|
      ensures Addr(v, i, NDIRECT) == 0 || Addr(v, i, NDIRECT) != m
    {
      if Slot(v, i, NDIRECT) != 0 {
        SlotIsOwned(sb, v, own, spare, i, NDIRECT);
      }
    }
    WriteKeepsSlots(v, m, BlockAt(v, m)[b % 4096 / 8 := PutBit(BlockAt(v, m)[b % 4096 / 8], b % 8, on)]);
  }

  /** Ownership rests on slots, shape and bits alone. */
  lemma OwnedBy(sb: Super, v: Vol, own: map<int, (int, int)>, spare: set<int>, w: Vol, spare': set<int>)
    requires Owned(sb, v, own, spare) && Shape(sb, w) && SameSlots(v, w)
    requires forall b | b in spare' :: sb.IsData(b) && b !in own
    requires forall b | 0 <= b < sb.size :: InUse(sb, w, b) <==> b < sb.data || b in own || b in spare'
    ensures Owned(sb, w, own, spare')
  {
    assert forall i, k | IsSlot(w, i, k) :: IsSlot(v, i, k);
  }

  /** `balloc` of block `b`: bit set, block zeroed. */
  function Alloc(sb: Super, v: Vol, b: int): Vol
    requires 0 <= b
  {
    SetBlock(Mark(sb, v, b, true), b, ZeroBlock())
  }

  lemma AllocShape(sb: Super, v: Vol, b: int)
    requires Shape(sb, v) && sb.IsData(b)
    ensures Shape(sb, Alloc(sb, v, b))
    ensures forall c | 0 <= c < sb.size :: InUse(sb, Alloc(sb, v, b), c) == (c == b || InUse(sb, v, c))
  {
    MarkShape(sb, v, b, true);
    forall c | 0 <= c < sb.size
      ensures InUse(sb, Alloc(sb, v, b), c) == (c == b || InUse(sb, v, c))
    {
      MarkBits(sb, v, b, true, c);
      WriteKeepsBits(sb, Mark(sb, v, b, true), b, ZeroBlock(), c);
    }
  }

  lemma AllocKeeps(sb: Super, v: Vol, own: map<int, (int, int)>, spare: set<int>, b: int)
    requires Owned(sb, v, own, spare) && sb.IsData(b) && b !in own
    ensures SameSlots(v, Alloc(sb, v, b))
    ensures forall c | sb.IsData(c) && c != b :: BlockAt(Alloc(sb, v, b), c) == BlockAt(v, c)
  {
    var u := Mark(sb, v, b, true);
    MarkKeeps(sb, v, own, spare, b, true);
    forall i | 0 <= i < |u.addrs|
      ensures Addr(u, i, NDIRECT) == 0 || Addr(u, i, NDIRECT) != b
    {
      if Slot(v, i, NDIRECT) != 0 {
        SlotIsOwned(sb, v, own, spare, i, NDIRECT);
      }
    }
    WriteKeepsSlots(u, b, ZeroBlock());
  }

  /** A block that was free becomes a zeroed block in hand; no file changes. */
  lemma AllocOwned(sb: Super, v: Vol, own: map<int, (int, int)>, spare: set<int>, b: int)
    requires Owned(sb, v, own, spare) && 0 <= b < sb.size && !InUse(sb, v, b)
    ensures sb.IsData(b) && b !in own && b !in spare
    ensures Owned(sb, Alloc(sb, v, b), own, spare + {b})
    ensures SameSlots(v, Alloc(sb, v, b)) && SameBytes(v, Alloc(sb, v, b))
    ensures BlockAt(Alloc(sb, v, b), b) == ZeroBlock()
  {
    AllocShape(sb, v, b);
    AllocKeeps(sb, v, own, spare, b);
    OwnedBy(sb, v, own, spare, Alloc(sb, v, b), spare + {b});
    KeepsBytes(sb, v, own, spare, Alloc(sb, v, b));
  }

  /** `bfree` of a block in hand. */
  lemma FreeOwned(sb: Super, v: Vol, own: map<int, (int, int)>, spare: set<int>, b: int)
    requires Owned(sb, v, own, spare) && b in spare
    ensures InUse(sb, v, b)
    ensures Owned(sb, Mark(sb, v, b, false), own, spare - {b})
    ensures SameSlots(v, Mark(sb, v, b, false)) && SameBytes(v, Mark(sb, v, b, false))
  {
    var w := Mark(sb, v, b, false);
    MarkShape(sb, v, b, false);
    MarkKeeps(sb, v, own, spare, b, false);
    forall c | 0 <= c < sb.size
      ensures InUse(sb, w, c) <==> c < sb.data || c in own || c in spare - {b}
    {
      MarkBits(sb, v, b, false, c);
    }
    OwnedBy(sb, v, own, spare, w, spare - {b});
    KeepsBytes(sb, v, own, spare, w);
  }

  // ----- giving a block to a slot -----

  /** `w` has the slots of `v`, except that slot `(i, k)`, empty in `v`, names `b`. */
  ghost predicate SlotAssigned(v: Vol, w: Vol, i: int, k: int, b: int) {
    && |w.addrs| == |v.addrs| && IsSlot(v, i, k) && Slot(v, i, k) == 0
    && forall i', k' | 0 <= k' :: Slot(w, i', k') == if i' == i && k' == k then b else Slot(v, i', k')
  }

  lemma AssignOwned(sb: Super, v: Vol, own: map<int, (int, int)>, w: Vol, i: int, k: int, b: int)
    requires Owned(sb, v, own, {b}) && Shape(sb, w) && SlotAssigned(v, w, i, k, b)
    requires forall c | 0 <= c < sb.size :: InUse(sb, w, c) <==> InUse(sb, v, c)
    ensures Owned(sb, w, own[b := (i, k)], {})
  {
    assert b in {b};
    assert forall i', k' | IsSlot(w, i', k') :: IsSlot(v, i', k');
  }

  /** A zeroed block fills a hole; blocks in other data slots are untouched: every file reads the same. */
  lemma AssignKeepsBytes(sb: Super, v: Vol, own: map<int, (int, int)>, w: Vol, i: int, k: int, b: int)
    requires Owned(sb, v, own, {b}) && SlotAssigned(v, w, i, k, b)
    requires BlockAt(w, b) == ZeroBlock()
    requires forall c | c in own && own[c].1 != NDIRECT :: BlockAt(w, c) == BlockAt(v, c)
    ensures SameBytes(v, w)
  {
    forall i', o | 0 <= o
      ensures ByteAt(v, i', o) == ByteAt(w, i', o)
    {
      var k' := DataSlot(o / 512);
      if Slot(v, i', k') != 0 {
        SlotIsOwned(sb, v, own, {b}, i', k');
      }
    }
  }

  function SetAddr(v: Vol, i: int, k: int, b: int): Vol
    requires 0 <= i < |v.addrs| && 0 <= k < |v.addrs[i]|
  {
    v.(addrs := v.addrs[i := v.addrs[i][k := b]])
  }

  /** bmap, fs.c:362 and fs.c:370: a fresh block for a direct slot or for the indirect block. */
  lemma AssignAddr(sb: Super, v: Vol, own: map<int, (int, int)>, i: int, k: int, b: int)
    requires Owned(sb, v, own, {b}) && 0 <= i < |v.addrs| && 0 <= k <= NDIRECT
    requires Addr(v, i, k) == 0 && BlockAt(v, b) == ZeroBlock()
    ensures Owned(sb, SetAddr(v, i, k, b), own[b := (i, k)], {})
    ensures SameBytes(v, SetAddr(v, i, k, b)) && SlotAssigned(v, SetAddr(v, i, k, b), i, k, b)
  {
    var w := SetAddr(v, i, k, b);
    assert b in {b};
    forall i', k' | 0 <= k'
      ensures Slot(w, i', k') == if i' == i && k' == k then b else Slot(v, i', k')
    {
      if NDIRECT < k' < SLOTS && i' == i && k == NDIRECT {
        ZeroWord(k' - NDIRECT - 1);
      }
    }
    AssignOwned(sb, v, own, w, i, k, b);
    AssignKeepsBytes(sb, v, own, w, i, k, b);
  }

  function PutEntry(v: Vol, a: int, j: int, b: int): Vol
    requires 0 <= j < NINDIRECT
  {
    SetBlock(v, a, PutWord(BlockAt(v, a), j, b))
  }

  /** Entries of an indirect block after one of them is written. */
  lemma PutEntryIndirect(sb: Super, v: Vol, own: map<int, (int, int)>, spare: set<int>, i: int, j: int, b: int, i': int, k': int)
    requires Owned(sb, v, own, spare) && 0 <= i < |v.addrs| && 0 <= j < NINDIRECT && sb.IsData(b)
    requires Addr(v, i, NDIRECT) != 0 && NDIRECT < k' < SLOTS && Addr(v, i', NDIRECT) != 0
    ensures Slot(PutEntry(v, Addr(v, i, NDIRECT), j, b), i', k') ==
            if i' == i && k' == NDIRECT + 1 + j then b else Slot(v, i', k')
  {
    SlotIsOwned(sb, v, own, spare, i, NDIRECT);
    SlotIsOwned(sb, v, own, spare, i', NDIRECT);
    WordOfPut(BlockAt(v, Addr(v, i, NDIRECT)), j, b, k' - NDIRECT - 1);
  }

  lemma PutEntrySlot(sb: Super, v: Vol, own: map<int, (int, int)>, spare: set<int>, i: int, j: int, b: int, i': int, k': int)
    requires Owned(sb, v, own, spare) && 0 <= i < |v.addrs| && 0 <= j < NINDIRECT && sb.IsData(b)
    requires Addr(v, i, NDIRECT) != 0 && 0 <= k'
    ensures Slot(PutEntry(v, Addr(v, i, NDIRECT), j, b), i', k') ==
            if i' == i && k' == NDIRECT + 1 + j then b else Slot(v, i', k')
  {
    if NDIRECT < k' < SLOTS && Addr(v, i', NDIRECT) != 0 {
      PutEntryIndirect(sb, v, own, spare, i, j, b, i', k');
    }
  }

  lemma PutEntrySlots(sb: Super, v: Vol, own: map<int, (int, int)>, spare: set<int>, i: int, j: int, b: int)
    requires Owned(sb, v, own, spare) && 0 <= i < |v.addrs| && 0 <= j < NINDIRECT && sb.IsData(b)
    requires Addr(v, i, NDIRECT) != 0
    ensures forall i', k' | 0 <= k' ::
              Slot(PutEntry(v, Addr(v, i, NDIRECT), j, b), i', k') ==
              if i' == i && k' == NDIRECT + 1 + j then b else Slot(v, i', k')
  {
    var w := PutEntry(v, Addr(v, i, NDIRECT), j, b);
    forall i', k' | 0 <= k'
      ensures Slot(w, i', k') == if i' == i && k' == NDIRECT + 1 + j then b else Slot(v, i', k')
    {
      PutEntrySlot(sb, v, own, spare, i, j, b, i', k');
    }
  }

  lemma PutEntryShape(sb: Super, v: Vol, a: int, j: int, b: int)
    requires Shape(sb, v) && sb.IsData(a) && 0 <= j < NINDIRECT && sb.IsData(b)
    ensures Shape(sb, PutEntry(v, a, j, b))
    ensures forall c | 0 <= c < sb.size :: InUse(sb, PutEntry(v, a, j, b), c) <==> InUse(sb, v, c)
    ensures forall c | c != a :: BlockAt(PutEntry(v, a, j, b), c) == BlockAt(v, c)
  {
    PutWordBlock(BlockAt(v, a), j, b);
    forall c | 0 <= c < sb.size
      ensures InUse(sb, PutEntry(v, a, j, b), c) <==> InUse(sb, v, c)
    {
      WriteKeepsBits(sb, v, a, PutWord(BlockAt(v, a), j, b), c);
    }
  }

  /** bmap, fs.c:374: a fresh block for an entry of the indirect block. */
  lemma AssignEntry(sb: Super, v: Vol, own: map<int, (int, int)>, i: int, j: int, b: int)
    requires Owned(sb, v, own, {b}) && 0 <= i < |v.addrs| && 0 <= j < NINDIRECT
    requires Addr(v, i, NDIRECT) != 0 && Slot(v, i, NDIRECT + 1 + j) == 0 && BlockAt(v, b) == ZeroBlock()
    ensures var w := PutEntry(v, Addr(v, i, NDIRECT), j, b);
            && Owned(sb, w, own[b := (i, NDIRECT + 1 + j)], {})
            && SameBytes(v, w) && SlotAssigned(v, w, i, NDIRECT + 1 + j, b)
  {
    var a := Addr(v, i, NDIRECT);
    var w := PutEntry(v, a, j, b);
    assert b in {b};
    SlotIsOwned(sb, v, own, {b}, i, NDIRECT);
    PutEntrySlots(sb, v, own, {b}, i, j, b);
    PutEntryShape(sb, v, a, j, b);
    AssignOwned(sb, v, own, w, i, NDIRECT + 1 + j, b);
    AssignKeepsBytes(sb, v, own, w, i, NDIRECT + 1 + j, b);
  }

  // ----- writing file data -----

  /** Overwrite `src` at `at` within a block. */
  function Patch(b: seq<int>, at: int, src: seq<int>): seq<int>
    requires 0 <= at && at + |src| <= |b|
  {
    b[..at] + src + b[at + |src|..]
  }

  /** `w` is `v` with `src` written into file `i` at `at`; every other byte of every file is as it was. */
  ghost predicate Wrote(v: Vol, w: Vol, i: int, at: int, src: seq<int>) {
    forall i', o | 0 <= o ::
      ByteAt(w, i', o) == if i' == i && at <= o < at + |src| then src[o - at] else ByteAt(v, i', o)
  }

  /** Writing part of one file's block changes exactly those bytes of that file. */
  lemma PatchBytes(sb: Super, v: Vol, own: map<int, (int, int)>, i: int, bn: int, at: int, src: seq<int>)
    requires Owned(sb, v, own, {}) && 0 <= i < |v.addrs| && 0 <= bn < MAXFILE && Slot(v, i, DataSlot(bn)) != 0
    requires 0 <= at && at + |src| <= 512 && forall j | 0 <= j < |src| :: 0 <= src[j] < 256
    ensures var a := Slot(v, i, DataSlot(bn));
            var w := SetBlock(v, a, Patch(BlockAt(v, a), at, src));
            Owned(sb, w, own, {}) && SameSlots(v, w) && Wrote(v, w, i, bn * 512 + at, src)
  {
    var k := DataSlot(bn);
    var a := Slot(v, i, k);
    var data := Patch(BlockAt(v, a), at, src);
    var w := SetBlock(v, a, data);
    SlotIsOwned(sb, v, own, {}, i, k);
    forall i' | 0 <= i' < |v.addrs|
      ensures Addr(v, i', NDIRECT) == 0 || Addr(v, i', NDIRECT) != a
    {
      if Slot(v, i', NDIRECT) != 0 {
        SlotIsOwned(sb, v, own, {}, i', NDIRECT);
      }
    }
    WriteKeepsSlots(v, a, data);
    forall c | 0 <= c < sb.size
      ensures InUse(sb, w, c) <==> InUse(sb, v, c)
    {
      WriteKeepsBits(sb, v, a, data, c);
    }
    assert Shape(sb, w);
    OwnedBy(sb, v, own, {}, w, {});
    forall i', o | 0 <= o
      ensures ByteAt(w, i', o) == if i' == i && bn * 512 + at <= o < bn * 512 + at + |src|
                                  then src[o - bn * 512 - at] else ByteAt(v, i', o)
    {
      PatchByte(sb, v, own, i, bn, at, src, i', o);
    }
  }

  lemma BlockOf(o: int, bn: int)
    requires 0 <= o && 0 <= bn
    ensures o / 512 == bn <==> bn * 512 <= o < bn * 512 + 512
    ensures o / 512 == bn ==> o % 512 == o - bn * 512
    ensures 0 <= o / 512
  {
  }

  lemma PatchByteAt(v: Vol, i: int, bn: int, at: int, src: seq<int>, i': int, o: int)
    requires 0 <= bn && 0 <= at && at + |src| <= 512 && 0 <= o
    requires var a := Slot(v, i, DataSlot(bn));
             && a != 0 && 0 <= a < |v.blocks| && |v.blocks[a]| == 512
             && (Slot(v, i', DataSlot(o / 512)) == a ==> i' == i && o / 512 == bn)
             && Slot(SetBlock(v, a, Patch(BlockAt(v, a), at, src)), i', DataSlot(o / 512)) == Slot(v, i', DataSlot(o / 512))
    ensures var a := Slot(v, i, DataSlot(bn));
            ByteAt(SetBlock(v, a, Patch(BlockAt(v, a), at, src)), i', o) ==
            if i' == i && bn * 512 + at <= o < bn * 512 + at + |src|
            then src[o - bn * 512 - at] else ByteAt(v, i', o)
  {
    BlockOf(o, bn);
  }

  lemma PatchByte(sb: Super, v: Vol, own: map<int, (int, int)>, i: int, bn: int, at: int, src: seq<int>, i': int, o: int)
    requires Owned(sb, v, own, {}) && 0 <= i < |v.addrs| && 0 <= bn < MAXFILE && Slot(v, i, DataSlot(bn)) != 0
    requires 0 <= at && at + |src| <= 512 && 0 <= o
    requires var a := Slot(v, i, DataSlot(bn)); SameSlots(v, SetBlock(v, a, Patch(BlockAt(v, a), at, src)))
    ensures var a := Slot(v, i, DataSlot(bn));
            ByteAt(SetBlock(v, a, Patch(BlockAt(v, a), at, src)), i', o) ==
            if i' == i && bn * 512 + at <= o < bn * 512 + at + |src|
            then src[o - bn * 512 - at] else ByteAt(v, i', o)
  {
    BlockOf(o, bn);
    var k, k' := DataSlot(bn), DataSlot(o / 512);
    SlotIsOwned(sb, v, own, {}, i, k);
    assert k == k' <==> o / 512 == bn;
    if Slot(v, i', k') != 0 {
      SlotIsOwned(sb, v, own, {}, i', k');
    }
    PatchByteAt(v, i, bn, at, src, i', o);
  }

  // ----- taking blocks back -----

  /** `w` has the slots of `v`, with every slot that names a block of `gone` emptied. */
  ghost predicate SlotsEmptied(v: Vol, w: Vol, gone: set<int>) {
    && |w.addrs| == |v.addrs|
    && forall i, k | 0 <= k :: Slot(w, i, k) == if Slot(v, i, k) in gone then 0 else Slot(v, i, k)
  }

  lemma DetachOwned(sb: Super, v: Vol, own: map<int, (int, int)>, w: Vol, gone: set<int>)
    requires Owned(sb, v, own, {}) && gone <= own.Keys && Shape(sb, w) && SlotsEmptied(v, w, gone)
    requires w.blocks == v.blocks
    ensures Owned(sb, w, own - gone, gone)
  {
    assert forall i, k | IsSlot(w, i, k) :: IsSlot(v, i, k);
    assert forall b :: InUse(sb, w, b) <==> InUse(sb, v, b);
  }

  /** The slots of a volume with one address of inode `i` cleared. */
  lemma ClearedSlots(v: Vol, i: int, k: int, i': int, k': int)
    requires 0 <= i < |v.addrs| && 0 <= k <= NDIRECT < |v.addrs[i]| && 0 <= k'
    ensures Slot(SetAddr(v, i, k, 0), i', k') ==
            if i' == i && (k' == k || k == NDIRECT < k') then 0 else Slot(v, i', k')
  {
  }

  /** itrunc, fs.c:397-400: a direct slot lets go of its block. */
  lemma DetachDirect(sb: Super, v: Vol, own: map<int, (int, int)>, i: int, k: int)
    requires Owned(sb, v, own, {}) && 0 <= i < |v.addrs| && 0 <= k < NDIRECT && Addr(v, i, k) != 0
    ensures var b := Addr(v, i, k);
            b in own && Owned(sb, SetAddr(v, i, k, 0), own - {b}, {b})
  {
    var b := Addr(v, i, k);
    var w := SetAddr(v, i, k, 0);
    SlotIsOwned(sb, v, own, {}, i, k);
    forall i', k' | 0 <= k'
      ensures Slot(w, i', k') == if Slot(v, i', k') in {b} then 0 else Slot(v, i', k')
    {
      DetachedSlot(sb, v, own, i, k, i', k');
    }
    DetachOwned(sb, v, own, w, {b});
  }

  lemma DetachedSlot(sb: Super, v: Vol, own: map<int, (int, int)>, i: int, k: int, i': int, k': int)
    requires Owned(sb, v, own, {}) && 0 <= i < |v.addrs| && 0 <= k < NDIRECT && Addr(v, i, k) != 0 && 0 <= k'
    ensures Slot(SetAddr(v, i, k, 0), i', k') == if Slot(v, i', k') == Addr(v, i, k) then 0 else Slot(v, i', k')
  {
    SlotIsOwned(sb, v, own, {}, i, k);
    ClearedSlots(v, i, k, i', k');
    if Slot(v, i', k') != 0 {
      SlotIsOwned(sb, v, own, {}, i', k');
    }
  }

  /** The entries of `i`'s indirect block from `j` on. */
  ghost function Entries(v: Vol, i: int, j: int): set<int> {
    set k | NDIRECT + 1 + j <= k < SLOTS && Slot(v, i, k) != 0 :: Slot(v, i, k)
  }

  /** What goes with the indirect block of `i`: it and every block its entries name. */
  ghost function Gone(v: Vol, i: int): set<int> { {Addr(v, i, NDIRECT)} + Entries(v, i, 0) }

  lemma GoneIsOwned(sb: Super, v: Vol, own: map<int, (int, int)>, i: int, b: int)
    requires Owned(sb, v, own, {}) && 0 <= i < |v.addrs| && Addr(v, i, NDIRECT) != 0 && b in Gone(v, i)
    ensures b != 0 && b in own && own[b].0 == i && own[b].1 >= NDIRECT
  {
    if b == Addr(v, i, NDIRECT) {
      SlotIsOwned(sb, v, own, {}, i, NDIRECT);
    } else {
      var k :| NDIRECT + 1 <= k < SLOTS && Slot(v, i, k) != 0 && Slot(v, i, k) == b;
      SlotIsOwned(sb, v, own, {}, i, k);
    }
  }

  lemma GoneSlot(sb: Super, v: Vol, own: map<int, (int, int)>, i: int, i': int, k': int)
    requires Owned(sb, v, own, {}) && 0 <= i < |v.addrs| && Addr(v, i, NDIRECT) != 0 && 0 <= k'
    ensures Slot(v, i', k') in Gone(v, i) <==> i' == i && k' >= NDIRECT && Slot(v, i', k') != 0
  {
    if Slot(v, i', k') in Gone(v, i) {
      GoneIsOwned(sb, v, own, i, Slot(v, i', k'));
    }
    if Slot(v, i', k') != 0 {
      SlotIsOwned(sb, v, own, {}, i', k');
    }
  }

  /** itrunc, fs.c:403-413: the indirect block goes, and with it every block its entries name. */
  lemma DetachIndirect(sb: Super, v: Vol, own: map<int, (int, int)>, i: int)
    requires Owned(sb, v, own, {}) && 0 <= i < |v.addrs| && Addr(v, i, NDIRECT) != 0
    ensures Gone(v, i) <= own.Keys && Owned(sb, SetAddr(v, i, NDIRECT, 0), own - Gone(v, i), Gone(v, i))
  {
    var w := SetAddr(v, i, NDIRECT, 0);
    forall b | b in Gone(v, i)
      ensures b in own
    {
      GoneIsOwned(sb, v, own, i, b);
    }
    forall i', k' | 0 <= k'
      ensures Slot(w, i', k') == if Slot(v, i', k') in Gone(v, i) then 0 else Slot(v, i', k')
    {
      ClearedSlots(v, i, NDIRECT, i', k');
      GoneSlot(sb, v, own, i, i', k');
    }
    DetachOwned(sb, v, own, w, Gone(v, i));
  }

  /** One entry more, if there is one. */
  lemma EntriesFrom(v: Vol, i: int, j: int)
    requires 0 <= j < NINDIRECT
    ensures var b := Slot(v, i, NDIRECT + 1 + j);
            Entries(v, i, j) == if b != 0 then Entries(v, i, j + 1) + {b} else Entries(v, i, j + 1)
  {
    var b := Slot(v, i, NDIRECT + 1 + j);
    forall x
      ensures x in Entries(v, i, j) <==> x in Entries(v, i, j + 1) || (b != 0 && x == b)
    {
      if x in Entries(v, i, j) {
        var k :| NDIRECT + 1 + j <= k < SLOTS && Slot(v, i, k) != 0 && Slot(v, i, k) == x;
        assert k > NDIRECT + 1 + j ==> x in Entries(v, i, j + 1);
      }
    }
  }

  lemma EntryOnce(sb: Super, v: Vol, own: map<int, (int, int)>, i: int, k: int, j: int)
    requires Owned(sb, v, own, {}) && 0 <= k < NDIRECT + 1 + j && Slot(v, i, k) != 0
    ensures Slot(v, i, k) !in Entries(v, i, j)
  {
    SlotIsOwned(sb, v, own, {}, i, k);
    if Slot(v, i, k) in Entries(v, i, j) {
      var k' :| NDIRECT + 1 + j <= k' < SLOTS && Slot(v, i, k') != 0 && Slot(v, i, k') == Slot(v, i, k);
      SlotIsOwned(sb, v, own, {}, i, k');
    }
  }

  /** The entries are distinct blocks: after the one at `j`, it does not come again. */
  lemma EntriesNext(sb: Super, v: Vol, own: map<int, (int, int)>, i: int, j: int)
    requires Owned(sb, v, own, {}) && 0 <= i < |v.addrs| && 0 <= j < NINDIRECT
    ensures var b := Slot(v, i, NDIRECT + 1 + j);
            && (b != 0 ==> b !in Entries(v, i, j + 1) && Entries(v, i, j) == Entries(v, i, j + 1) + {b})
            && (b == 0 ==> Entries(v, i, j) == Entries(v, i, j + 1))
            && Addr(v, i, NDIRECT) !in Entries(v, i, j)
  {
    EntriesFrom(v, i, j);
    if Slot(v, i, NDIRECT + 1 + j) != 0 {
      EntryOnce(sb, v, own, i, NDIRECT + 1 + j, j + 1);
    }
    if Addr(v, i, NDIRECT) != 0 {
      EntryOnce(sb, v, own, i, NDIRECT, j);
    }
  }
}
