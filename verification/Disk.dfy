/**
  Disk blocks, atomic single-block writes, and the on-disk redo-log header.

  A disk image is a sequence of blocks; a block is its sequence of words.
  The only way to change an image is a `Write`, and a crash may fall between
  any two of them.
 */
module Disk {

  const LOGSIZE := 30
  const MAXOPBLOCKS := 10

  /** A disk block, as its 32-bit words. */
  datatype Block = Block(words: seq<int>)

  type Image = seq<Block>

  const ZERO := Block([0])

  /**
    Always true. Predicates below that speak of a partly written image are
    guarded by it, so that the verifier looks into them only where a proof
    names the image in a `Look`.
   */
  ghost predicate Look(d: Image) { true }

  /** The block at `b`; blocks that are not there read as zero. */
  function At(d: Image, b: int): Block { if 0 <= b < |d| then d[b] else ZERO }

  datatype Write = Write(blockno: int, data: Block)

  /** The log area: header block at `start`, then `size - 1` data blocks. */
  datatype Layout = Layout(start: int, size: int) {
    predicate InLog(b: int) { start <= b < start + size }
    predicate Home(d: Image, b: int) { 0 <= b < |d| && !InLog(b) }
    predicate Fits(d: Image) { 0 <= start && 1 <= size && start + size <= |d| }
  }

  function Apply(d: Image, w: Write): (r: Image)
    ensures |r| == |d|
  {
    if 0 <= w.blockno < |d| then d[w.blockno := w.data] else d
  }

  /** The first `k` writes of `ws`, in order: the image a crash after them leaves. */
  function ApplyFirst(d: Image, ws: seq<Write>, k: nat): (r: Image)
    requires k <= |ws|
    ensures |r| == |d|
  {
    if k == 0 then d else Apply(ApplyFirst(d, ws, k - 1), ws[k - 1])
  }

  function ApplyAll(d: Image, ws: seq<Write>): (r: Image)
    ensures |r| == |d|
  {
    ApplyFirst(d, ws, |ws|)
  }

  /** Writes that come later do not matter to a prefix. */
  lemma {:induction false} ApplyFirstPrefix(d: Image, us: seq<Write>, vs: seq<Write>, k: nat)
    requires k <= |us|
    ensures ApplyFirst(d, us + vs, k) == ApplyFirst(d, us, k)
  {
    if k > 0 {
      ApplyFirstPrefix(d, us, vs, k - 1);
    }
  }

  lemma {:induction false} ApplyFirstConcat(d: Image, us: seq<Write>, vs: seq<Write>, k: nat)
    requires k <= |vs|
    ensures ApplyFirst(d, us + vs, |us| + k) == ApplyFirst(ApplyAll(d, us), vs, k)
  {
    if k == 0 {
      ApplyFirstPrefix(d, us, vs, |us|);
    } else {
      ApplyFirstConcat(d, us, vs, k - 1);
    }
  }

  lemma {:induction false} ApplyFrame(d: Image, ws: seq<Write>, k: nat, b: int)
    requires k <= |ws| && 0 <= b < |d|
    requires forall i | 0 <= i < k :: ws[i].blockno != b
    ensures ApplyFirst(d, ws, k)[b] == d[b]
  {
    if k > 0 {
      ApplyFrame(d, ws, k - 1, b);
    }
  }

  // ----- log header -----

  predicate Distinct(s: seq<int>) {
    forall i, j | 0 <= i < j < |s| :: s[i] != s[j]
  }

  /** `write_head`: the count and the first `n` entries; stale entries stay. */
  function EncodeHead(hb: Block, blocks: seq<int>): (r: Block) {
    Block([|blocks|] + blocks + if 1 + |blocks| <= |hb.words| then hb.words[1 + |blocks|..] else [])
  }

  /** The entry count lies within the block. */
  predicate ReadableHead(hb: Block) { |hb.words| > 0 && 0 <= hb.words[0] < |hb.words| }

  /** `read_head`; a header that is not readable names nothing here. */
  function DecodeHead(hb: Block): (blocks: seq<int>) {
    if ReadableHead(hb) then hb.words[1..1 + hb.words[0]] else []
  }

  lemma HeadRoundTrip(hb: Block, blocks: seq<int>)
    ensures ReadableHead(EncodeHead(hb, blocks)) && DecodeHead(EncodeHead(hb, blocks)) == blocks
  {
    assert EncodeHead(hb, blocks).words[1..1 + |blocks|] == blocks;
  }
}
