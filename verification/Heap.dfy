/**
  The user-level allocator of umalloc.c: a circular free list in address
  order, first fit from `freep`, coalescing on free.

  Addresses and sizes are in units of one Header (8 bytes). Memory is the map
  from addresses to the headers stored there.
 */
module Heap {

  datatype Header = Header(ptr: int, size: int)

  type Memory = map<int, Header>

  /** Blocks by address, with their sizes in units. */
  type Blocks = map<int, int>

  /** Unit `u` lies in one of the blocks. */
  ghost predicate Covers(bs: Blocks, u: int) {
    exists a :: a in bs && a <= u < a + bs[a]
  }

  /** `q` is the block after `p` in address order, the lowest block after the highest. */
  ghost predicate After(bs: Blocks, p: int, q: int) {
    && q in bs
    && (if q > p then forall x | x in bs :: x <= p || q <= x
        else forall x | x in bs :: q <= x <= p)
  }

  /** `p` is the last block below address `b`. */
  ghost predicate Pred(bs: Blocks, p: int, b: int) {
    p in bs && p < b && forall x | x in bs :: x <= p || b < x
  }

  /** Free blocks: `base` of size zero below all others, no two of them touching. */
  ghost predicate Apart(base: int, fl: Blocks) {
    && base in fl && fl[base] == 0
    && (forall a | a in fl && a != base :: base < a && 1 <= fl[a])
    && (forall a, b | a in fl && b in fl && a < b :: a + fl[a] < b)
  }

  /** Always true; the verifier follows the list from `a` only where a proof names `At(a)`. */
  ghost predicate At(a: int) { true }

  /** Memory holds the free blocks as one cycle in address order. */
  ghost predicate Cycle(m: Memory, fl: Blocks) {
    forall a {:trigger At(a)} | a in fl && At(a) :: a in m && m[a].size == fl[a] && After(fl, a, m[a].ptr)
  }

  lemma Link(m: Memory, fl: Blocks, a: int)
    requires Cycle(m, fl) && a in fl
    ensures a in m && m[a].size == fl[a] && After(fl, a, m[a].ptr)
  {
    assert At(a);
  }

  ghost predicate FreeList(base: int, m: Memory, fl: Blocks) {
    Apart(base, fl) && Cycle(m, fl)
  }

  /** A block of `n` units at `b` overlaps no free block. */
  ghost predicate Clear(fl: Blocks, b: int, n: int) {
    forall a | a in fl :: a + fl[a] <= b || b + n <= a
  }

  // ----- following the pointers -----

  function Walk(m: Memory, p: int, n: nat): int {
    if n == 0 then p
    else
      var q := Walk(m, p, n - 1);
      if q in m then m[q].ptr else q
  }

  lemma {:induction false} Highest(s: set<int>, p: int) returns (top: int)
    requires p in s
    ensures top in s && forall x | x in s :: x <= top
    decreases s
  {
    top := p;
    if x :| x in s && x > p {
      var rest := s - {p};
      top := Highest(rest, x);
      assert forall y | y in s :: y == p || y in rest;
    }
  }

  /** There is one block after `p`. */
  lemma AfterUnique(fl: Blocks, p: int, q: int, a: int)
    requires After(fl, p, q) && p in fl && a in fl && p < a && forall x | x in fl :: x <= p || a <= x
    ensures q == a
  {
  }

  ghost function Below(fl: Blocks, a: int): set<int> { set x | x in fl && x < a }

  lemma {:induction false} WalkUp(base: int, m: Memory, fl: Blocks, a: int) returns (n: nat)
    requires FreeList(base, m, fl) && a in fl
    ensures Walk(m, base, n) == a
    decreases Below(fl, a)
  {
    n := 0;
    if a != base {
      var p := Highest(Below(fl, a), base);
      assert p !in Below(fl, p) && Below(fl, p) <= Below(fl, a);
      n := WalkUp(base, m, fl, p);
      n := n + 1;
      Link(m, fl, p);
      AfterUnique(fl, p, m[p].ptr, a) by {
        assert forall x | x in fl :: x in Below(fl, a) || a <= x;
      }
    }
  }

  /** Every free block is reached from `base` by following `ptr`, and `ptr` leads from each back into the list. */
  lemma OneCycle(base: int, m: Memory, fl: Blocks, a: int)
    requires FreeList(base, m, fl) && a in fl
    ensures exists n: nat :: Walk(m, base, n) == a
    ensures a in m && m[a].ptr in fl
  {
    Link(m, fl, a);
    var n := WalkUp(base, m, fl, a);
  }

  // ----- free -----

  /** The free blocks once `n` units at `b`, just above block `p`, are joined to their neighbours. */
  function Coalesced(fl: Blocks, p: int, b: int, n: int): Blocks
    requires p in fl
  {
    var n1 := if b + n in fl then n + fl[b + n] else n;
    var fl1 := fl - {b + n};
    if p + fl[p] == b then fl1[p := fl[p] + n1] else fl1[b := n1]
  }

  /** Where the joined block begins and ends. */
  function JoinedAt(fl: Blocks, p: int, b: int): int
    requires p in fl
  {
    if p + fl[p] == b then p else b
  }

  function JoinedEnd(fl: Blocks, b: int, n: int): int { if b + n in fl then b + n + fl[b + n] else b + n }

  /** The joined block takes the place of its neighbours; the other blocks stay. */
  lemma CoalescedAt(fl: Blocks, p: int, b: int, n: int, a: int)
    requires p in fl && p < b && 1 <= n
    ensures var c, j := Coalesced(fl, p, b, n), JoinedAt(fl, p, b);
            && j in c && j + c[j] == JoinedEnd(fl, b, n)
            && (a in c <==> a == j || (a in fl && a != b + n))
            && (a in c && a != j ==> c[a] == fl[a])
  {
  }

  /** Below the end of the freed block there is nothing between it and `p`. */
  lemma BelowJoined(fl: Blocks, p: int, b: int, n: int, x: int)
    requires Pred(fl, p, b) && Clear(fl, b, n) && 1 <= n && x in fl && 0 <= fl[x] && x < b + n
    ensures x <= p
  {
  }

  lemma CoalescedPair(base: int, fl: Blocks, p: int, b: int, n: int, x: int, y: int)
    requires Apart(base, fl) && Pred(fl, p, b) && Clear(fl, b, n) && 1 <= n
    requires x in Coalesced(fl, p, b, n) && y in Coalesced(fl, p, b, n) && x < y
    ensures x + Coalesced(fl, p, b, n)[x] < y
  {
    var j := JoinedAt(fl, p, b);
    CoalescedAt(fl, p, b, n, x);
    CoalescedAt(fl, p, b, n, y);
    if x == j {
      if y < b + n {
        BelowJoined(fl, p, b, n, y);
      }
    } else if y == j && x > p {
      BelowJoined(fl, p, b, n, x);
    }
  }

  lemma CoalescedApart(base: int, fl: Blocks, p: int, b: int, n: int)
    requires Apart(base, fl) && Pred(fl, p, b) && Clear(fl, b, n) && 1 <= n
    ensures Apart(base, Coalesced(fl, p, b, n)) && p in Coalesced(fl, p, b, n)
  {
    var c := Coalesced(fl, p, b, n);
    CoalescedAt(fl, p, b, n, base);
    CoalescedAt(fl, p, b, n, p);
    forall x | x in c && x != base
      ensures base < x && 1 <= c[x]
    {
      CoalescedAt(fl, p, b, n, x);
    }
    forall x, y | x in c && y in c && x < y
      ensures x + c[x] < y
    {
      CoalescedPair(base, fl, p, b, n, x, y);
    }
  }

  /** The units of the joined block are those of the parts. */
  lemma JoinedUnits(fl: Blocks, p: int, b: int, n: int, u: int)
    requires p in fl && p < b && 1 <= n
    requires b + n in fl ==> 0 <= fl[b + n]
    ensures JoinedAt(fl, p, b) <= u < JoinedEnd(fl, b, n) <==>
              || b <= u < b + n
              || (b + n in fl && b + n <= u < b + n + fl[b + n])
              || (JoinedAt(fl, p, b) == p && p <= u < p + fl[p])
  {
  }

  lemma StaysCovered(fl: Blocks, p: int, b: int, n: int, u: int)
    requires p in fl && p < b && 1 <= n && Clear(fl, b, n) && (b + n in fl ==> 0 <= fl[b + n])
    requires Covers(fl, u) || b <= u < b + n
    ensures Covers(Coalesced(fl, p, b, n), u)
  {
    var c, j := Coalesced(fl, p, b, n), JoinedAt(fl, p, b);
    CoalescedAt(fl, p, b, n, j);
    JoinedUnits(fl, p, b, n, u);
    if b <= u < b + n {
      assert j in c && j <= u < j + c[j];
    } else {
      var a :| a in fl && a <= u < a + fl[a];
      CoalescedAt(fl, p, b, n, a);
      var x := if a == b + n then j else a;
      assert x in c && x <= u < x + c[x];
    }
  }

  lemma WasCovered(fl: Blocks, p: int, b: int, n: int, u: int)
    requires p in fl && p < b && 1 <= n && (b + n in fl ==> 0 <= fl[b + n])
    requires Covers(Coalesced(fl, p, b, n), u)
    ensures Covers(fl, u) || b <= u < b + n
  {
    var c := Coalesced(fl, p, b, n);
    var x :| x in c && x <= u < x + c[x];
    CoalescedAt(fl, p, b, n, x);
    JoinedUnits(fl, p, b, n, u);
  }

  /** Exactly the units of the block become free. */
  lemma CoalescedCovers(base: int, fl: Blocks, p: int, b: int, n: int, u: int)
    requires Apart(base, fl) && Pred(fl, p, b) && Clear(fl, b, n) && 1 <= n
    ensures Covers(Coalesced(fl, p, b, n), u) <==> Covers(fl, u) || b <= u < b + n
  {
    if Covers(Coalesced(fl, p, b, n), u) {
      WasCovered(fl, p, b, n, u);
    } else if Covers(fl, u) || b <= u < b + n {
      StaysCovered(fl, p, b, n, u);
    }
  }

  /** The block after `p` is the one a block just above `p` would join. */
  lemma NextIsNeighbour(base: int, fl: Blocks, p: int, q: int, b: int, n: int)
    requires Apart(base, fl) && Pred(fl, p, b) && Clear(fl, b, n) && 1 <= n && After(fl, p, q)
    ensures b + n == q <==> b + n in fl
    ensures q > p ==> b + n <= q
  {
  }

  /** The list walk of `free` has not got past `bp`, or has yet to wrap: the blocks still ahead. */
  ghost function Ahead(fl: Blocks, p: int, bp: int): set<int> {
    set x | x in fl && x > p && (p > bp || x < bp)
  }

  /** One turn of the walk from `p` to `q`: at the slot, or closer to it. */
  lemma SlotTurn(base: int, fl: Blocks, p: int, q: int, bp: int)
    requires base in fl && (forall a | a in fl :: base <= a) && After(fl, p, q) && p in fl && base < bp && bp !in fl
    ensures bp > p && bp < q ==> Pred(fl, p, bp)
    ensures p >= q && (bp > p || bp < q) ==> Pred(fl, p, bp)
    ensures !(bp > p && bp < q) && !(p >= q && (bp > p || bp < q)) ==>
              (p > bp && q < bp) || ((p > bp <==> q > bp) && Ahead(fl, q, bp) < Ahead(fl, p, bp))
  {
    if p < q && (p > bp || q < bp) {
      assert q in Ahead(fl, p, bp) && q !in Ahead(fl, q, bp);
      assert Ahead(fl, q, bp) <= Ahead(fl, p, bp);
    }
  }

  /** Walk the list to the block the one at `bp` belongs after. */
  method FindSlot(base: int, m: Memory, freep: int, bp: int, ghost fl: Blocks) returns (p: int)
    requires FreeList(base, m, fl) && freep in fl && base < bp && bp !in fl
    ensures Pred(fl, p, bp)
  {
    p := freep;
    Link(m, fl, p);
    SlotTurn(base, fl, p, m[p].ptr, bp);
    while !(bp > p && bp < m[p].ptr)
      invariant p in fl && p in m && After(fl, p, m[p].ptr)
      invariant bp > p && bp < m[p].ptr ==> Pred(fl, p, bp)
      decreases p > bp, Ahead(fl, p, bp)
    {
      SlotTurn(base, fl, p, m[p].ptr, bp);
      if p >= m[p].ptr && (bp > p || bp < m[p].ptr) {
        break;
      }
      p := m[p].ptr;
      Link(m, fl, p);
      SlotTurn(base, fl, p, m[p].ptr, bp);
    }
  }

  /** Links of blocks the freed one does not touch stay right. */
  lemma OtherLink(base: int, fl: Blocks, p: int, b: int, n: int, a: int, q: int)
    requires Apart(base, fl) && Pred(fl, p, b) && Clear(fl, b, n) && 1 <= n
    requires a in fl && a != p && a != b + n && After(fl, a, q)
    ensures After(Coalesced(fl, p, b, n), a, q)
  {
  }

  /** Where the joined block, or the block below it, must point. */
  lemma JoinedLink(base: int, fl: Blocks, p: int, q: int, b: int, n: int)
    requires Apart(base, fl) && Pred(fl, p, b) && Clear(fl, b, n) && 1 <= n && After(fl, p, q)
    ensures var c := Coalesced(fl, p, b, n);
            && (p + fl[p] != b ==> After(c, p, b))
            && (b + n != q ==> After(c, if p + fl[p] == b then p else b, q))
  {
    NextIsNeighbour(base, fl, p, q, b, n);
  }

  lemma JoinedUpLink(base: int, fl: Blocks, p: int, b: int, n: int, r: int)
    requires Apart(base, fl) && Pred(fl, p, b) && Clear(fl, b, n) && 1 <= n
    requires b + n in fl && After(fl, b + n, r)
    ensures var c := Coalesced(fl, p, b, n);
            After(c, JoinedAt(fl, p, b), r)
  {
    var c, j := Coalesced(fl, p, b, n), JoinedAt(fl, p, b);
    CoalescedAt(fl, p, b, n, r);
    forall x | x in c
      ensures if r > b + n then x <= j || r <= x else r <= x <= j
    {
      CoalescedAt(fl, p, b, n, x);
      if x != j && x < b + n {
        BelowJoined(fl, p, b, n, x);
      }
    }
  }

  /** The header writes of `free`, with the block at `b` going in after `p`. */
  function Spliced(m0: Memory, p: int, b: int): Memory
    requires p in m0 && b in m0 && m0[p].ptr in m0
  {
    var q := m0[p].ptr;
    var m1 := m0[b := if b + m0[b].size == q then Header(m0[q].ptr, m0[b].size + m0[q].size) else Header(q, m0[b].size)];
    m1[p := if p + m1[p].size == b then Header(m1[b].ptr, m1[p].size + m1[b].size) else Header(b, m1[p].size)]
  }

  lemma SplicedAt(base: int, m0: Memory, fl: Blocks, p: int, b: int, a: int)
    requires FreeList(base, m0, fl) && Pred(fl, p, b) && b in m0 && b !in fl && Clear(fl, b, m0[b].size) && 1 <= m0[b].size
    requires p in m0 && m0[p].ptr in m0 && a in Coalesced(fl, p, b, m0[b].size)
    ensures var m, c := Spliced(m0, p, b), Coalesced(fl, p, b, m0[b].size);
            a in m && m[a].size == c[a] && After(c, a, m[a].ptr)
  {
    var q, n := m0[p].ptr, m0[b].size;
    Link(m0, fl, p);
    Link(m0, fl, q);
    NextIsNeighbour(base, fl, p, q, b, n);
    if a != p && a != b {
      Link(m0, fl, a);
      OtherLink(base, fl, p, b, n, a, m0[a].ptr);
    } else {
      JoinedLink(base, fl, p, q, b, n);
      if b + n == q {
        JoinedUpLink(base, fl, p, b, n, m0[q].ptr);
      }
    }
  }

  lemma SplicedList(base: int, m0: Memory, fl: Blocks, p: int, b: int)
    requires FreeList(base, m0, fl) && Pred(fl, p, b) && b in m0 && b !in fl && Clear(fl, b, m0[b].size) && 1 <= m0[b].size
    requires p in m0 && m0[p].ptr in m0
    ensures FreeList(base, Spliced(m0, p, b), Coalesced(fl, p, b, m0[b].size))
  {
    CoalescedApart(base, fl, p, b, m0[b].size);
    forall a | a in Coalesced(fl, p, b, m0[b].size) && At(a) {
      SplicedAt(base, m0, fl, p, b, a);
    }
  }

  /** Put the block at `bp` back on the free list. */
  method Release(base: int, m0: Memory, freep0: int, bp: int, ghost fl: Blocks) returns (m: Memory, freep: int)
    requires FreeList(base, m0, fl) && freep0 in fl
    requires bp in m0 && base < bp && 1 <= m0[bp].size && Clear(fl, bp, m0[bp].size) && bp !in fl
    ensures Pred(fl, freep, bp)
    ensures FreeList(base, m, Coalesced(fl, freep, bp, m0[bp].size))
    ensures forall a | a in m0 && a !in fl && a != bp :: a in m && m[a] == m0[a]
  {
    var p := FindSlot(base, m0, freep0, bp, fl);
    Link(m0, fl, p);
    Link(m0, fl, m0[p].ptr);
    m := m0;
    if bp + m[bp].size == m[p].ptr {
      m := m[bp := Header(m[m[p].ptr].ptr, m[bp].size + m[m[p].ptr].size)];
    } else {
      m := m[bp := Header(m[p].ptr, m[bp].size)];
    }
    if p + m[p].size == bp {
      m := m[p := Header(m[bp].ptr, m[p].size + m[bp].size)];
    } else {
      m := m[p := Header(bp, m[p].size)];
    }
    freep := p;
    SplicedList(base, m0, fl, p, bp);
  }

  // ----- malloc -----

  /** Units asked of the free list for `nbytes`, with the unsigned wrap of umalloc.c:69. */
  function Nunits(nbytes: int): int { (nbytes + 7) % 0x1_0000_0000 / 8 + 1 }

  /** The block is large enough for every request but the last seven sizes, whose rounding wraps. */
  lemma NunitsExact(nbytes: int)
    requires 0 <= nbytes < 0x1_0000_0000
    ensures (Nunits(nbytes) - 1) * 8 >= nbytes <==> nbytes <= 0x1_0000_0000 - 8
    ensures nbytes <= 0x1_0000_0000 - 8 ==> (Nunits(nbytes) - 2) * 8 < nbytes
  {
  }

  /** The argument `sbrk` gets: `nu * 8`, truncated to 32 bits and read as signed. */
  function SbrkArg(nu: int): int {
    var bytes := nu * 8 % 0x1_0000_0000;
    if bytes < 0x8000_0000 then bytes else bytes - 0x1_0000_0000
  }

  /** `sbrk` is asked for what the header will claim exactly below 2^28 units. */
  lemma SbrkExact(nu: int)
    requires 1 <= nu <= 0x2000_0000
    ensures SbrkArg(nu) == nu * 8 <==> nu < 0x1000_0000
  {
  }

  /** The free blocks once the top `n` units of block `p` are taken. */
  function Carved(fl: Blocks, p: int, n: int): Blocks
    requires p in fl
  {
    if fl[p] == n then fl - {p} else fl[p := fl[p] - n]
  }

  lemma CarvedApart(base: int, fl: Blocks, p: int, n: int)
    requires Apart(base, fl) && p in fl && 1 <= n <= fl[p]
    ensures Apart(base, Carved(fl, p, n)) && Clear(Carved(fl, p, n), p + fl[p] - n, n)
    ensures p + fl[p] - n !in Carved(fl, p, n)
  {
  }

  /** Exactly the units of the block taken stop being free. */
  lemma CarvedCovers(base: int, fl: Blocks, p: int, n: int, u: int)
    requires Apart(base, fl) && p in fl && 1 <= n <= fl[p]
    ensures var at := p + fl[p] - n;
            && (Covers(fl, u) <==> Covers(Carved(fl, p, n), u) || at <= u < at + n)
            && !(Covers(Carved(fl, p, n), u) && at <= u < at + n)
  {
    var c := Carved(fl, p, n);
    if Covers(fl, u) {
      var a :| a in fl && a <= u < a + fl[a];
      if a != p || u < p + fl[p] - n {
        assert a in c && a <= u < a + c[a];
      }
    }
    if Covers(c, u) {
      var a :| a in c && a <= u < a + c[a];
      assert a in fl && a <= u < a + fl[a];
    }
  }

  /** The header writes of `malloc` when block `p`, after `prevp`, fits. */
  function Taken(m: Memory, prevp: int, p: int, n: int): Memory
    requires prevp in m && p in m
  {
    if m[p].size == n then m[prevp := Header(m[p].ptr, m[prevp].size)]
    else
      var m1 := m[p := Header(m[p].ptr, m[p].size - n)];
      var at := p + m1[p].size;
      m1[at := Header(if at in m1 then m1[at].ptr else 0, n)]
  }

  lemma TakenAt(base: int, m: Memory, fl: Blocks, prevp: int, p: int, n: int, a: int)
    requires FreeList(base, m, fl) && prevp in fl && p in fl && 1 <= n <= fl[p]
    requires prevp in m && p in m && m[prevp].ptr == p && m[p].size == fl[p] && a in Carved(fl, p, n)
    ensures var m', c := Taken(m, prevp, p, n), Carved(fl, p, n);
            a in m' && m'[a].size == c[a] && After(c, a, m'[a].ptr)
  {
    Link(m, fl, prevp);
    Link(m, fl, p);
    Link(m, fl, a);
    assert p != base && a != p + fl[p] - n;
  }

  lemma PrevStays(base: int, fl: Blocks, prevp: int, p: int, n: int)
    requires Apart(base, fl) && prevp in fl && p in fl && 1 <= n <= fl[p] && After(fl, prevp, p)
    ensures prevp in Carved(fl, p, n)
  {
  }

  lemma TakenHeader(m: Memory, prevp: int, p: int, n: int)
    requires prevp in m && p in m && 1 <= n <= m[p].size && prevp != p
    ensures var at := p + m[p].size - n; at in Taken(m, prevp, p, n) && Taken(m, prevp, p, n)[at].size == n
  {
  }

  lemma TakenList(base: int, m: Memory, fl: Blocks, prevp: int, p: int, n: int)
    requires FreeList(base, m, fl) && prevp in fl && p in fl && 1 <= n <= fl[p]
    requires prevp in m && p in m && m[prevp].ptr == p && m[p].size == fl[p]
    ensures FreeList(base, Taken(m, prevp, p, n), Carved(fl, p, n))
  {
    CarvedApart(base, fl, p, n);
    forall a | a in Carved(fl, p, n) && At(a) {
      TakenAt(base, m, fl, prevp, p, n, a);
    }
  }

  /** The scan of `malloc`, started after `freep`, has come to `p` and found nothing that fits. */
  ghost predicate Scan(fl: Blocks, freep: int, prevp: int, p: int, n: int) {
    && freep in fl && prevp in fl && p in fl && After(fl, prevp, p)
    && forall x | x in fl && (if p <= freep then x > freep || x < p else freep < x < p) :: fl[x] < n
  }

  ghost function Above(fl: Blocks, p: int): set<int> { set x | x in fl && x > p }

  lemma ScanStart(fl: Blocks, freep: int, p: int, n: int)
    requires freep in fl && After(fl, freep, p)
    ensures Scan(fl, freep, freep, p, n)
  {
  }

  lemma ScanTurn(fl: Blocks, freep: int, prevp: int, p: int, n: int, q: int)
    requires Scan(fl, freep, prevp, p, n) && fl[p] < n && p != freep && After(fl, p, q)
    ensures Scan(fl, freep, p, q, n)
    ensures (q <= freep < p) || ((p > freep <==> q > freep) && Above(fl, q) < Above(fl, p))
  {
    if q > p {
      assert q in Above(fl, p) && q !in Above(fl, q) && Above(fl, q) <= Above(fl, p);
    }
  }

  /** Back at `freep`, every block has been looked at. */
  lemma ScanFull(fl: Blocks, freep: int, prevp: int, n: int)
    requires Scan(fl, freep, prevp, freep, n) && fl[freep] < n
    ensures forall x | x in fl :: fl[x] < n
  {
  }

  /** Some free block has `n` units. */
  ghost predicate Fits(fl: Blocks, n: int) { exists a :: a in fl && n <= fl[a] }

  lemma GrownFits(base: int, fl: Blocks, p: int, b: int, n: int, k: int)
    requires Apart(base, fl) && Pred(fl, p, b) && Clear(fl, b, n) && k <= n
    ensures Fits(Coalesced(fl, p, b, n), k)
  {
    var c := Coalesced(fl, p, b, n);
    var x := if p + fl[p] == b then p else b;
    assert x in c && k <= c[x];
  }

  /** Units `morecore` asks for. */
  function Grow(nunits: int): int { if nunits < 4096 then 4096 else nunits }

  /** The list `malloc` starts from: `base` alone, the first time. */
  function Started(base: int, freep: int, fl: Blocks): Blocks { if freep == 0 then map[base := 0] else fl }

  datatype Outcome =
    | Null
    | Pointer(at: int)
    | Overreach // `sbrk` was asked for less than the new header claims

  /** `grant` is where `sbrk` will put new memory: above every block, or -1 if it will fail. */
  ghost predicate Granted(base: int, fl: Blocks, grant: int) {
    grant == -1 || (base < grant && forall a | a in fl :: a + fl[a] <= grant)
  }

  /** Get a new region from `sbrk` and free it onto the list. */
  method Morecore(base: int, m0: Memory, freep0: int, nunits: int, grant: int, ghost fl: Blocks)
    returns (r: Outcome, m: Memory, freep: int)
    requires FreeList(base, m0, fl) && freep0 in fl && 0 < base && 1 <= nunits <= 0x2000_0000 && Granted(base, fl, grant)
    ensures r.Null? <==> grant == -1
    ensures r.Overreach? <==> grant != -1 && 0x1000_0000 <= nunits
    ensures r.Null? ==> m == m0 && freep == freep0
    ensures r.Pointer? ==>
              && Pred(fl, freep, grant) && FreeList(base, m, Coalesced(fl, freep, grant, Grow(nunits)))
              && forall a | a in m0 && a !in fl && a != grant :: a in m && m[a] == m0[a]
  {
    var nu := if nunits < 4096 then 4096 else nunits;
    m, freep := m0, freep0;
    if grant == -1 {
      return Null, m, freep;
    }
    SbrkExact(nu);
    if SbrkArg(nu) != nu * 8 {
      return Overreach, m, freep;
    }
    m := m[grant := Header(if grant in m then m[grant].ptr else 0, nu)];
    assert FreeList(base, m, fl);
    m, freep := Release(base, m, freep, grant, fl);
    r := Pointer(freep);
  }

  /** What `malloc` did: the block of `n` units at `b` is taken from `fl1`, leaving `fl`. */
  ghost predicate TookBlock(base: int, m: Memory, fl1: Blocks, fl: Blocks, b: int, n: int) {
    && base < b && b in m && m[b].size == n && Clear(fl, b, n) && b !in fl
    && (forall a | a in fl :: a in fl1 && fl[a] <= fl1[a])
    && (forall u {:trigger Covers(fl, u)} {:trigger Covers(fl1, u)} ::
          && (Covers(fl1, u) <==> Covers(fl, u) || b <= u < b + n)
          && !(Covers(fl, u) && b <= u < b + n))
  }

  lemma TookCarved(base: int, m: Memory, fl: Blocks, prevp: int, p: int, n: int)
    requires FreeList(base, m, fl) && prevp in fl && p in fl && 1 <= n <= fl[p]
    requires prevp in m && p in m && m[prevp].ptr == p && m[p].size == fl[p] && prevp != p
    ensures TookBlock(base, Taken(m, prevp, p, n), fl, Carved(fl, p, n), p + fl[p] - n, n)
  {
    var c, at := Carved(fl, p, n), p + fl[p] - n;
    TakenHeader(m, prevp, p, n);
    CarvedApart(base, fl, p, n);
    forall u
      ensures Covers(fl, u) <==> Covers(c, u) || at <= u < at + n
      ensures !(Covers(c, u) && at <= u < at + n)
    {
      CarvedCovers(base, fl, p, n, u);
    }
  }

  /** Memory outside the list and the block taken is as it was. */
  ghost predicate Frame(m0: Memory, m: Memory, fl: Blocks) {
    forall a | a in m0 && a !in fl && !Covers(fl, a) :: a in m && m[a] == m0[a]
  }

  lemma TakenFrame(base: int, m: Memory, fl: Blocks, prevp: int, p: int, n: int)
    requires prevp in fl && p in fl && 1 <= n <= fl[p]
    requires prevp in m && p in m && m[p].size == fl[p]
    ensures Frame(m, Taken(m, prevp, p, n), fl)
  {
  }

  /** Always true; a state is unfolded only where a proof names its memory in `Look(m)`. */
  ghost predicate Look(m: Memory) { true }

  /** From list `fl1` in memory `m0`, block `b` of `n` units is taken; `m` holds the remaining list `fl`. */
  ghost predicate Served(base: int, m0: Memory, m: Memory, freep: int, fl1: Blocks, fl: Blocks, b: int, n: int) {
    forall x: Memory {:trigger Look(x)} | x == m && Look(x) ::
      FreeList(base, x, fl) && freep in fl && TookBlock(base, x, fl1, fl, b, n) && Frame(m0, x, fl1)
  }

  lemma TakenServed(base: int, m: Memory, fl: Blocks, prevp: int, p: int, n: int)
    requires FreeList(base, m, fl) && prevp in fl && p in fl && After(fl, prevp, p) && 1 <= n <= fl[p]
    requires prevp in m && p in m && m[prevp].ptr == p && m[p].size == fl[p]
    ensures Served(base, m, Taken(m, prevp, p, n), prevp, fl, Carved(fl, p, n), p + fl[p] - n, n)
  {
    PrevStays(base, fl, prevp, p, n);
    TakenList(base, m, fl, prevp, p, n);
    TookCarved(base, m, fl, prevp, p, n);
    TakenFrame(base, m, fl, prevp, p, n);
  }

  lemma ServedTrans(base: int, m0: Memory, m1: Memory, m: Memory, freep: int, fl1: Blocks, fl: Blocks, b: int, n: int)
    requires Frame(m0, m1, fl1) && Served(base, m1, m, freep, fl1, fl, b, n)
    ensures Served(base, m0, m, freep, fl1, fl, b, n)
  {
    assert Look(m);
  }

  /** `fl1` is `fl` with the region `sbrk` granted freed onto it. */
  ghost predicate Grew(base: int, fl: Blocks, fl1: Blocks, grant: int, nu: int) {
    exists k :: k in fl && Pred(fl, k, grant) && fl1 == Coalesced(fl, k, grant, nu)
  }

  lemma GrewCovers(base: int, fl: Blocks, fl1: Blocks, grant: int, nu: int, u: int)
    requires Apart(base, fl) && Granted(base, fl, grant) && 0 < base && grant != -1 && 1 <= nu && Grew(base, fl, fl1, grant, nu)
    ensures Covers(fl1, u) <==> Covers(fl, u) || grant <= u < grant + nu
  {
    var k :| k in fl && Pred(fl, k, grant) && fl1 == Coalesced(fl, k, grant, nu);
    CoalescedCovers(base, fl, k, grant, nu, u);
  }

  lemma GrewFrame(base: int, m0: Memory, m: Memory, fl: Blocks, k: int, grant: int, nu: int)
    requires Apart(base, fl) && Pred(fl, k, grant) && Clear(fl, grant, nu) && 1 <= nu
    requires forall a | a in m0 && a !in fl && a != grant :: a in m && m[a] == m0[a]
    ensures Frame(m0, m, Coalesced(fl, k, grant, nu))
  {
    var c := Coalesced(fl, k, grant, nu);
    forall a | a in m0 && a !in c && !Covers(c, a)
      ensures a in m && m[a] == m0[a]
    {
      CoalescedCovers(base, fl, k, grant, nu, a);
    }
  }

  /** Where the loop of `malloc` stands, `m0` being the memory it started from. */
  ghost predicate Searching(base: int, m0: Memory, m: Memory, fl: Blocks, freep: int, prevp: int, p: int, n: int) {
    forall x: Memory {:trigger Look(x)} | x == m && Look(x) ::
      && FreeList(base, x, fl) && Scan(fl, freep, prevp, p, n) && Frame(m0, x, fl)
      && freep in x && prevp in x && x[prevp].ptr == p && p in x && x[p].size == fl[p]
  }

  lemma SearchBegins(base: int, m0: Memory, m: Memory, fl: Blocks, freep: int, n: int)
    requires FreeList(base, m, fl) && freep in fl && Frame(m0, m, fl)
    ensures freep in m && m[freep].ptr in m && Searching(base, m0, m, fl, freep, freep, m[freep].ptr, n)
  {
    Link(m, fl, freep);
    Link(m, fl, m[freep].ptr);
    ScanStart(fl, freep, m[freep].ptr, n);
  }

  lemma SearchAdvances(base: int, m0: Memory, m: Memory, fl: Blocks, freep: int, prevp: int, p: int, n: int)
    requires Searching(base, m0, m, fl, freep, prevp, p, n) && p in m && m[p].size < n && p != freep
    ensures var q := m[p].ptr;
            && q in m && Searching(base, m0, m, fl, freep, p, q, n)
            && ((q <= freep < p) || ((p > freep <==> q > freep) && Above(fl, q) < Above(fl, p)))
  {
    assert Look(m);
    Link(m, fl, p);
    Link(m, fl, m[p].ptr);
    ScanTurn(fl, freep, prevp, p, n, m[p].ptr);
  }

  /** What taking the block the scan found does, and why it may. */
  lemma FoundServed(base: int, m0: Memory, m: Memory, fl: Blocks, freep: int, prevp: int, p: int, n: int)
    requires Searching(base, m0, m, fl, freep, prevp, p, n) && p in m && prevp in m && 1 <= n <= m[p].size
    ensures p in fl && m[p].size == fl[p]
    ensures Served(base, m0, Taken(m, prevp, p, n), prevp, fl, Carved(fl, p, n), p + fl[p] - n, n)
  {
    assert Look(m);
    TakenServed(base, m, fl, prevp, p, n);
    ServedTrans(base, m0, m, Taken(m, prevp, p, n), prevp, fl, Carved(fl, p, n), p + fl[p] - n, n);
  }

  /** The scan comes back to `freep` with nothing found: grow the list. */
  method GrowList(base: int, ghost m0: Memory, m1: Memory, freep1: int, ghost prevp: int, n: int, grant: int, ghost fl: Blocks)
    returns (r: Outcome, m: Memory, freep: int, ghost fl1: Blocks)
    requires Searching(base, m0, m1, fl, freep1, prevp, freep1, n) && freep1 in m1 && m1[freep1].size < n
    requires 0 < base && 1 <= n <= 0x2000_0000 && Granted(base, fl, grant)
    ensures !Fits(fl, n)
    ensures r.Null? <==> grant == -1
    ensures r.Null? ==> fl1 == fl && Kept(base, m0, m, freep, fl)
    ensures r.Overreach? <==> grant != -1 && 0x1000_0000 <= n
    ensures r.Pointer? ==>
              && Fits(fl1, n) && Grew(base, fl, fl1, grant, Grow(n))
              && freep in m && m[freep].ptr in m && Searching(base, m0, m, fl1, freep, freep, m[freep].ptr, n)
  {
    assert Look(m1);
    ScanFull(fl, freep1, prevp, n);
    fl1 := fl;
    r, m, freep := Morecore(base, m1, freep1, n, grant, fl);
    if r.Pointer? {
      GrewFrame(base, m1, m, fl, freep, grant, Grow(n));
      GrownFits(base, fl, freep, grant, Grow(n), n);
      GrownFrame(base, m0, m1, m, fl, freep, grant, Grow(n));
      fl1 := Coalesced(fl, freep, grant, Grow(n));
      SearchBegins(base, m0, m, fl1, freep, n);
    }
  }

  lemma GrownFrame(base: int, m0: Memory, m1: Memory, m2: Memory, fl: Blocks, k: int, grant: int, nu: int)
    requires Apart(base, fl) && Pred(fl, k, grant) && Clear(fl, grant, nu) && 1 <= nu
    requires Frame(m0, m1, fl) && Frame(m1, m2, Coalesced(fl, k, grant, nu))
    ensures Frame(m0, m2, Coalesced(fl, k, grant, nu))
  {
    var c := Coalesced(fl, k, grant, nu);
    forall a | a in m0 && a !in c && !Covers(c, a)
      ensures a in m2 && m2[a] == m0[a]
    {
      CoalescedCovers(base, fl, k, grant, nu, a);
    }
  }

  /** What `malloc` needs of the heap it finds; unfolded only where a proof names the memory in `Look`. */
  ghost predicate Ready(base: int, m0: Memory, freep0: int, fl0: Blocks, grant: int) {
    forall x: Memory {:trigger Look(x)} | x == m0 && Look(x) ::
      && 0 < base && (freep0 != 0 ==> FreeList(base, x, fl0) && freep0 in fl0)
      && Granted(base, Started(base, freep0, fl0), grant)
  }

  /** What `malloc` leaves when it returns null. */
  ghost predicate Kept(base: int, m0: Memory, m: Memory, freep: int, fl: Blocks) {
    forall x: Memory {:trigger Look(x)} | x == m && Look(x) :: FreeList(base, x, fl) && freep in fl && Frame(m0, x, fl)
  }

  /** The list a search without growth starts from, and its first state. */
  lemma StartedSearch(base: int, m0: Memory, freep0: int, fl0: Blocks, grant: int, n: int)
    requires Ready(base, m0, freep0, fl0, grant)
    ensures var m := if freep0 == 0 then m0[base := Header(base, 0)] else m0;
            var freep := if freep0 == 0 then base else freep0;
            var fl := Started(base, freep0, fl0);
            && 0 < base && Granted(base, fl, grant)
            && freep in m && m[freep].ptr in m && Searching(base, m0, m, fl, freep, freep, m[freep].ptr, n)
  {
    assert Look(m0);
    var m := if freep0 == 0 then m0[base := Header(base, 0)] else m0;
    var freep := if freep0 == 0 then base else freep0;
    StartedList(base, m0, freep0, fl0);
    SearchBegins(base, m0, m, Started(base, freep0, fl0), freep, n);
  }

  lemma StartedList(base: int, m0: Memory, freep0: int, fl0: Blocks)
    requires 0 < base && (freep0 != 0 ==> FreeList(base, m0, fl0) && freep0 in fl0)
    ensures var m := if freep0 == 0 then m0[base := Header(base, 0)] else m0;
            var freep := if freep0 == 0 then base else freep0;
            var fl := Started(base, freep0, fl0);
            FreeList(base, m, fl) && freep in fl && Frame(m0, m, fl)
  {
  }

  /** Take the block the scan found, or its tail. */
  method Take(base: int, ghost m0: Memory, m: Memory, ghost freep: int, prevp: int, p: int, n: int, ghost fl: Blocks)
    returns (m1: Memory, at: int)
    requires Searching(base, m0, m, fl, freep, prevp, p, n) && p in m && prevp in m && 1 <= n <= m[p].size
    ensures p in fl && n <= fl[p] && Served(base, m0, m1, prevp, fl, Carved(fl, p, n), at, n)
  {
    FoundServed(base, m0, m, fl, freep, prevp, p, n);
    at := p;
    m1 := m;
    if m[p].size == n {
      m1 := m1[prevp := Header(m[p].ptr, m[prevp].size)];
    } else {
      m1 := m1[p := Header(m1[p].ptr, m1[p].size - n)];
      at := p + m1[p].size;
      m1 := m1[at := Header(if at in m1 then m1[at].ptr else 0, n)];
    }
  }

  /** First fit from `freep`; one call of `morecore` at most, and only when nothing fits. */
  method Allocate(base: int, m0: Memory, freep0: int, nbytes: int, grant: int, ghost fl0: Blocks)
    returns (r: Outcome, m: Memory, freep: int, calls: int, ghost fl1: Blocks, ghost fl: Blocks)
    requires Ready(base, m0, freep0, fl0, grant) && 0 <= nbytes < 0x1_0000_0000
    ensures 0 <= calls <= 1 && (calls == 0 <==> Fits(Started(base, freep0, fl0), Nunits(nbytes)))
    ensures r.Pointer? ==>
              && Served(base, m0, m, freep, fl1, fl, r.at - 1, Nunits(nbytes))
              && (calls == 0 ==> fl1 == Started(base, freep0, fl0))
              && (calls == 1 ==> grant != -1 && Grew(base, Started(base, freep0, fl0), fl1, grant, Grow(Nunits(nbytes))))
    ensures r.Null? ==>
              calls == 1 && grant == -1 && fl == Started(base, freep0, fl0) && Kept(base, m0, m, freep, fl)
    ensures r.Overreach? <==> calls == 1 && grant != -1 && 0x1000_0000 <= Nunits(nbytes)
  {
    var nunits := (nbytes + 8 - 1) % 0x1_0000_0000 / 8 + 1;
    ghost var start := Started(base, freep0, fl0);
    StartedSearch(base, m0, freep0, fl0, grant, nunits);
    m, freep, calls, fl, fl1 := m0, freep0, 0, start, start;
    if freep == 0 {
      m := m[base := Header(base, 0)];
      freep := base;
    }
    var prevp := freep;
    var p := m[prevp].ptr;
    while true
      invariant calls == 0 || calls == 1
      invariant Searching(base, m0, m, fl1, freep, prevp, p, nunits) && p in m && prevp in m
      invariant calls == 0 ==> fl1 == start
      invariant calls == 1 ==>
                  && grant != -1 && nunits < 0x1000_0000 && Fits(fl1, nunits) && !Fits(start, nunits)
                  && Grew(base, start, fl1, grant, Grow(nunits))
      decreases calls == 0, p > freep, Above(fl1, p)
    {
      if m[p].size >= nunits {
        var m1, at := Take(base, m0, m, freep, prevp, p, nunits, fl1);
        return Pointer(at + 1), m1, prevp, calls, fl1, Carved(fl1, p, nunits);
      }
      if p == freep {
        var r1, m1, freep1; ghost var fl2;
        FullThenNoFit(base, m0, m, fl1, freep, prevp, nunits);
        r1, m1, freep1, fl2 := GrowList(base, m0, m, freep, prevp, nunits, grant, fl1);
        calls := calls + 1;
        if !r1.Pointer? {
          return r1, m1, freep1, calls, fl2, fl2;
        }
        m, freep, fl1 := m1, freep1, fl2;
        p := freep;
      } else {
        SearchAdvances(base, m0, m, fl1, freep, prevp, p, nunits);
      }
      prevp := p;
      p := m[p].ptr;
    }
  }

  lemma FullThenNoFit(base: int, m0: Memory, m: Memory, fl: Blocks, freep: int, prevp: int, n: int)
    requires Searching(base, m0, m, fl, freep, prevp, freep, n) && freep in m && m[freep].size < n
    ensures !Fits(fl, n)
  {
    assert Look(m);
    ScanFull(fl, freep, prevp, n);
  }

  // ----- the allocator -----

  /** Live blocks: apart from each other and from the free ones, sizes in their headers. */
  ghost predicate LiveOk(base: int, m: Memory, fl: Blocks, live: Blocks) {
    && (forall a | a in live :: base < a && 1 <= live[a] && a in m && m[a].size == live[a] && a !in fl && Clear(fl, a, live[a]))
    && (forall a, b | a in live && b in live && a < b :: a + live[a] <= b)
  }

  /** Every unit obtained from `sbrk` is in exactly one live or free block, and no other unit is in any. */
  ghost predicate Conserved(fl: Blocks, live: Blocks, obtained: Blocks) {
    forall u {:trigger Covers(obtained, u)} :: Covers(obtained, u) <==> Covers(fl, u) || Covers(live, u)
  }

  lemma NotCovered(fl: Blocks, a: int, n: int)
    requires Clear(fl, a, n) && 1 <= n
    ensures !Covers(fl, a)
  {
  }

  /** A block taken from the free list joins the live ones. */
  lemma LiveTaken(base: int, m0: Memory, m: Memory, fl1: Blocks, fl: Blocks, live: Blocks, b: int, n: int)
    requires LiveOk(base, m0, fl1, live) && Frame(m0, m, fl1) && TookBlock(base, m, fl1, fl, b, n) && 1 <= n
    ensures b !in live && LiveOk(base, m, fl, live[b := n])
  {
    forall a | a in live
      ensures a in m && m[a].size == live[a] && Clear(fl, a, live[a])
      ensures a + live[a] <= b || b + n <= a
    {
      NotCovered(fl1, a, live[a]);
      assert Covers(fl1, b);
    }
  }

  lemma CoversAdd(live: Blocks, b: int, n: int, u: int)
    requires b !in live
    ensures Covers(live[b := n], u) <==> Covers(live, u) || b <= u < b + n
  {
    var l := live[b := n];
    if Covers(live, u) {
      var a :| a in live && a <= u < a + live[a];
      assert a in l && a <= u < a + l[a];
    }
    if b <= u < b + n {
      assert b in l && b <= u < b + l[b];
    }
  }

  lemma ConservedTaken(base: int, m: Memory, fl1: Blocks, fl: Blocks, live: Blocks, obtained: Blocks, b: int, n: int)
    requires Conserved(fl1, live, obtained) && TookBlock(base, m, fl1, fl, b, n) && b !in live
    ensures Conserved(fl, live[b := n], obtained)
  {
    forall u
      ensures Covers(obtained, u) <==> Covers(fl, u) || Covers(live[b := n], u)
    {
      CoversAdd(live, b, n, u);
      assert Covers(fl1, u) <==> Covers(fl, u) || b <= u < b + n;
    }
  }

  /** All blocks lie below the break. */
  ghost predicate Under(base: int, fl: Blocks, live: Blocks, brk: int) {
    base < brk && (forall a | a in fl :: a + fl[a] <= brk) && (forall a | a in live :: a + live[a] <= brk)
  }

  lemma LiveGrown(base: int, m: Memory, fl: Blocks, fl1: Blocks, live: Blocks, brk: int, grant: int, nu: int)
    requires LiveOk(base, m, fl, live) && Apart(base, fl) && Under(base, fl, live, brk) && brk <= grant && 1 <= nu
    requires Grew(base, fl, fl1, grant, nu)
    ensures LiveOk(base, m, fl1, live) && Under(base, fl1, live, grant + nu)
  {
  }

  lemma ConservedGrown(base: int, fl: Blocks, fl1: Blocks, live: Blocks, obtained: Blocks, grant: int, nu: int)
    requires Conserved(fl, live, obtained) && Apart(base, fl) && Granted(base, fl, grant) && 0 < base && grant != -1
    requires 1 <= nu && Grew(base, fl, fl1, grant, nu) && grant !in obtained
    ensures Conserved(fl1, live, obtained[grant := nu])
  {
    forall u
      ensures Covers(obtained[grant := nu], u) <==> Covers(fl1, u) || Covers(live, u)
    {
      CoversAdd(obtained, grant, nu, u);
      GrewCovers(base, fl, fl1, grant, nu, u);
      assert Covers(obtained, u) <==> Covers(fl, u) || Covers(live, u);
    }
  }

  /** What was clear of the free blocks and of the freed one is clear of the joined one. */
  lemma ClearFreed(fl: Blocks, p: int, b: int, n: int, a: int, k: int)
    requires Pred(fl, p, b) && 1 <= n && 1 <= k && a !in fl && Clear(fl, a, k) && (a + k <= b || b + n <= a)
    ensures a !in Coalesced(fl, p, b, n) && Clear(Coalesced(fl, p, b, n), a, k)
  {
    var c := Coalesced(fl, p, b, n);
    CoalescedAt(fl, p, b, n, a);
    forall x | x in c
      ensures x + c[x] <= a || a + k <= x
    {
      CoalescedAt(fl, p, b, n, x);
    }
  }

  lemma LiveFreed(base: int, m0: Memory, m: Memory, fl: Blocks, live: Blocks, p: int, b: int)
    requires LiveOk(base, m0, fl, live) && Apart(base, fl) && b in live && Pred(fl, p, b)
    requires forall a | a in m0 && a !in fl && a != b :: a in m && m[a] == m0[a]
    ensures LiveOk(base, m, Coalesced(fl, p, b, live[b]), live - {b})
  {
    forall a | a in live - {b}
      ensures a !in Coalesced(fl, p, b, live[b]) && Clear(Coalesced(fl, p, b, live[b]), a, live[a])
    {
      ClearFreed(fl, p, b, live[b], a, live[a]);
    }
  }

  lemma ConservedFreed(base: int, fl: Blocks, live: Blocks, obtained: Blocks, p: int, b: int)
    requires Conserved(fl, live, obtained) && Apart(base, fl) && b in live && Pred(fl, p, b)
    requires 1 <= live[b] && Clear(fl, b, live[b])
    ensures Conserved(Coalesced(fl, p, b, live[b]), live - {b}, obtained)
  {
    var l := live - {b};
    assert l[b := live[b]] == live;
    forall u
      ensures Covers(obtained, u) <==> Covers(Coalesced(fl, p, b, live[b]), u) || Covers(l, u)
    {
      CoalescedCovers(base, fl, p, b, live[b], u);
      CoversAdd(l, b, live[b], u);
      assert Covers(obtained, u) <==> Covers(fl, u) || Covers(live, u);
    }
  }

  lemma UnderFreed(base: int, fl: Blocks, live: Blocks, brk: int, p: int, b: int)
    requires Under(base, fl, live, brk) && b in live && p in fl
    ensures Under(base, Coalesced(fl, p, b, live[b]), live - {b}, brk)
  {
  }

  /**
    The free list is one address-ordered cycle without touching blocks, live
    blocks are apart from it and from each other, and together they are what
    `sbrk` has granted.
   */
  ghost predicate HeapOk(base: int, m: Memory, freep: int, fl: Blocks, live: Blocks, obtained: Blocks, brk: int) {
    forall x: Memory {:trigger Look(x)} | x == m && Look(x) :: HeapState(base, x, freep, fl, live, obtained, brk)
  }

  ghost predicate HeapState(base: int, m: Memory, freep: int, fl: Blocks, live: Blocks, obtained: Blocks, brk: int) {
    && 0 < base && Under(base, fl, live, brk) && (forall a | a in obtained :: a < brk)
    && (freep == 0 ==> fl == map[] && live == map[] && obtained == map[])
    && (freep != 0 ==>
          && FreeList(base, m, fl) && freep in fl
          && LiveOk(base, m, fl, live) && Conserved(fl, live, obtained))
  }

  /** What the free list, the live blocks and the regions obtained say of each other. */
  ghost predicate Ledger(base: int, m: Memory, fl: Blocks, live: Blocks, obtained: Blocks, brk: int) {
    forall x: Memory {:trigger Look(x)} | x == m && Look(x) ::
      && LiveOk(base, x, fl, live) && Conserved(fl, live, obtained)
      && Under(base, fl, live, brk) && forall a | a in obtained :: a < brk
  }

  lemma StartedLedger(base: int, m: Memory, freep: int, fl: Blocks, live: Blocks, obtained: Blocks, brk: int)
    requires HeapOk(base, m, freep, fl, live, obtained, brk)
    ensures 0 < base && base < brk && Apart(base, Started(base, freep, fl))
    ensures Ledger(base, m, Started(base, freep, fl), live, obtained, brk)
  {
    assert Look(m);
  }

  lemma GrownLedger(base: int, m: Memory, fl: Blocks, fl1: Blocks, live: Blocks, obtained: Blocks, brk: int, grant: int, nu: int)
    requires Ledger(base, m, fl, live, obtained, brk) && Apart(base, fl) && 0 < base < brk <= grant && 1 <= nu
    requires Grew(base, fl, fl1, grant, nu)
    ensures Ledger(base, m, fl1, live, obtained[grant := nu], grant + nu)
  {
    assert Look(m);
    LiveGrown(base, m, fl, fl1, live, brk, grant, nu);
    ConservedGrown(base, fl, fl1, live, obtained, grant, nu);
  }

  lemma ServedOk(base: int, m0: Memory, m: Memory, freep: int, fl1: Blocks, fl: Blocks,
                 live: Blocks, obtained: Blocks, brk: int, b: int, n: int)
    requires 0 < base && Ledger(base, m0, fl1, live, obtained, brk) && 1 <= n
    requires Served(base, m0, m, freep, fl1, fl, b, n)
    ensures b !in live && HeapOk(base, m, freep, fl, live[b := n], obtained, brk)
  {
    assert Look(m0) && Look(m);
    LiveTaken(base, m0, m, fl1, fl, live, b, n);
    ConservedTaken(base, m, fl1, fl, live, obtained, b, n);
    UnderTaken(base, m, fl1, fl, live, brk, b, n);
  }

  lemma UnderTaken(base: int, m: Memory, fl1: Blocks, fl: Blocks, live: Blocks, brk: int, b: int, n: int)
    requires Under(base, fl1, live, brk) && TookBlock(base, m, fl1, fl, b, n) && 1 <= n
    ensures Under(base, fl, live[b := n], brk)
  {
    assert Covers(fl1, b + n - 1);
  }

  lemma LiveKept(base: int, m0: Memory, m: Memory, fl: Blocks, live: Blocks)
    requires LiveOk(base, m0, fl, live) && Frame(m0, m, fl)
    ensures LiveOk(base, m, fl, live)
  {
    forall a | a in live
      ensures a in m && m[a] == m0[a]
    {
      NotCovered(fl, a, live[a]);
    }
  }

  /** What the code of `malloc` relies on. */
  lemma MallocReady(base: int, m: Memory, freep: int, fl: Blocks, live: Blocks, obtained: Blocks, brk: int, grant: int)
    requires HeapOk(base, m, freep, fl, live, obtained, brk) && (grant == -1 || brk <= grant)
    ensures Ready(base, m, freep, fl, grant)
  {
    assert Look(m);
  }

  /** What the code of `free` relies on. */
  lemma FreeReady(base: int, m: Memory, freep: int, fl: Blocks, live: Blocks, obtained: Blocks, brk: int, a: int)
    requires HeapOk(base, m, freep, fl, live, obtained, brk) && a in live
    ensures FreeList(base, m, fl) && freep in fl
    ensures base < a && 1 <= live[a] && a in m && m[a].size == live[a] && a !in fl && Clear(fl, a, live[a])
  {
    assert Look(m);
  }

  /** A block from the list as it stands. */
  lemma TakenOk(base: int, m0: Memory, m: Memory, freep0: int, freep: int, fl0: Blocks, fl: Blocks,
                live: Blocks, obtained: Blocks, brk: int, b: int, n: int)
    requires HeapOk(base, m0, freep0, fl0, live, obtained, brk) && 1 <= n
    requires Served(base, m0, m, freep, Started(base, freep0, fl0), fl, b, n)
    ensures b !in live && HeapOk(base, m, freep, fl, live[b := n], obtained, brk)
  {
    StartedLedger(base, m0, freep0, fl0, live, obtained, brk);
    ServedOk(base, m0, m, freep, Started(base, freep0, fl0), fl, live, obtained, brk, b, n);
  }

  /** A block from the list grown by a new region. */
  lemma GrownOk(base: int, m0: Memory, m: Memory, freep0: int, freep: int, fl0: Blocks, fl1: Blocks, fl: Blocks,
                live: Blocks, obtained: Blocks, brk: int, grant: int, nu: int, b: int, n: int)
    requires HeapOk(base, m0, freep0, fl0, live, obtained, brk) && 1 <= n && 1 <= nu && brk <= grant
    requires Grew(base, Started(base, freep0, fl0), fl1, grant, nu)
    requires Served(base, m0, m, freep, fl1, fl, b, n)
    ensures b !in live && HeapOk(base, m, freep, fl, live[b := n], obtained[grant := nu], grant + nu)
  {
    var start := Started(base, freep0, fl0);
    StartedLedger(base, m0, freep0, fl0, live, obtained, brk);
    GrownLedger(base, m0, start, fl1, live, obtained, brk, grant, nu);
    ServedOk(base, m0, m, freep, fl1, fl, live, obtained[grant := nu], grant + nu, b, n);
  }

  lemma NullOk(base: int, m0: Memory, m: Memory, freep0: int, freep: int, fl0: Blocks, live: Blocks, obtained: Blocks, brk: int)
    requires HeapOk(base, m0, freep0, fl0, live, obtained, brk)
    requires Kept(base, m0, m, freep, Started(base, freep0, fl0))
    ensures HeapOk(base, m, freep, Started(base, freep0, fl0), live, obtained, brk)
  {
    StartedLedger(base, m0, freep0, fl0, live, obtained, brk);
    assert Look(m0) && Look(m);
    LiveKept(base, m0, m, Started(base, freep0, fl0), live);
  }

  lemma FreedOk(base: int, m0: Memory, m: Memory, freep0: int, p: int, fl: Blocks, live: Blocks, obtained: Blocks, brk: int, b: int)
    requires HeapOk(base, m0, freep0, fl, live, obtained, brk) && b in live && Pred(fl, p, b)
    requires FreeList(base, m, Coalesced(fl, p, b, live[b]))
    requires forall a | a in m0 && a !in fl && a != b :: a in m && m[a] == m0[a]
    ensures HeapOk(base, m, p, Coalesced(fl, p, b, live[b]), live - {b}, obtained, brk)
  {
    assert Look(m0);
    LiveFreed(base, m0, m, fl, live, p, b);
    ConservedFreed(base, fl, live, obtained, p, b);
    UnderFreed(base, fl, live, brk, p, b);
    CoalescedApart(base, fl, p, b, live[b]);
  }

  /** `malloc` on a heap in order: the blocks it hands out, and when it must ask for more. */
  method Serve(base: int, mem: Memory, freep: int, nbytes: int, grant: int,
               ghost fl: Blocks, ghost live: Blocks, ghost obtained: Blocks, ghost brk: int)
    returns (r: Outcome, m: Memory, f: int, calls: int, ghost fl': Blocks, ghost live': Blocks, ghost obtained': Blocks, ghost brk': int)
    requires HeapOk(base, mem, freep, fl, live, obtained, brk)
    requires 0 <= nbytes < 0x1_0000_0000 && (grant == -1 || brk <= grant)
    ensures !r.Overreach? ==> HeapOk(base, m, f, fl', live', obtained', brk')
    ensures 0 <= calls <= 1 && (calls == 0 <==> Fits(Started(base, freep, fl), Nunits(nbytes)))
    ensures r.Overreach? <==> calls == 1 && grant != -1 && 0x1000_0000 <= Nunits(nbytes)
    ensures r.Null? ==> calls == 1 && grant == -1 && live' == live && obtained' == obtained && fl' == Started(base, freep, fl)
    ensures r.Pointer? ==> r.at - 1 !in live && live' == live[r.at - 1 := Nunits(nbytes)]
    ensures r.Pointer? ==> obtained' == if calls == 1 then obtained[grant := Grow(Nunits(nbytes))] else obtained
  {
    ghost var n := Nunits(nbytes);
    MallocReady(base, mem, freep, fl, live, obtained, brk, grant);
    ghost var fl1;
    live', obtained', brk' := live, obtained, brk;
    r, m, f, calls, fl1, fl' := Allocate(base, mem, freep, nbytes, grant, fl);
    if r.Pointer? {
      if calls == 1 {
        GrownOk(base, mem, m, freep, f, fl, fl1, fl', live, obtained, brk, grant, Grow(n), r.at - 1, n);
        obtained', brk' := obtained[grant := Grow(n)], grant + Grow(n);
      } else {
        TakenOk(base, mem, m, freep, f, fl, fl', live, obtained, brk, r.at - 1, n);
      }
      live' := live[r.at - 1 := n];
    } else if r.Null? {
      NullOk(base, mem, m, freep, f, fl, live, obtained, brk);
    }
  }

  class Allocator {
    const base: int
    var mem: Memory
    var freep: int
    ghost var fl: Blocks
    ghost var live: Blocks
    ghost var obtained: Blocks
    ghost var brk: int

    ghost predicate Valid()
      reads this
    {
      HeapOk(base, mem, freep, fl, live, obtained, brk)
    }

    /** Statics are zero when the process starts: there is no list yet. */
    constructor (base: int, mem: Memory)
      requires 0 < base
      ensures Valid() && live == map[] && obtained == map[] && this.base == base
    {
      this.base, this.mem, freep := base, mem, 0;
      fl, live, obtained, brk := map[], map[], map[], base + 1;
    }

    /** `sbrk` puts new memory at `grant`, or fails with -1. */
    method Malloc(nbytes: int, grant: int) returns (r: Outcome, calls: int)
      requires Valid() && 0 <= nbytes < 0x1_0000_0000 && (grant == -1 || brk <= grant)
      modifies `mem, `freep, `fl, `live, `obtained, `brk
      ensures !r.Overreach? ==> Valid()
      ensures 0 <= calls <= 1 && (calls == 0 <==> Fits(Started(base, old(freep), old(fl)), Nunits(nbytes)))
      ensures r.Overreach? <==> calls == 1 && grant != -1 && 0x1000_0000 <= Nunits(nbytes)
      ensures r.Null? ==> grant == -1 && live == old(live) && obtained == old(obtained) && !Fits(fl, Nunits(nbytes))
      ensures r.Pointer? ==> r.at - 1 !in old(live) && live == old(live)[r.at - 1 := Nunits(nbytes)]
      ensures r.Pointer? ==> obtained == if calls == 1 then old(obtained)[grant := Grow(Nunits(nbytes))] else old(obtained)
      ensures r.Pointer? && calls == 1 ==> obtained[grant] >= 4096 && obtained[grant] >= live[r.at - 1]
      ensures r.Pointer? && nbytes <= 0x1_0000_0000 - 8 ==> nbytes <= (live[r.at - 1] - 1) * 8 < nbytes + 8
    {
      NunitsExact(nbytes);
      var m, f; ghost var fl', live', obtained', brk';
      r, m, f, calls, fl', live', obtained', brk' := Serve(base, mem, freep, nbytes, grant, fl, live, obtained, brk);
      mem, freep, fl, live, obtained, brk := m, f, fl', live', obtained', brk';
    }

    /** Give a live block back. */
    method Free(ap: int)
      requires Valid() && ap - 1 in live
      modifies `mem, `freep, `fl, `live
      ensures Valid() && live == old(live) - {ap - 1}
    {
      FreeReady(base, mem, freep, fl, live, obtained, brk, ap - 1);
      var m, f := Release(base, mem, freep, ap - 1, fl);
      FreedOk(base, mem, m, freep, f, fl, live, obtained, brk, ap - 1);
      mem, freep, fl, live := m, f, Coalesced(fl, f, ap - 1, live[ap - 1]), live - {ap - 1};
    }
  }
}
