/**
  User memory of one address space (vm.c:44-89, 222-299) over the page
  allocator (kalloc.c:59-95). Every physical page the kernel hands out has one
  owner: the free list, the page directory, one page-table slot or one user
  mapping. Growing, shrinking and freeing move pages between owners.

  Virtual pages and physical pages are page numbers. Page `v` is mapped by
  entry `v % 1024` of the table in directory slot `v / 1024`.
 */
module PageTables {

  /** First kernel page: KERNBASE / 4096. Mappings from there on are not the process's own. */
  const KERNPAGE := 0x80000

  /** `free` is the free list, top last; `pde` holds the page tables present, `pte` the mappings present. */
  datatype Space = Space(free: seq<int>, dir: int, pde: map<int, int>, pte: map<int, int>)

  datatype Owner = Free | Held | Dir | Table(d: int) | User(v: int)

  type Owners = map<int, Owner>

  // ----- ownership -----

  ghost predicate FreeOk(free: seq<int>, own: Owners) {
    && (forall i | 0 <= i < |free| :: free[i] in own && own[free[i]] == Free)
    && (forall i, j | 0 <= i < j < |free| :: free[i] != free[j])
    && (forall p | p in own && own[p] == Free :: p in free)
  }

  ghost predicate TablesOk(pde: map<int, int>, own: Owners) {
    && (forall d | d in pde :: 0 <= d < 1024 && pde[d] in own && own[pde[d]] == Table(d))
    && (forall p | p in own && own[p].Table? :: own[p].d in pde && pde[own[p].d] == p)
  }

  ghost predicate UserOk(pte: map<int, int>, own: Owners) {
    && (forall v | v in pte && v < KERNPAGE :: 0 <= v && pte[v] in own && own[pte[v]] == User(v))
    && (forall p | p in own && own[p].User? :: own[p].v in pte && own[p].v < KERNPAGE && pte[own[p].v] == p)
  }

  /** Always true; ownership is unfolded only where a proof names `Look(own)`. */
  ghost predicate Look(own: Owners) { true }

  /** Each page has the owner `own` says, and that owner has no other; a mapping has a table to be in. */
  ghost predicate Ok(s: Space, own: Owners) {
    forall o: Owners {:trigger Look(o)} | o == own && Look(o) :: Owned(s, o)
  }

  ghost predicate Owned(s: Space, own: Owners) {
    && (forall p | p in own :: 0 < p)
    && FreeOk(s.free, own) && TablesOk(s.pde, own) && UserOk(s.pte, own)
    && s.dir in own && own[s.dir] == Dir && (forall p | p in own && own[p] == Dir :: p == s.dir)
    && forall v | v in s.pte :: v / 1024 in s.pde
  }

  ghost predicate NoneHeld(own: Owners) { forall p | p in own :: own[p] != Held }

  /** The same pages, of which the same are in nobody's hands but the running code's. */
  ghost predicate SamePages(own: Owners, own': Owners) {
    own'.Keys == own.Keys && forall p | p in own :: own'[p] == Held <==> own[p] == Held
  }

  // ----- one page changes hands -----

  lemma PopOk(s: Space, own: Owners)
    requires Ok(s, own) && s.free != []
    ensures var p := s.free[|s.free| - 1];
            p in own && own[p] == Free && Ok(s.(free := s.free[..|s.free| - 1]), own[p := Held])
  {
    assert Look(own);
    var p, rest := s.free[|s.free| - 1], s.free[..|s.free| - 1];
    forall q | q in own[p := Held] && own[p := Held][q] == Free
      ensures q in rest
    {
      var i :| 0 <= i < |s.free| && s.free[i] == q;
      assert rest[i] == q;
    }
  }

  lemma PushOk(s: Space, own: Owners, p: int)
    requires Ok(s, own) && p in own && own[p] == Held
    ensures Ok(s.(free := s.free + [p]), own[p := Free])
  {
    assert Look(own);
    var free, own' := s.free + [p], own[p := Free];
    assert free[|s.free|] == p;
    forall q | q in own' && own'[q] == Free
      ensures q in free
    {
      if q != p {
        var i :| 0 <= i < |s.free| && s.free[i] == q;
        assert free[i] == q;
      }
    }
  }

  lemma TableOk(s: Space, own: Owners, d: int, p: int)
    requires Ok(s, own) && p in own && own[p] == Held && d !in s.pde && 0 <= d < 1024
    ensures Ok(s.(pde := s.pde[d := p]), own[p := Table(d)])
  {
    assert Look(own);
  }

  lemma MapOk(s: Space, own: Owners, v: int, p: int)
    requires Ok(s, own) && p in own && own[p] == Held && v !in s.pte && 0 <= v < KERNPAGE && v / 1024 in s.pde
    ensures Ok(s.(pte := s.pte[v := p]), own[p := User(v)])
  {
    assert Look(own);
  }

  lemma UnmapOk(s: Space, own: Owners, v: int)
    requires Ok(s, own) && v in s.pte && v < KERNPAGE
    ensures var p := s.pte[v];
            p in own && own[p] == User(v) && Ok(s.(pte := s.pte - {v}), own[p := Held])
  {
    assert Look(own);
  }

  lemma PageTableOf(s: Space, own: Owners)
    requires Ok(s, own)
    ensures forall v | v in s.pte :: v / 1024 in s.pde
    ensures forall p | p in own :: 0 < p
  {
    assert Look(own);
  }

  // ----- deallocuvm -----

  /** PGROUNDUP, as a page number. */
  function Pages(size: int): int { (size + 4095) / 4096 }

  /** A page lies below it exactly if its first byte is below `size`. */
  lemma PagesExact(size: int, v: int)
    ensures v < Pages(size) <==> v * 4096 < size
  {
  }

  lemma StartsBetween(oldsz: int, newsz: int)
    ensures forall v :: oldsz <= v * 4096 < newsz <==> Pages(oldsz) <= v < Pages(newsz)
  {
    forall v
      ensures oldsz <= v * 4096 < newsz <==> Pages(oldsz) <= v < Pages(newsz)
    {
      PagesExact(oldsz, v);
      PagesExact(newsz, v);
    }
  }

  /** The page of byte `x` starts at or before it; every page that starts below `size` holds a byte below `size`. */
  lemma PageOfByte(x: int, size: int)
    ensures x < size ==> x / 4096 < Pages(size)
    ensures x >= Pages(size) * 4096 ==> x >= size
  {
    PagesExact(size, x / 4096);
  }

  /** Where the scan from page `a` first finds a page table: a missing one moves it on by 1024 pages. */
  function Entry(pde: map<int, int>, a: int, end: int): (e: int)
    ensures a <= e
    decreases end - a
  {
    if a >= end || a / 1024 in pde then a else Entry(pde, a + 1024, end)
  }

  /** The mappings that are left: all but those from the entry point to `end`. */
  ghost predicate Unmapped(s: Space, s': Space, from: int, end: int) {
    && s'.pde == s.pde && s'.dir == s.dir
    && (forall v :: v in s'.pte <==> v in s.pte && !(from <= v < end))
    && (forall v | v in s'.pte :: s'.pte[v] == s.pte[v])
  }

  /** Page `v` is mapped as it was, or not mapped as it was not. */
  predicate SameAt(s: Space, s': Space, v: int) { (v in s'.pte <==> v in s.pte) && (v in s.pte ==> s'.pte[v] == s.pte[v]) }

  /** Every byte from `lo` up to `hi` is in a page that is mapped. */
  ghost predicate BytesMapped(s: Space, lo: int, hi: int) { forall x | lo <= x < hi :: x / 4096 in s.pte }

  /** In bytes: pages with a byte below `newsz`, and those above, keep their mappings; without gaps, the others have none. */
  lemma UnmappedBytes(s: Space, own: Owners, s': Space, oldsz: int, newsz: int)
    requires Ok(s, own) && 0 <= newsz < oldsz && Unmapped(s, s', Entry(s.pde, Pages(newsz), Pages(oldsz)), Pages(oldsz))
    ensures forall x | 0 <= x < newsz :: SameAt(s, s', x / 4096)
    ensures forall v | oldsz <= v * 4096 :: SameAt(s, s', v)
    ensures BytesMapped(s, 0, oldsz) ==> Shrunk(s', newsz, oldsz)
  {
    forall x | 0 <= x < newsz
      ensures SameAt(s, s', x / 4096)
    {
      PageOfByte(x, newsz);
    }
    forall v | oldsz <= v * 4096
      ensures SameAt(s, s', v)
    {
      PagesExact(oldsz, v);
    }
    if BytesMapped(s, 0, oldsz) {
      ContiguousShrinks(s, own, s', oldsz, newsz);
    }
  }

  /** The loop of `deallocuvm`, from page `a0` to `end`. */
  method Unmap(s0: Space, a0: int, end: int, ghost own0: Owners) returns (s: Space, ghost own: Owners)
    requires Ok(s0, own0) && 0 <= a0 && end <= KERNPAGE
    ensures Ok(s, own) && SamePages(own0, own) && Unmapped(s0, s, Entry(s0.pde, a0, end), end)
  {
    s, own := s0, own0;
    PageTableOf(s0, own0);
    var a := a0;
    ghost var e := Entry(s0.pde, a, end);
    while a < end
      invariant Ok(s, own) && SamePages(own0, own) && 0 <= a
      invariant a <= e ==> s == s0 && Entry(s0.pde, a, end) == e
      invariant a > e ==> (a % 1024 == 0 || a / 1024 in s0.pde) && Unmapped(s0, s, e, if a < end then a else end)
      decreases end - a
    {
      if a / 1024 !in s.pde {
        assert a >= e ==> forall v | a <= v < a + 1024 :: v / 1024 == a / 1024;
        a := a + 1023;
      } else if a in s.pte {
        var p := s.pte[a];
        UnmapOk(s, own, a);
        s, own := s.(pte := s.pte - {a}), own[p := Held];
        PushOk(s, own, p);
        s, own := s.(free := s.free + [p]), own[p := Free];
      }
      a := a + 1;
    }
  }

  method DeallocUvm(s0: Space, oldsz: int, newsz: int, ghost own0: Owners) returns (s: Space, r: int, ghost own: Owners)
    requires Ok(s0, own0) && 0 <= newsz && oldsz <= KERNPAGE * 4096
    ensures Ok(s, own) && SamePages(own0, own)
    ensures newsz >= oldsz ==> r == oldsz && s == s0
    ensures newsz < oldsz ==> r == newsz && Unmapped(s0, s, Entry(s0.pde, Pages(newsz), Pages(oldsz)), Pages(oldsz))
    ensures newsz < oldsz ==> (forall x | 0 <= x < newsz :: SameAt(s0, s, x / 4096)) && forall v | oldsz <= v * 4096 :: SameAt(s0, s, v)
    ensures newsz < oldsz && BytesMapped(s0, 0, oldsz) ==> Shrunk(s, newsz, oldsz)
  {
    s, own := s0, own0;
    if newsz >= oldsz {
      return s, oldsz, own;
    }
    s, own := Unmap(s0, Pages(newsz), Pages(oldsz), own0);
    UnmappedBytes(s0, own0, s, oldsz, newsz);
    r := newsz;
  }

  /** No page that starts at or above `newsz` and below `oldsz` is mapped. */
  ghost predicate Shrunk(s: Space, newsz: int, oldsz: int) {
    forall v | v in s.pte :: !(newsz <= v * 4096 < oldsz)
  }

  /** Pages the scan jumps over: they lie in the first table found, below the offset the scan started at. */
  lemma {:induction false} JumpedOver(s: Space, own: Owners, a: int, end: int, v: int)
    requires Ok(s, own) && 0 <= a && v in s.pte && a <= v < Entry(s.pde, a, end) && v < end
    ensures a % 1024 != 0 && a / 1024 !in s.pde && v % 1024 < a % 1024 && v / 1024 > a / 1024
    ensures forall d | a / 1024 <= d < v / 1024 :: d !in s.pde
    decreases end - a
  {
    PageTableOf(s, own);
    if v >= a + 1024 {
      JumpedOver(s, own, a + 1024, end, v);
    }
  }

  /** A scan that starts at a table boundary, or where there is a table, jumps over nothing. */
  lemma NothingJumped(s: Space, own: Owners, a: int, end: int, v: int)
    requires Ok(s, own) && 0 <= a && v in s.pte && v < end && (a % 1024 == 0 || a / 1024 in s.pde)
    ensures !(a <= v < Entry(s.pde, a, end))
  {
    if a <= v < Entry(s.pde, a, end) {
      JumpedOver(s, own, a, end, v);
    }
  }

  /** A mapping the scan from page `a` to `end` will jump over. */
  ghost predicate LeftBehind(s: Space, a: int, end: int, v: int) {
    && v in s.pte && a <= v < end && a % 1024 != 0 && v % 1024 < a % 1024
    && forall d | a / 1024 <= d < v / 1024 :: d !in s.pde
  }

  lemma {:induction false} JumpsOver(s: Space, own: Owners, a: int, end: int, v: int)
    requires Ok(s, own) && 0 <= a && LeftBehind(s, a, end, v)
    ensures v < Entry(s.pde, a, end)
    decreases end - a
  {
    PageTableOf(s, own);
    assert v / 1024 > a / 1024;
    if v >= a + 1024 {
      JumpsOver(s, own, a + 1024, end, v);
    }
  }

  /**
    `deallocuvm` leaves nothing mapped from `newsz` to `oldsz` exactly when no
    mapping lies in the first page table after a missing one, below the offset
    of `newsz` in its own (missing) table.
   */
  lemma ShrinksIff(s: Space, own: Owners, s': Space, oldsz: int, newsz: int)
    requires Ok(s, own) && 0 <= newsz < oldsz && Unmapped(s, s', Entry(s.pde, Pages(newsz), Pages(oldsz)), Pages(oldsz))
    ensures Shrunk(s', newsz, oldsz) <==> forall v :: !LeftBehind(s, Pages(newsz), Pages(oldsz), v)
  {
    var a, end := Pages(newsz), Pages(oldsz);
    forall v
      ensures LeftBehind(s, a, end, v) <==> v in s.pte && a <= v < Entry(s.pde, a, end) && v < end
    {
      if LeftBehind(s, a, end, v) {
        JumpsOver(s, own, a, end, v);
      }
      if v in s.pte && a <= v < Entry(s.pde, a, end) && v < end {
        JumpedOver(s, own, a, end, v);
      }
    }
    StartsBetween(newsz, oldsz);
  }

  /** Page 1024 alone is mapped: shrinking to one page leaves it mapped, for want of a table for page 1. */
  lemma HoleLeavesPage(s': Space)
    requires var s := Space([], 1, map[1 := 2], map[1024 := 3]);
             Unmapped(s, s', Entry(s.pde, Pages(4096), Pages(1025 * 4096)), Pages(1025 * 4096))
    ensures Ok(Space([], 1, map[1 := 2], map[1024 := 3]), map[1 := Dir, 2 := Table(1), 3 := User(1024)])
    ensures 1024 in s'.pte && !Shrunk(s', 4096, 1025 * 4096)
  {
    var s := Space([], 1, map[1 := 2], map[1024 := 3]);
    assert LeftBehind(s, Pages(4096), Pages(1025 * 4096), 1024);
    JumpsOver(s, map[1 := Dir, 2 := Table(1), 3 := User(1024)], Pages(4096), Pages(1025 * 4096), 1024);
  }

  /** Memory mapped without gaps, page by page. */
  lemma WithoutGaps(s: Space, size: int)
    ensures BytesMapped(s, 0, size) <==> forall v | 0 <= v < Pages(size) :: v in s.pte
  {
    if BytesMapped(s, 0, size) {
      forall v | 0 <= v < Pages(size)
        ensures v in s.pte
      {
        PagesExact(size, v);
        assert v * 4096 / 4096 in s.pte;
      }
    }
    forall x | 0 <= x < size
      ensures 0 <= x / 4096 < Pages(size)
    {
      PageOfByte(x, size);
    }
  }

  lemma ContiguousShrinks(s: Space, own: Owners, s': Space, oldsz: int, newsz: int)
    requires Ok(s, own) && 0 <= newsz < oldsz && Unmapped(s, s', Entry(s.pde, Pages(newsz), Pages(oldsz)), Pages(oldsz))
    requires BytesMapped(s, 0, oldsz)
    ensures Shrunk(s', newsz, oldsz)
  {
    PageTableOf(s, own);
    WithoutGaps(s, oldsz);
    assert Pages(newsz) < Pages(oldsz) ==> Pages(newsz) in s.pte;
    ShrinksIff(s, own, s', oldsz, newsz);
  }

  /** Shrinking memory without gaps leaves memory without gaps. */
  lemma ContiguousAfterShrink(s: Space, own: Owners, s': Space, oldsz: int, newsz: int)
    requires Ok(s, own) && 0 <= newsz < oldsz && Unmapped(s, s', Entry(s.pde, Pages(newsz), Pages(oldsz)), Pages(oldsz))
    requires BytesMapped(s, 0, oldsz)
    ensures BytesMapped(s', 0, newsz)
  {
    UnmappedBytes(s, own, s', oldsz, newsz);
    forall x | 0 <= x < newsz
      ensures x / 4096 in s'.pte
    {
      assert x / 4096 in s.pte && SameAt(s, s', x / 4096);
    }
  }

  // ----- allocuvm -----

  /** Free pages it takes to map pages `a` to `end`: one each, and one for each table missing. */
  function Need(tables: set<int>, a: int, end: int): (n: int)
    ensures n >= 0
    decreases end - a
  {
    if a >= end then 0
    else (if a / 1024 in tables then 1 else 2) + Need(tables + {a / 1024}, a + 1, end)
  }

  /** Page tables that pages `a` to `end` would be in and that are not there. */
  ghost function Missing(tables: set<int>, a: int, end: int): set<int> {
    set v | a <= v < end && v / 1024 !in tables :: v / 1024
  }

  lemma MissingNext(tables: set<int>, a: int, end: int, d: int)
    requires a < end
    ensures d in Missing(tables, a, end) <==> d in Missing(tables + {a / 1024}, a + 1, end) || (d == a / 1024 && d !in tables)
  {
    if d in Missing(tables, a, end) && d != a / 1024 {
      var v :| a <= v < end && v / 1024 !in tables && v / 1024 == d;
      assert a + 1 <= v && v / 1024 !in tables + {a / 1024};
    }
    if d in Missing(tables + {a / 1024}, a + 1, end) {
      var v :| a + 1 <= v < end && v / 1024 !in tables + {a / 1024} && v / 1024 == d;
      assert a <= v;
    }
  }

  lemma {:induction false} NeedExact(tables: set<int>, a: int, end: int)
    requires a <= end
    ensures Need(tables, a, end) == end - a + |Missing(tables, a, end)|
    decreases end - a
  {
    if a < end {
      NeedExact(tables + {a / 1024}, a + 1, end);
      forall d {
        MissingNext(tables, a, end, d);
      }
      var later := Missing(tables + {a / 1024}, a + 1, end);
      assert a / 1024 !in later;
      assert Missing(tables, a, end) == later + if a / 1024 in tables then {} else {a / 1024};
    }
  }

  /** `walkpgdir` with `alloc` set: make sure page `v` has a page table. */
  method WalkPgdir(s0: Space, v: int, ghost own0: Owners) returns (s: Space, found: bool, ghost own: Owners)
    requires Ok(s0, own0) && 0 <= v < KERNPAGE
    ensures Ok(s, own) && SamePages(own0, own) && s.dir == s0.dir && s.pte == s0.pte
    ensures found <==> v / 1024 in s0.pde || s0.free != []
    ensures !found ==> s == s0
    ensures found ==> s.pde.Keys == s0.pde.Keys + {v / 1024} && (forall d | d in s0.pde :: s.pde[d] == s0.pde[d])
    ensures found ==> |s.free| == |s0.free| - if v / 1024 in s0.pde then 0 else 1
    ensures forall p | p in own0 && own0[p] == Held :: p in own && own[p] == Held
  {
    s, own := s0, own0;
    if v / 1024 in s.pde {
      return s, true, own;
    }
    if s.free == [] {
      return s, false, own;
    }
    var pgtab := s.free[|s.free| - 1];
    PopOk(s, own);
    s, own := s.(free := s.free[..|s.free| - 1]), own[pgtab := Held];
    TableOk(s, own, v / 1024, pgtab);
    s, own := s.(pde := s.pde[v / 1024 := pgtab]), own[pgtab := Table(v / 1024)];
    found := true;
  }

  /** Pages `a` to `end` are mapped besides what was; no mapping or table that was there changed. */
  ghost predicate Mapped(s: Space, s': Space, a: int, end: int) {
    && s'.dir == s.dir && (forall v :: v in s'.pte <==> v in s.pte || a <= v < end)
    && (forall v | v in s.pte :: s'.pte[v] == s.pte[v])
    && s.pde.Keys <= s'.pde.Keys && (forall d | d in s.pde :: s'.pde[d] == s.pde[d])
  }

  /**
    Growing memory without gaps leaves memory without gaps. With
    `ContiguousAfterShrink`: exec, which grows from nothing, and growproc never
    make a space that `deallocuvm` shrinks only in part.
   */
  lemma ContiguousAfterGrow(s: Space, s': Space, oldsz: int, newsz: int)
    requires 0 <= oldsz <= newsz && BytesMapped(s, 0, oldsz) && Mapped(s, s', Pages(oldsz), Pages(newsz))
    ensures BytesMapped(s', 0, newsz)
  {
    WithoutGaps(s, oldsz);
    WithoutGaps(s', newsz);
  }

  /**
    In bytes: if the last byte there was is in a page that is mapped, so is
    every new one; and no other page is, with or without that.
   */
  lemma MappedBytes(s: Space, s': Space, oldsz: int, newsz: int)
    requires 0 <= oldsz <= newsz && Mapped(s, s', Pages(oldsz), Pages(newsz))
    ensures oldsz == 0 || (oldsz - 1) / 4096 in s.pte ==> BytesMapped(s', oldsz, newsz)
    ensures forall v | newsz <= v * 4096 || v * 4096 < oldsz :: SameAt(s, s', v)
  {
    forall x | oldsz <= x < newsz && (oldsz == 0 || (oldsz - 1) / 4096 in s.pte)
      ensures x / 4096 in s'.pte
    {
      PageOfByte(x, newsz);
      if x / 4096 < Pages(oldsz) {
        PagesExact(oldsz, x / 4096);
        assert x / 4096 == (oldsz - 1) / 4096;
      }
    }
    forall v | newsz <= v * 4096 || v * 4096 < oldsz
      ensures SameAt(s, s', v)
    {
      PagesExact(oldsz, v);
      PagesExact(newsz, v);
    }
  }

  lemma MappedNext(s0: Space, s: Space, a0: int, a: int, s1: Space, p: int)
    requires Mapped(s0, s, a0, a) && a0 <= a && s1.dir == s.dir && s1.pte == s.pte && a !in s0.pte
    requires s.pde.Keys <= s1.pde.Keys && (forall d | d in s.pde :: s1.pde[d] == s.pde[d])
    ensures Mapped(s0, s1.(pte := s1.pte[a := p]), a0, a + 1)
  {
  }

  /** Taking back the pages mapped so far leaves exactly the mappings there were. */
  lemma RolledBack(s0: Space, s: Space, own: Owners, s2: Space, a0: int, a: int, end: int)
    requires Ok(s, own) && Mapped(s0, s, a0, a) && 0 <= a0 <= a < end
    requires forall v | a0 <= v < end :: v !in s0.pte
    requires Unmapped(s, s2, Entry(s.pde, a0, end), end)
    ensures s2.pte == s0.pte && Mapped(s0, s2, a0, a0)
  {
    PageTableOf(s, own);
    if a > a0 {
      assert a0 in s.pte && a0 / 1024 in s.pde;
      assert Entry(s.pde, a0, end) == a0;
    }
    assert forall v :: v in s2.pte <==> v in s0.pte;
    assert forall v | v in s0.pte :: s2.pte[v] == s.pte[v] && s.pte[v] == s0.pte[v];
    assert s2.pte == s0.pte;
  }

  /** Map page `a` to a new zeroed page; on failure say whether a page is left in the caller's hands. */
  method GrowOne(s0: Space, a: int, ghost own0: Owners) returns (s: Space, ok: bool, mem: int, ghost own: Owners)
    requires Ok(s0, own0) && NoneHeld(own0) && 0 <= a < KERNPAGE && a !in s0.pte
    ensures Ok(s, own) && own.Keys == own0.Keys
    ensures ok <==> |s0.free| >= if a / 1024 in s0.pde then 1 else 2
    ensures ok ==>
              && NoneHeld(own) && s.dir == s0.dir && s.pte == s0.pte[a := mem] && s.pde.Keys == s0.pde.Keys + {a / 1024}
              && (forall d | d in s0.pde :: s.pde[d] == s0.pde[d])
              && |s.free| == |s0.free| - if a / 1024 in s0.pde then 1 else 2
    ensures !ok ==> s.dir == s0.dir && s.pte == s0.pte && s.pde == s0.pde
    ensures !ok && mem == -1 ==> NoneHeld(own)
    ensures !ok && mem != -1 ==> mem in own && own[mem] == Held && forall p | p in own && own[p] == Held :: p == mem
  {
    s, own, mem := s0, own0, -1;
    if s.free == [] {
      return s, false, -1, own;
    }
    mem := s.free[|s.free| - 1];
    PopOk(s, own);
    PageTableOf(s, own);
    s, own := s.(free := s.free[..|s.free| - 1]), own[mem := Held];
    var found;
    s, found, own := WalkPgdir(s, a, own);
    if !found {
      return s, false, mem, own;
    }
    MapOk(s, own, a, mem);
    s, own := s.(pte := s.pte[a := mem]), own[mem := User(a)];
    ok := true;
  }

  /** The failing path: take back the pages mapped so far and the page `mem` still in hand, if any. */
  method RollBack(s1: Space, mem: int, oldsz: int, newsz: int, ghost s0: Space, ghost a: int, ghost own1: Owners)
    returns (s: Space, ghost own: Owners)
    requires Ok(s1, own1) && 0 <= oldsz <= newsz < KERNPAGE * 4096 && Pages(oldsz) <= a < Pages(newsz)
    requires Mapped(s0, s1, Pages(oldsz), a) && forall v | Pages(oldsz) <= v < Pages(newsz) :: v !in s0.pte
    requires mem == -1 ==> NoneHeld(own1)
    requires mem != -1 ==> mem in own1 && own1[mem] == Held && forall p | p in own1 && own1[p] == Held :: p == mem
    ensures Ok(s, own) && NoneHeld(own) && own.Keys == own1.Keys
    ensures s.pte == s0.pte && Mapped(s0, s, Pages(oldsz), Pages(oldsz))
  {
    var r;
    s, r, own := DeallocUvm(s1, newsz, oldsz, own1);
    RolledBack(s0, s1, own1, s, Pages(oldsz), a, Pages(newsz));
    if mem != -1 {
      PushOk(s, own, mem);
      s, own := s.(free := s.free + [mem]), own[mem := Free];
    }
  }

  /** The loop of `allocuvm`; the sizes are for the failing path. */
  method MapPages(s0: Space, oldsz: int, newsz: int, ghost own0: Owners) returns (s: Space, ok: bool, ghost own: Owners)
    requires Ok(s0, own0) && NoneHeld(own0) && 0 <= oldsz <= newsz < KERNPAGE * 4096
    requires forall v | Pages(oldsz) <= v < Pages(newsz) :: v !in s0.pte
    ensures Ok(s, own) && NoneHeld(own) && own.Keys == own0.Keys
    ensures ok <==> Need(s0.pde.Keys, Pages(oldsz), Pages(newsz)) <= |s0.free|
    ensures if ok then Mapped(s0, s, Pages(oldsz), Pages(newsz)) else s.pte == s0.pte && Mapped(s0, s, Pages(oldsz), Pages(oldsz))
  {
    s, own := s0, own0;
    var a, end := Pages(oldsz), Pages(newsz);
    ghost var a0 := a;
    while a < end
      invariant a0 <= a <= end && Ok(s, own) && NoneHeld(own) && own.Keys == own0.Keys && Mapped(s0, s, a0, a)
      invariant Need(s.pde.Keys, a, end) - |s.free| == Need(s0.pde.Keys, a0, end) - |s0.free|
    {
      ghost var s1 := s;
      var mem;
      s, ok, mem, own := GrowOne(s, a, own);
      if !ok {
        s, own := RollBack(s, mem, oldsz, newsz, s0, a, own);
        return;
      }
      MappedNext(s0, s1, a0, a, s.(pte := s1.pte), mem);
      assert s == s.(pte := s1.pte).(pte := s1.pte[a := mem]);
      a := a + 1;
    }
    ok := true;
  }

  /**
    Grow from `oldsz` to `newsz`. It succeeds exactly when the free list has a
    page for each page to map and for each table missing; otherwise every user
    page goes back and no mapping has changed. New page tables stay.
   */
  method AllocUvm(s0: Space, oldsz: int, newsz: int, ghost own0: Owners) returns (s: Space, r: int, ghost own: Owners)
    requires Ok(s0, own0) && NoneHeld(own0) && 0 <= oldsz && 0 <= newsz
    requires newsz < KERNPAGE * 4096 ==> forall v | oldsz <= v * 4096 < newsz :: v !in s0.pte
    ensures Ok(s, own) && NoneHeld(own) && own.Keys == own0.Keys
    ensures newsz >= KERNPAGE * 4096 ==> r == 0 && s == s0
    ensures newsz < KERNPAGE * 4096 && newsz < oldsz ==> r == oldsz && s == s0
    ensures newsz < KERNPAGE * 4096 && newsz >= oldsz ==>
              if Need(s0.pde.Keys, Pages(oldsz), Pages(newsz)) <= |s0.free|
              then r == newsz && Mapped(s0, s, Pages(oldsz), Pages(newsz))
              else r == 0 && s.pte == s0.pte && Mapped(s0, s, Pages(oldsz), Pages(oldsz))
    ensures r == newsz >= oldsz && r > 0 ==>
              && (oldsz == 0 || (oldsz - 1) / 4096 in s0.pte ==> BytesMapped(s, oldsz, newsz))
              && forall v | newsz <= v * 4096 || v * 4096 < oldsz :: SameAt(s0, s, v)
  {
    s, own := s0, own0;
    if newsz >= KERNPAGE * 4096 {
      return s, 0, own;
    }
    if newsz < oldsz {
      return s, oldsz, own;
    }
    StartsBetween(oldsz, newsz);
    var ok;
    s, ok, own := MapPages(s0, oldsz, newsz, own0);
    if !ok {
      return s, 0, own;
    }
    MappedBytes(s0, s, oldsz, newsz);
    r := newsz;
  }

  // ----- freevm -----

  /** User memory is gone and so are the tables below slot `i`. */
  ghost predicate Emptied(free: seq<int>, dir: int, pde: map<int, int>, i: int, own: Owners) {
    && FreeOk(free, own)
    && (forall d | d in pde && i <= d :: d < 1024 && pde[d] in own && own[pde[d]] == Table(d))
    && (forall p | p in own && own[p] != Free :: (own[p].Table? && own[p].d in pde && i <= own[p].d && pde[own[p].d] == p) || p == dir)
    && dir in own && own[dir] == Dir
  }

  lemma PushFree(free: seq<int>, own: Owners, p: int)
    requires FreeOk(free, own) && p in own && own[p] != Free
    ensures FreeOk(free + [p], own[p := Free])
  {
    assert (free + [p])[|free|] == p;
    forall q | q in own[p := Free] && own[p := Free][q] == Free
      ensures q in free + [p]
    {
    }
  }

  lemma EmptiedNext(free: seq<int>, dir: int, pde: map<int, int>, i: int, own: Owners)
    requires Emptied(free, dir, pde, i, own)
    ensures i !in pde ==> Emptied(free, dir, pde, i + 1, own)
    ensures i in pde ==> pde[i] in own && Emptied(free + [pde[i]], dir, pde, i + 1, own[pde[i] := Free])
  {
    if i in pde {
      PushFree(free, own, pde[i]);
    }
  }

  lemma AllUserGone(s0: Space, own0: Owners, s: Space, own: Owners)
    requires Ok(s0, own0) && Ok(s, own) && NoneHeld(own) && Unmapped(s0, s, Entry(s0.pde, 0, KERNPAGE), KERNPAGE)
    ensures Emptied(s.free, s.dir, s.pde, 0, own)
  {
    assert Look(own);
    forall v | v in s.pte
      ensures v >= KERNPAGE || v < 0
    {
      if 0 <= v < KERNPAGE {
        NothingJumped(s0, own0, 0, KERNPAGE, v);
      }
    }
  }

  /** Every user page, page table and the directory itself goes back, once; kernel mappings' targets do not. */
  method FreeVm(s0: Space, ghost own0: Owners) returns (free: seq<int>, ghost own: Owners)
    requires Ok(s0, own0) && NoneHeld(own0)
    ensures own.Keys == own0.Keys && (forall p | p in own :: own[p] == Free) && FreeOk(free, own)
  {
    var s, r;
    s, r, own := DeallocUvm(s0, KERNPAGE * 4096, 0, own0);
    AllUserGone(s0, own0, s, own);
    free := s.free;
    var i := 0;
    while i < 1024
      invariant 0 <= i <= 1024 && Emptied(free, s.dir, s.pde, i, own) && own.Keys == own0.Keys
    {
      EmptiedNext(free, s.dir, s.pde, i, own);
      if i in s.pde {
        free, own := free + [s.pde[i]], own[s.pde[i] := Free];
      }
      i := i + 1;
    }
    PushFree(free, own, s.dir);
    free, own := free + [s.dir], own[s.dir := Free];
  }
}
