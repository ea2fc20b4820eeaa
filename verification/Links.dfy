/**
  Link counts: link, unlink, create and iput (sysfile.c:117-283, fs.c:186-204,
  319-334, 510-564), interleaved in any way. `link` raises the count, lets go of
  the inode, and only then writes the entry or takes the count back, so counts are
  compared with the entries and the links under way. `iput` of the last reference
  to an inode without links drops the cache's lock, frees the inode on disk
  without locking it, and only then gives the entry up: three steps, with
  anything in between.

  Names are path elements, at most 14 characters as `skipelem` leaves them.
 */
module Links {

  const ROOT := 1

  datatype Kind = FILE | DIR | DEV

  /** A free entry has inode number 0. */
  datatype Dirent = Dirent(inum: int, name: string)

  datatype Inode = Inode(kind: Kind, nlink: int, ents: seq<Dirent>)

  /**
    `inodes` are those allocated on disk. `refs` counts references to cached
    inodes, and `valid` are the cached ones that have been read in; `linking`
    counts the calls of link between their two halves. `freeing` are those whose
    last iput has dropped the cache's lock and not yet got it back; once erased
    from `inodes`, the cached copy is valid and has type 0.
   */
  datatype FS = FS(inodes: map<int, Inode>, refs: multiset<int>, linking: multiset<int>, valid: set<int>, freeing: set<int>)

  // ----- directory loops -----

  predicate Named(ents: seq<Dirent>, name: string, k: int) {
    0 <= k < |ents| && ents[k].inum != 0 && ents[k].name == name
  }

  /** `dirlookup`: the first entry with this name, or -1. */
  method DirLookup(ents: seq<Dirent>, name: string) returns (k: int)
    ensures k == Find(ents, name, 0)
    ensures k == -1 ==> forall j :: !Named(ents, name, j)
    ensures k != -1 ==> Named(ents, name, k) && forall j | 0 <= j < k :: !Named(ents, name, j)
  {
    k := 0;
    while k < |ents|
      invariant 0 <= k <= |ents| && Find(ents, name, 0) == Find(ents, name, k)
      invariant forall j | 0 <= j < k :: !Named(ents, name, j)
    {
      if ents[k].inum != 0 && ents[k].name == name {
        return;
      }
      k := k + 1;
    }
    k := -1;
  }

  function Find(ents: seq<Dirent>, name: string, from: nat): (k: int)
    ensures k == -1 || (from <= k && Named(ents, name, k))
    decreases |ents| - from
  {
    if from >= |ents| then -1 else if Named(ents, name, from) then from else Find(ents, name, from + 1)
  }

  lemma {:induction false} FindFirst(ents: seq<Dirent>, name: string, from: nat)
    ensures var k := Find(ents, name, from);
            if k == -1 then forall j | from <= j :: !Named(ents, name, j) else forall j | from <= j < k :: !Named(ents, name, j)
    decreases |ents| - from
  {
    if from < |ents| && !Named(ents, name, from) {
      FindFirst(ents, name, from + 1);
    }
  }

  /** The inode a name leads to, 0 if none. */
  function Leads(ents: seq<Dirent>, name: string): int {
    var k := Find(ents, name, 0);
    if k == -1 then 0 else ents[k].inum
  }

  /** A name that one slot has, or no slot has, leads there. */
  lemma LeadsExact(ents: seq<Dirent>, name: string)
    ensures Leads(ents, name) == 0 <==> forall j :: !Named(ents, name, j)
    ensures Leads(ents, name) != 0 ==> exists j :: Named(ents, name, j) && ents[j].inum == Leads(ents, name)
  {
    FindFirst(ents, name, 0);
  }

  /** No name twice. */
  ghost predicate OneName(ents: seq<Dirent>) {
    forall name, j, k | Named(ents, name, j) && Named(ents, name, k) :: j == k
  }

  /** A slot that `name` has not, changed to something `name` has not: it leads where it led. */
  lemma LeadsSame(ents: seq<Dirent>, ents': seq<Dirent>, name: string, k: int)
    requires forall j | j != k :: Named(ents', name, j) <==> Named(ents, name, j)
    requires forall j | j != k && Named(ents, name, j) :: j < |ents'| && ents'[j].inum == ents[j].inum
    requires !Named(ents, name, k) && !Named(ents', name, k)
    ensures Leads(ents', name) == Leads(ents, name)
  {
    FindFirst(ents, name, 0);
    FindFirst(ents', name, 0);
    var a, b := Find(ents, name, 0), Find(ents', name, 0);
    if a != -1 {
      assert Named(ents', name, a);
    }
    if b != -1 {
      assert Named(ents, name, b);
    }
  }

  function FreeSlot(ents: seq<Dirent>, from: nat): (k: nat)
    requires from <= |ents|
    ensures from <= k <= |ents| && (k < |ents| ==> ents[k].inum == 0)
    decreases |ents| - from
  {
    if from == |ents| || ents[from].inum == 0 then from else FreeSlot(ents, from + 1)
  }

  /** The entry goes into the first free slot, or at the end. */
  function Added(ents: seq<Dirent>, e: Dirent): seq<Dirent> {
    var k := FreeSlot(ents, 0);
    if k == |ents| then ents + [e] else ents[k := e]
  }

  /** A new name leads to its inode; no other name leads anywhere else than before. */
  lemma AddedLeads(ents: seq<Dirent>, e: Dirent)
    requires Find(ents, e.name, 0) == -1 && e.inum != 0
    ensures Leads(Added(ents, e), e.name) == e.inum
    ensures forall x | x != e.name :: Leads(Added(ents, e), x) == Leads(ents, x)
  {
    var k, ents' := FreeSlot(ents, 0), Added(ents, e);
    FindFirst(ents, e.name, 0);
    FindFirst(ents', e.name, 0);
    assert Named(ents', e.name, k) && forall j | j != k :: Named(ents', e.name, j) ==> Named(ents, e.name, j);
    forall x | x != e.name
      ensures Leads(ents', x) == Leads(ents, x)
    {
      LeadsSame(ents, ents', x, k);
    }
  }

  lemma AddedOne(ents: seq<Dirent>, e: Dirent)
    requires Find(ents, e.name, 0) == -1 && OneName(ents)
    ensures OneName(Added(ents, e))
  {
    var k, ents' := FreeSlot(ents, 0), Added(ents, e);
    FindFirst(ents, e.name, 0);
    forall x, i, j | Named(ents', x, i) && Named(ents', x, j)
      ensures i == j
    {
      assert i != k ==> Named(ents, x, i);
      assert j != k ==> Named(ents, x, j);
    }
  }

  /** A cleared slot: its name leads nowhere, if no other has it; no other name is touched. */
  lemma ClearedLeads(ents: seq<Dirent>, name: string, k: int)
    requires Named(ents, name, k) && OneName(ents)
    ensures var ents' := ents[k := Dirent(0, "")];
            Leads(ents', name) == 0 && OneName(ents') && forall x | x != name :: Leads(ents', x) == Leads(ents, x)
  {
    var ents' := ents[k := Dirent(0, "")];
    forall x, j | Named(ents', x, j)
      ensures j != k && Named(ents, x, j)
    {
    }
    LeadsExact(ents', name);
    forall x | x != name
      ensures Leads(ents', x) == Leads(ents, x)
    {
      LeadsSame(ents, ents', x, k);
    }
  }

  /** Slot `k` is free, or the end, and none before it is free. */
  predicate FirstFree(ents: seq<Dirent>, k: int) {
    0 <= k <= |ents| && (k < |ents| ==> ents[k].inum == 0) && forall j | 0 <= j < k :: ents[j].inum != 0
  }

  /** `dirlink`: refused if the name is there. */
  method DirLink(ents: seq<Dirent>, name: string, inum: int) returns (r: int, ents': seq<Dirent>)
    ensures r == (if Find(ents, name, 0) != -1 then -1 else 0)
    ensures ents' == if r == 0 then Added(ents, Dirent(inum, name)) else ents
    ensures r == -1 <==> Leads(ents, name) != 0
    ensures r == 0 ==> exists k :: 0 <= k <= |ents| && FirstFree(ents, k)
                         && ents' == if k == |ents| then ents + [Dirent(inum, name)] else ents[k := Dirent(inum, name)]
    ensures r == 0 && inum != 0 ==> Leads(ents', name) == inum && forall x | x != name :: Leads(ents', x) == Leads(ents, x)
  {
    if Find(ents, name, 0) == -1 && inum != 0 {
      AddedLeads(ents, Dirent(inum, name));
    }
    ents' := ents;
    var k := DirLookup(ents, name);
    if k != -1 {
      return -1, ents';
    }
    var off := 0;
    while off < |ents| && ents[off].inum != 0
      invariant 0 <= off <= |ents| && FreeSlot(ents, 0) == FreeSlot(ents, off)
      invariant forall j | 0 <= j < off :: ents[j].inum != 0
    {
      off := off + 1;
    }
    ents' := if off == |ents| then ents + [Dirent(inum, name)] else ents[off := Dirent(inum, name)];
    assert FirstFree(ents, off);
    r := 0;
  }

  /** Nothing but the first two entries. */
  predicate Bare(ents: seq<Dirent>) { forall k | 2 <= k < |ents| :: ents[k].inum == 0 }

  method IsDirEmpty(ents: seq<Dirent>) returns (empty: bool)
    ensures empty <==> Bare(ents)
  {
    var off := 2;
    while off < |ents|
      invariant 2 <= off && forall k | 2 <= k < off && k < |ents| :: ents[k].inum == 0
    {
      if ents[off].inum != 0 {
        return false;
      }
      off := off + 1;
    }
    empty := true;
  }

  // ----- the system calls -----

  datatype Slot = Slot(d: int, k: int)

  datatype Step =
    | Create(dp: int, name: string, kind: Kind, inum: int)
    | Unlink(dp: int, name: string)
    | LinkBegin(ip: int)
    | LinkEnd(ip: int, dp: int, name: string)
    | Iget(ip: int)
    | Ilock(ip: int)
    | Iput(ip: int)
    | Erase(ip: int)
    | IputEnd(ip: int)

  predicate IsDir(s: FS, d: int) { d in s.inodes && s.inodes[d].kind.DIR? }

  function SetEnts(s: FS, d: int, ents: seq<Dirent>): FS
    requires d in s.inodes
  {
    s.(inodes := s.inodes[d := s.inodes[d].(ents := ents)])
  }

  function AddNlink(s: FS, i: int, k: int): FS
    requires i in s.inodes
  {
    s.(inodes := s.inodes[i := s.inodes[i].(nlink := s.inodes[i].nlink + k)])
  }

  /** `ilock` of a cached inode reads it in, if need be. */
  function Locked(s: FS, i: int): FS { if s.refs[i] > 0 then s.(valid := s.valid + {i}) else s }

  /** The first critical section of `iput`: drop the reference, or start to free the inode and keep it for now. */
  function PutDown(s: FS, i: int): FS {
    if i in s.inodes && s.refs[i] == 1 && i in s.valid && s.inodes[i].nlink == 0 then s.(freeing := s.freeing + {i})
    else s.(refs := s.refs - multiset{i}, valid := if s.refs[i] <= 1 then s.valid - {i} else s.valid)
  }

  // ----- who can do what -----

  /** Slot `x` holds an entry for inode `i`. */
  predicate Holds(s: FS, x: Slot, i: int) {
    IsDir(s, x.d) && 0 <= x.k < |s.inodes[x.d].ents| && s.inodes[x.d].ents[x.k].inum == i && i != 0
  }

  /** Some process has a reference that is neither a link's nor being put down. */
  predicate Spare(s: FS, i: int) { s.refs[i] > s.linking[i] + if i in s.freeing then 1 else 0 }

  /** Some process has inode `i`, or can come by it from another directory; ".." is an entry too. */
  ghost predicate Reachable(s: FS, i: int) { i == ROOT || Spare(s, i) || exists x :: Holds(s, x, i) && x.d != i }

  /**
    ialloc asks only the disk whether `inum` is free. link takes what its lookup
    gave it, also a cached copy of type 0; a number that is neither cached nor
    allocated is a panic of ilock.
   */
  ghost predicate Enabled(s: FS, t: Step) {
    match t
    case Create(dp, name, kind, inum) =>
      IsDir(s, dp) && Reachable(s, dp) && Find(s.inodes[dp].ents, name, 0) == -1 && inum != 0 && inum !in s.inodes
    case Unlink(dp, name) =>
      && IsDir(s, dp) && Reachable(s, dp) && name != "." && name != ".."
      && var k := Find(s.inodes[dp].ents, name, 0);
         && k != -1
         && var ip := s.inodes[dp].ents[k].inum;
            ip in s.inodes && (s.inodes[ip].kind.DIR? ==> Bare(s.inodes[ip].ents))
    case LinkBegin(ip) => Reachable(s, ip) && ip != 0 && (ip in s.inodes || ip in s.valid) && !IsDir(s, ip)
    case LinkEnd(ip, dp, name) => s.linking[ip] > 0 && ip in s.inodes
    case Iget(ip) => Reachable(s, ip) && ip != 0
    case Ilock(ip) => Spare(s, ip) && (ip in s.inodes || ip in s.valid)
    case Iput(ip) => Spare(s, ip)
    case Erase(ip) => ip in s.freeing && ip in s.inodes
    case IputEnd(ip) => ip in s.freeing && ip !in s.inodes
  }

  function NewInode(inum: int, dp: int, kind: Kind): Inode {
    Inode(kind, 1, if kind.DIR? then [Dirent(inum, "."), Dirent(dp, "..")] else [])
  }

  function CreateNext(s: FS, dp: int, name: string, kind: Kind, inum: int): FS
    requires dp in s.inodes && inum != dp
  {
    var s1 := s.(inodes := s.inodes[inum := NewInode(inum, dp, kind)], refs := s.refs + multiset{inum}, valid := s.valid + {inum});
    var s2 := if kind.DIR? then AddNlink(s1, dp, 1) else s1;
    Locked(SetEnts(s2, dp, Added(s2.inodes[dp].ents, Dirent(inum, name))), dp)
  }

  /**
    create of a number whose cached copy, of type 0, is still valid: ilock does
    not read it again and iupdate writes type 0 back. A file gets its entry all
    the same; for a directory the parent's count is raised, and the lookup of "."
    panics.
   */
  function CreateOver(s: FS, dp: int, name: string, kind: Kind, inum: int): FS
    requires dp in s.inodes
  {
    var s1 := s.(refs := s.refs + multiset{inum});
    Locked(if kind.DIR? then AddNlink(s1, dp, 1) else SetEnts(s1, dp, Added(s.inodes[dp].ents, Dirent(inum, name))), dp)
  }

  function UnlinkNext(s: FS, dp: int, k: int): FS
    requires dp in s.inodes && 0 <= k < |s.inodes[dp].ents| && s.inodes[dp].ents[k].inum in s.inodes
  {
    PutDown(Opened(Unnamed(s, dp, k), dp, s.inodes[dp].ents[k].inum), s.inodes[dp].ents[k].inum)
  }

  /** The reference and the locks unlink has until then. */
  function Opened(s: FS, dp: int, ip: int): FS {
    Locked(s.(refs := s.refs + multiset{ip}, valid := s.valid + {ip}), dp)
  }

  /** unlink up to its last iput: the entry cleared, the counts taken down. */
  function Unnamed(s: FS, dp: int, k: int): FS
    requires dp in s.inodes && 0 <= k < |s.inodes[dp].ents| && s.inodes[dp].ents[k].inum in s.inodes
  {
    var ip := s.inodes[dp].ents[k].inum;
    var s1 := SetEnts(s, dp, s.inodes[dp].ents[k := Dirent(0, "")]);
    var s2 := if s.inodes[ip].kind.DIR? then AddNlink(s1, dp, -1) else s1;
    AddNlink(s2, ip, -1)
  }

  /** The entry is written if the directory is there and has no such name; else the count is taken back. */
  ghost function LinkEndNext(s: FS, ip: int, dp: int, name: string): FS
    requires ip in s.inodes
  {
    PutDown(LinkDone(s, ip, dp, name), ip)
  }

  ghost function LinkDone(s: FS, ip: int, dp: int, name: string): FS
    requires ip in s.inodes
  {
    var s0 := s.(linking := s.linking - multiset{ip});
    if Enters(s, dp, name) then Locked(SetEnts(s0, dp, Added(s.inodes[dp].ents, Dirent(ip, name))), dp)
    else Locked(AddNlink(s0, ip, -1), ip)
  }

  ghost predicate Enters(s: FS, dp: int, name: string) {
    IsDir(s, dp) && Reachable(s, dp) && Find(s.inodes[dp].ents, name, 0) == -1
  }

  ghost function Next(s: FS, t: Step): FS {
    if !Enabled(s, t) then s else
    match t
    case Create(dp, name, kind, inum) =>
      if inum in s.valid then CreateOver(s, dp, name, kind, inum) else CreateNext(s, dp, name, kind, inum)
    case Unlink(dp, name) => UnlinkNext(s, dp, Find(s.inodes[dp].ents, name, 0))
    case LinkBegin(ip) =>
      var s1 := Locked(s.(linking := s.linking + multiset{ip}, refs := s.refs + multiset{ip}), ip);
      if ip in s.inodes then AddNlink(s1, ip, 1) else s1
    case LinkEnd(ip, dp, name) => LinkEndNext(s, ip, dp, name)
    case Iget(ip) => s.(refs := s.refs + multiset{ip})
    case Ilock(ip) => Locked(s, ip)
    case Iput(ip) => PutDown(s, ip)
    case Erase(ip) => s.(inodes := s.inodes - {ip})
    case IputEnd(ip) => s.(refs := s.refs - multiset{ip}, valid := s.valid - {ip}, freeing := s.freeing - {ip})
  }

  /** The step writes a new entry into `t.dp`. */
  ghost predicate Writes(s: FS, t: Step) {
    Enabled(s, t) && (t.Create? || (t.LinkEnd? && Enters(s, t.dp, t.name)))
  }

  /** No entry goes into a directory that has itself been unlinked. */
  ghost predicate IntoLinked(s: FS, t: Step) { Writes(s, t) ==> s.inodes[t.dp].nlink != 0 }

  /** No create or link takes up an inode whose last iput is still under way. */
  ghost predicate TakesNoneFreed(s: FS, t: Step) {
    Enabled(s, t) ==> (t.Create? ==> t.inum !in s.freeing) && (t.LinkBegin? ==> t.ip !in s.freeing)
  }

  ghost predicate Clean(s: FS, t: Step) { IntoLinked(s, t) && TakesNoneFreed(s, t) }

  // ----- names -----

  /** What `name` leads to in directory `d`. */
  function Lookup(s: FS, d: int, name: string): int { if IsDir(s, d) then Leads(s.inodes[d].ents, name) else 0 }

  ghost predicate NamesOk(s: FS) { forall d | d in s.inodes :: OneName(s.inodes[d].ents) }

  /** Only `name` in directory `dp`, and names in `inum`, lead anywhere else than before. */
  ghost predicate OthersLead(s: FS, s': FS, dp: int, name: string, inum: int) {
    forall d, x | d != inum && (d != dp || x != name) :: Lookup(s', d, x) == Lookup(s, d, x)
  }

  /** Every inode but these two is there as before, with the same entries. */
  ghost predicate OthersListed(s: FS, s': FS, dp: int, inum: int) {
    forall d | d != dp && d != inum ::
      (d in s'.inodes <==> d in s.inodes) && (d in s.inodes ==> s'.inodes[d].kind == s.inodes[d].kind && s'.inodes[d].ents == s.inodes[d].ents)
  }

  /** One directory's entries have changed. */
  lemma LeadElsewhere(s: FS, s': FS, dp: int, name: string, inum: int)
    requires IsDir(s, dp) && IsDir(s', dp) && OthersListed(s, s', dp, inum)
    requires forall x | x != name :: Leads(s'.inodes[dp].ents, x) == Leads(s.inodes[dp].ents, x)
    ensures OthersLead(s, s', dp, name, inum)
  {
  }

  lemma CreateEnts(s: FS, dp: int, name: string, kind: Kind, inum: int)
    requires IsDir(s, dp) && inum !in s.inodes
    ensures var s' := CreateNext(s, dp, name, kind, inum);
            && IsDir(s', dp) && s'.inodes[dp].ents == Added(s.inodes[dp].ents, Dirent(inum, name)) && OthersListed(s, s', dp, inum)
            && (kind.DIR? ==> IsDir(s', inum) && s'.inodes[inum].ents == [Dirent(inum, "."), Dirent(dp, "..")])
    ensures kind != DIR ==>
              var s' := CreateOver(s, dp, name, kind, inum);
              IsDir(s', dp) && s'.inodes[dp].ents == Added(s.inodes[dp].ents, Dirent(inum, name)) && OthersListed(s, s', dp, inum)
  {
  }

  lemma DotsLead(inum: int, dp: int)
    requires inum != 0 && dp != 0
    ensures var dots := [Dirent(inum, "."), Dirent(dp, "..")];
            Leads(dots, ".") == inum && Leads(dots, "..") == dp
  {
    var dots := [Dirent(inum, "."), Dirent(dp, "..")];
    assert Named(dots, ".", 0) && !Named(dots, "..", 0) && Named(dots, "..", 1);
    assert Find(dots, "..", 0) == Find(dots, "..", 1);
  }

  /** After `create` the name leads to the new inode, and in a new directory the dots to it and its parent. */
  lemma CreateLookup(s: FS, dp: int, name: string, kind: Kind, inum: int)
    requires Enabled(s, Create(dp, name, kind, inum)) && !(inum in s.valid && kind.DIR?) && dp != 0
    ensures var s' := Next(s, Create(dp, name, kind, inum));
            && Lookup(s', dp, name) == inum && OthersLead(s, s', dp, name, inum)
            && (kind.DIR? ==> Lookup(s', inum, ".") == inum && Lookup(s', inum, "..") == dp)
  {
    var s' := Next(s, Create(dp, name, kind, inum));
    AddedLeads(s.inodes[dp].ents, Dirent(inum, name));
    CreateEnts(s, dp, name, kind, inum);
    LeadElsewhere(s, s', dp, name, inum);
    DotsLead(inum, dp);
  }

  lemma PutDownKeeps(s: FS, i: int)
    ensures PutDown(s, i).inodes == s.inodes
  {
  }

  lemma LinkEnts(s: FS, ip: int, dp: int, name: string)
    requires ip in s.inodes && Enters(s, dp, name)
    ensures var s' := LinkEndNext(s, ip, dp, name);
            IsDir(s', dp) && s'.inodes[dp].ents == Added(s.inodes[dp].ents, Dirent(ip, name)) && OthersListed(s, s', dp, dp)
  {
    var done := LinkDone(s, ip, dp, name);
    PutDownKeeps(done, ip);
    assert done.inodes == s.inodes[dp := s.inodes[dp].(ents := Added(s.inodes[dp].ents, Dirent(ip, name)))];
  }

  /** After a `link` that writes its entry the name leads to the file. */
  lemma LinkLookup(s: FS, ip: int, dp: int, name: string)
    requires Enabled(s, LinkEnd(ip, dp, name)) && Enters(s, dp, name) && ip != 0
    ensures var s' := Next(s, LinkEnd(ip, dp, name));
            Lookup(s', dp, name) == ip && OthersLead(s, s', dp, name, 0)
  {
    AddedLeads(s.inodes[dp].ents, Dirent(ip, name));
    LinkEnts(s, ip, dp, name);
    LeadElsewhere(s, LinkEndNext(s, ip, dp, name), dp, name, 0);
  }

  lemma UnlinkEnts(s: FS, dp: int, k: int)
    requires IsDir(s, dp) && 0 <= k < |s.inodes[dp].ents| && s.inodes[dp].ents[k].inum in s.inodes
    ensures var s' := UnlinkNext(s, dp, k);
            IsDir(s', dp) && s'.inodes[dp].ents == s.inodes[dp].ents[k := Dirent(0, "")] && OthersListed(s, s', dp, dp)
  {
    var ip, u := s.inodes[dp].ents[k].inum, Unnamed(s, dp, k);
    PutDownKeeps(Opened(u, dp, ip), ip);
    assert Opened(u, dp, ip).inodes == u.inodes;
  }

  /** After `unlink` the name leads nowhere. */
  lemma UnlinkLookup(s: FS, dp: int, name: string)
    requires Enabled(s, Unlink(dp, name)) && NamesOk(s)
    ensures var s' := Next(s, Unlink(dp, name));
            Lookup(s', dp, name) == 0 && OthersLead(s, s', dp, name, 0)
  {
    var k := Find(s.inodes[dp].ents, name, 0);
    ClearedLeads(s.inodes[dp].ents, name, k);
    UnlinkEnts(s, dp, k);
    LeadElsewhere(s, UnlinkNext(s, dp, k), dp, name, 0);
  }

  /** The inodes that are left have the entries they had. */
  ghost predicate Listed(s: FS, s': FS) {
    forall d | d in s'.inodes :: d in s.inodes && s'.inodes[d].kind == s.inodes[d].kind && s'.inodes[d].ents == s.inodes[d].ents
  }

  /** No other step changes an entry, and only erasing takes an inode away. */
  lemma OtherEnts(s: FS, t: Step)
    requires Enabled(s, t) && !Writes(s, t) && !t.Unlink?
    ensures Listed(s, Next(s, t)) && Next(s, t).inodes.Keys == s.inodes.Keys - if t.Erase? then {t.ip} else {}
  {
    if t.LinkEnd? {
      NotEntered(s, t.ip, t.dp, t.name);
    } else if t.Iput? {
      PutDownKeeps(s, t.ip);
    }
  }

  lemma NotEntered(s: FS, ip: int, dp: int, name: string)
    requires ip in s.inodes && !Enters(s, dp, name)
    ensures var s' := LinkEndNext(s, ip, dp, name);
            Listed(s, s') && s'.inodes.Keys == s.inodes.Keys
  {
    var done := LinkDone(s, ip, dp, name);
    PutDownKeeps(done, ip);
    assert done.inodes == s.inodes[ip := s.inodes[ip].(nlink := s.inodes[ip].nlink - 1)];
  }

  /** In every step: no name twice in a directory. */
  lemma NamesStep(s: FS, t: Step)
    requires NamesOk(s)
    ensures NamesOk(Next(s, t))
  {
    if Enabled(s, t) {
      if t.Unlink? {
        var k := Find(s.inodes[t.dp].ents, t.name, 0);
        ClearedLeads(s.inodes[t.dp].ents, t.name, k);
        UnlinkEnts(s, t.dp, k);
      } else if !Writes(s, t) {
        OtherEnts(s, t);
      } else if t.LinkEnd? {
        NamesLink(s, t.ip, t.dp, t.name);
      } else {
        NewNames(s, t.dp, t.name, t.kind, t.inum);
      }
    }
  }

  lemma NamesElsewhere(s: FS, s': FS, dp: int, inum: int)
    requires NamesOk(s) && OthersListed(s, s', dp, inum)
    requires forall d | d in s'.inodes && (d == dp || d == inum) :: OneName(s'.inodes[d].ents)
    ensures NamesOk(s')
  {
  }

  lemma NamesLink(s: FS, ip: int, dp: int, name: string)
    requires NamesOk(s) && ip in s.inodes && Enters(s, dp, name)
    ensures NamesOk(LinkEndNext(s, ip, dp, name))
  {
    LinkEnts(s, ip, dp, name);
    AddedOne(s.inodes[dp].ents, Dirent(ip, name));
    NamesElsewhere(s, LinkEndNext(s, ip, dp, name), dp, dp);
  }

  lemma NewNames(s: FS, dp: int, name: string, kind: Kind, inum: int)
    requires NamesOk(s) && IsDir(s, dp) && inum !in s.inodes && Find(s.inodes[dp].ents, name, 0) == -1
    ensures NamesOk(CreateNext(s, dp, name, kind, inum)) && NamesOk(CreateOver(s, dp, name, kind, inum))
  {
    AddedOne(s.inodes[dp].ents, Dirent(inum, name));
    var s1 := CreateNext(s, dp, name, kind, inum);
    CreateEnts(s, dp, name, kind, inum);
    NewInodeNames(s, dp, name, kind, inum);
    NamesElsewhere(s, s1, dp, inum);
    var s2 := CreateOver(s, dp, name, kind, inum);
    assert s2.inodes.Keys == s.inodes.Keys;
    NamesElsewhere(s, s2, dp, dp);
  }

  lemma NewInodeNames(s: FS, dp: int, name: string, kind: Kind, inum: int)
    requires IsDir(s, dp) && inum !in s.inodes
    ensures CreateNext(s, dp, name, kind, inum).inodes[inum].ents == NewInode(inum, dp, kind).ents
    ensures OneName(NewInode(inum, dp, kind).ents)
  {
  }

  // ----- entries that count -----

  /** It counts as a link: it is not ".", nor ".." of an unlinked directory. */
  predicate Refers(s: FS, x: Slot, i: int) {
    && Holds(s, x, i)
    && var name := s.inodes[x.d].ents[x.k].name;
       name != "." && (name == ".." ==> s.inodes[x.d].nlink != 0)
  }

  ghost function Entries(s: FS, i: int): set<Slot> {
    set d, k | d in s.inodes && 0 <= k < |s.inodes[d].ents| && Refers(s, Slot(d, k), i) :: Slot(d, k)
  }

  lemma InEntries(s: FS, x: Slot, i: int)
    ensures x in Entries(s, i) <==> Refers(s, x, i)
  {
    assert x == Slot(x.d, x.k);
  }

  lemma EntriesSame(s: FS, s': FS, i: int)
    requires forall x :: Refers(s', x, i) <==> Refers(s, x, i)
    ensures Entries(s', i) == Entries(s, i)
  {
    forall x
      ensures x in Entries(s', i) <==> x in Entries(s, i)
    {
      InEntries(s, x, i);
      InEntries(s', x, i);
    }
  }

  lemma EntriesPlus(s: FS, s': FS, i: int, y: Slot)
    requires !Refers(s, y, i) && forall x :: Refers(s', x, i) <==> Refers(s, x, i) || x == y
    ensures |Entries(s', i)| == |Entries(s, i)| + 1
  {
    forall x
      ensures x in Entries(s', i) <==> x in Entries(s, i) + {y}
    {
      InEntries(s, x, i);
      InEntries(s', x, i);
    }
    assert Entries(s', i) == Entries(s, i) + {y};
    InEntries(s, y, i);
  }

  function Nlink(s: FS, i: int): int { if i in s.inodes then s.inodes[i].nlink else 0 }

  /** The count of inode `i` is the entries for it and the links to it under way. */
  ghost predicate CountOk(s: FS, i: int) { i != 0 ==> Nlink(s, i) == |Entries(s, i)| + s.linking[i] }

  // ----- the tree of directories -----

  /** Dots first and only there; nothing else in an unlinked directory; only directories have entries. */
  predicate ShapeOk(s: FS, d: int) {
    && (d in s.inodes ==> d != 0 && (!IsDir(s, d) ==> s.inodes[d].ents == []))
    && (IsDir(s, d) ==>
          var ents := s.inodes[d].ents;
          && |ents| >= 2 && ents[0] == Dirent(d, ".") && ents[1].name == ".." && ents[1].inum != 0
          && (d != ROOT ==> ents[1].inum != d)
          && (forall k | 2 <= k < |ents| :: ents[k].inum != 0 ==> ents[k].name != "." && ents[k].name != "..")
          && (s.inodes[d].nlink == 0 ==> Bare(ents)))
  }

  function ParentOf(s: FS, d: int): int
    requires IsDir(s, d) && ShapeOk(s, d)
  {
    s.inodes[d].ents[1].inum
  }

  /** `x` is a named entry, not a dot, for inode `i`. */
  predicate Names(s: FS, x: Slot, i: int) { Holds(s, x, i) && x.k >= 2 }

  predicate LinkedDir(s: FS, d: int) { IsDir(s, d) && s.inodes[d].nlink != 0 }

  /** A linked directory other than the root is named in its parent, which is linked too. */
  ghost predicate ParentedOk(s: FS, d: int) {
    LinkedDir(s, d) && ShapeOk(s, d) && d != ROOT ==>
      && ParentOf(s, d) != d && LinkedDir(s, ParentOf(s, d))
      && exists x :: Names(s, x, d) && x.d == ParentOf(s, d)
  }

  /** A directory is named once. */
  predicate OnceOk(s: FS, x: Slot, y: Slot, d: int) {
    IsDir(s, d) && Names(s, x, d) && Names(s, y, d) ==> x == y
  }

  ghost predicate TreeOk(s: FS) {
    && LinkedDir(s, ROOT) && ShapeOk(s, ROOT) && ParentOf(s, ROOT) == ROOT && (forall x :: !Names(s, x, ROOT))
    && (forall d :: ShapeOk(s, d))
    && (forall d :: ParentedOk(s, d))
    && (forall x, y, d :: OnceOk(s, x, y, d))
  }

  /** References, read-in copies and iputs under way agree. */
  ghost predicate RefOk(s: FS, i: int) {
    && s.linking[i] + (if i in s.freeing then 1 else 0) <= s.refs[i]
    && (s.linking[i] > 0 ==> i in s.inodes && !IsDir(s, i))
    && (i in s.valid ==> s.refs[i] > 0 && (i in s.inodes || i in s.freeing))
    && (i in s.freeing ==> i in s.valid && Nlink(s, i) == 0)
    && (i in s.inodes && s.inodes[i].nlink == 0 ==> i in s.valid)
  }

  ghost predicate RefsOk(s: FS) { forall i :: RefOk(s, i) }

  ghost predicate Right(s: FS) { (forall i :: CountOk(s, i)) && TreeOk(s) }

  ghost predicate Inv(s: FS) { Right(s) && RefsOk(s) }

  /** An inode without links is named nowhere that counts. */
  lemma NoLinks(s: FS, i: int, x: Slot)
    requires CountOk(s, i) && i != 0 && Nlink(s, i) == 0
    ensures !Refers(s, x, i) && s.linking[i] == 0
  {
    InEntries(s, x, i);
  }

  /** Directories keep their entries and their standing; unlinked ones may go. */
  ghost predicate SameDirs(s: FS, s': FS) {
    && (forall d :: IsDir(s', d) ==>
          IsDir(s, d) && s'.inodes[d].ents == s.inodes[d].ents && (s'.inodes[d].nlink == 0 <==> s.inodes[d].nlink == 0))
    && (forall d :: LinkedDir(s, d) ==> IsDir(s', d))
    && (forall d :: d in s'.inodes && !IsDir(s', d) ==> d != 0 && s'.inodes[d].ents == [])
  }

  lemma TreeKept(s: FS, s': FS)
    requires TreeOk(s) && SameDirs(s, s')
    ensures TreeOk(s')
  {
    forall d
      ensures ShapeOk(s', d)
    {
      assert ShapeOk(s, d) && (IsDir(s', d) ==> IsDir(s, d));
    }
    forall x
      ensures !Names(s', x, ROOT)
    {
      assert !Names(s, x, ROOT) && (IsDir(s', x.d) ==> IsDir(s, x.d));
    }
    forall d
      ensures ParentedOk(s', d)
    {
      assert ParentedOk(s, d) && ShapeOk(s, d) && (IsDir(s', d) ==> IsDir(s, d));
      if LinkedDir(s', d) && d != ROOT {
        assert LinkedDir(s, ParentOf(s, d)) && IsDir(s', ParentOf(s, d));
        var x :| Names(s, x, d) && x.d == ParentOf(s, d);
        assert Names(s', x, d);
      }
    }
    forall x, y, d
      ensures OnceOk(s', x, y, d)
    {
      assert OnceOk(s, x, y, d) && (IsDir(s', d) ==> IsDir(s, d));
      assert (IsDir(s', x.d) ==> IsDir(s, x.d)) && (IsDir(s', y.d) ==> IsDir(s, y.d));
    }
  }

  /** Which slots count does not change with unlinked directories that go, or with counts of files. */
  lemma RefersKept(s: FS, s': FS, x: Slot, i: int)
    requires TreeOk(s) && SameDirs(s, s')
    ensures Refers(s', x, i) <==> Refers(s, x, i)
  {
    assert ShapeOk(s, x.d) && (IsDir(s', x.d) ==> IsDir(s, x.d)) && (LinkedDir(s, x.d) ==> IsDir(s', x.d));
  }

  lemma EntriesKept(s: FS, s': FS, i: int)
    requires TreeOk(s) && SameDirs(s, s')
    ensures Entries(s', i) == Entries(s, i)
  {
    forall x
      ensures Refers(s', x, i) <==> Refers(s, x, i)
    {
      RefersKept(s, s', x, i);
    }
    EntriesSame(s, s', i);
  }

  lemma EraseInv(s: FS, i: int)
    requires Inv(s) && Enabled(s, Erase(i))
    ensures Inv(Next(s, Erase(i)))
  {
    var s' := s.(inodes := s.inodes - {i});
    assert ShapeOk(s, i) && CountOk(s, i) && RefOk(s, i);
    forall d
      ensures d in s'.inodes && !IsDir(s', d) ==> d != 0 && s'.inodes[d].ents == []
    {
      assert ShapeOk(s, d);
    }
    TreeKept(s, s');
    forall j
      ensures CountOk(s', j) && RefOk(s', j)
    {
      assert CountOk(s, j) && RefOk(s, j);
      EntriesKept(s, s', j);
    }
  }

  /** Counts and tree depend on the inodes and the links under way only. */
  lemma RightKept(s: FS, s': FS)
    requires Right(s) && s'.inodes == s.inodes && s'.linking == s.linking
    ensures Right(s')
  {
    forall d
      ensures d in s'.inodes && !IsDir(s', d) ==> d != 0 && s'.inodes[d].ents == []
    {
      assert ShapeOk(s, d);
    }
    TreeKept(s, s');
    forall j
      ensures CountOk(s', j)
    {
      assert CountOk(s, j);
      EntriesKept(s, s', j);
    }
  }

  lemma FilesCounted(s: FS, s': FS, i: int)
    requires Inv(s) && i in s.inodes && !IsDir(s, i)
    requires i in s'.inodes && s'.inodes == s.inodes[i := s.inodes[i].(nlink := s'.inodes[i].nlink)]
    requires s'.inodes[i].nlink + s.linking[i] == s.inodes[i].nlink + s'.linking[i]
    requires forall j | j != i :: s'.linking[j] == s.linking[j]
    ensures Right(s')
  {
    forall d
      ensures d in s'.inodes && !IsDir(s', d) ==> d != 0 && s'.inodes[d].ents == []
    {
      assert ShapeOk(s, d);
    }
    TreeKept(s, s');
    forall j
      ensures CountOk(s', j)
    {
      assert CountOk(s, j);
      EntriesKept(s, s', j);
    }
  }

  // ----- a new entry -----

  /** Where a new entry goes in a directory: not over a dot, not over another entry. */
  lemma NewSlot(s: FS, d: int, name: string)
    requires IsDir(s, d) && ShapeOk(s, d) && Find(s.inodes[d].ents, name, 0) == -1
    ensures 2 <= FreeSlot(s.inodes[d].ents, 0) && name != "." && name != ".."
  {
    var ents := s.inodes[d].ents;
    assert Named(ents, ".", 0) && Named(ents, "..", 1);
    assert FreeSlot(ents, 0) != 0 && FreeSlot(ents, 0) != 1;
    FindFinds(ents, ".", 0, 0);
    FindFinds(ents, "..", 0, 1);
  }

  lemma {:induction false} FindFinds(ents: seq<Dirent>, name: string, from: nat, k: nat)
    requires from <= k && Named(ents, name, k)
    ensures Find(ents, name, from) != -1
    decreases |ents| - from
  {
    if !Named(ents, name, from) {
      FindFinds(ents, name, from + 1, k);
    }
  }

  /** `s'` is `s` with an entry for `i` in directory `dp`, whose count may have grown. */
  ghost predicate Entered(s: FS, s': FS, dp: int, i: int, name: string) {
    && LinkedDir(s, dp) && IsDir(s', dp) && s'.inodes[dp].nlink > 0 && i != 0
    && s'.inodes[dp].ents == Added(s.inodes[dp].ents, Dirent(i, name))
    && (forall d | d in s.inodes && d != dp :: d in s'.inodes && s'.inodes[d] == s.inodes[d])
  }

  /** In directories that were there, the new slot counts and no other changes. */
  lemma EnteredRefers(s: FS, s': FS, dp: int, i: int, name: string, x: Slot, j: int)
    requires Entered(s, s', dp, i, name) && ShapeOk(s, dp) && Find(s.inodes[dp].ents, name, 0) == -1 && x.d in s.inodes
    ensures var k := FreeSlot(s.inodes[dp].ents, 0);
            && (Refers(s', x, j) <==> Refers(s, x, j) || (x == Slot(dp, k) && j == i))
            && (Names(s', x, j) <==> Names(s, x, j) || (x == Slot(dp, k) && j == i))
            && !Holds(s, Slot(dp, k), j)
  {
    NewSlot(s, dp, name);
  }

  lemma EnteredShape(s: FS, s': FS, dp: int, i: int, name: string, d: int)
    requires Entered(s, s', dp, i, name) && ShapeOk(s, dp) && ShapeOk(s, d)
    requires Find(s.inodes[dp].ents, name, 0) == -1 && d in s.inodes
    ensures ShapeOk(s', d) && (IsDir(s', d) <==> IsDir(s, d)) && (LinkedDir(s', d) <==> LinkedDir(s, d))
    ensures IsDir(s, d) ==> ParentOf(s', d) == ParentOf(s, d)
  {
    NewSlot(s, dp, name);
  }

  lemma EnteredParented(s: FS, s': FS, dp: int, i: int, name: string, d: int)
    requires TreeOk(s) && Entered(s, s', dp, i, name) && Find(s.inodes[dp].ents, name, 0) == -1 && d in s.inodes
    ensures ParentedOk(s', d)
  {
    assert ShapeOk(s, d) && ShapeOk(s, dp) && ParentedOk(s, d);
    EnteredShape(s, s', dp, i, name, d);
    if LinkedDir(s', d) && d != ROOT {
      var p := ParentOf(s, d);
      assert LinkedDir(s, p) && ShapeOk(s, p);
      EnteredShape(s, s', dp, i, name, p);
      var x :| Names(s, x, d) && x.d == p;
      EnteredRefers(s, s', dp, i, name, x, d);
      assert Names(s', x, d);
    }
  }

  // ----- link, second half -----

  lemma LinkedTree(s: FS, s': FS, dp: int, i: int, name: string)
    requires TreeOk(s) && Entered(s, s', dp, i, name) && Find(s.inodes[dp].ents, name, 0) == -1
    requires s'.inodes.Keys == s.inodes.Keys && i in s.inodes && !IsDir(s, i)
    ensures TreeOk(s')
  {
    assert ShapeOk(s, dp) && ShapeOk(s, ROOT);
    EnteredShape(s, s', dp, i, name, ROOT);
    EnteredShape(s, s', dp, i, name, i) by { assert ShapeOk(s, i); }
    forall d
      ensures ShapeOk(s', d) && ParentedOk(s', d)
    {
      assert ShapeOk(s, d);
      if d in s.inodes {
        EnteredShape(s, s', dp, i, name, d);
        EnteredParented(s, s', dp, i, name, d);
      }
    }
    forall x
      ensures !Names(s', x, ROOT)
    {
      assert !Names(s, x, ROOT);
      if x.d in s.inodes {
        EnteredRefers(s, s', dp, i, name, x, ROOT);
      }
    }
    forall x, y, d
      ensures OnceOk(s', x, y, d)
    {
      assert OnceOk(s, x, y, d) && ShapeOk(s, d);
      if x.d in s.inodes && y.d in s.inodes && d in s.inodes {
        EnteredShape(s, s', dp, i, name, d);
        EnteredRefers(s, s', dp, i, name, x, d);
        EnteredRefers(s, s', dp, i, name, y, d);
      }
    }
  }

  lemma LinkEnters(s: FS, s': FS, dp: int, i: int, name: string)
    requires Inv(s) && Entered(s, s', dp, i, name) && Find(s.inodes[dp].ents, name, 0) == -1
    requires s'.inodes == s.inodes[dp := s'.inodes[dp]] && s'.inodes[dp].nlink == s.inodes[dp].nlink
    requires i in s.inodes && !IsDir(s, i)
    requires s.linking[i] == s'.linking[i] + 1 && forall j | j != i :: s'.linking[j] == s.linking[j]
    ensures Right(s')
  {
    LinkedTree(s, s', dp, i, name);
    assert ShapeOk(s, dp);
    var y := Slot(dp, FreeSlot(s.inodes[dp].ents, 0));
    forall j
      ensures CountOk(s', j)
    {
      assert CountOk(s, j);
      forall x
        ensures Refers(s', x, j) <==> Refers(s, x, j) || (x == y && j == i)
      {
        if x.d in s.inodes {
          EnteredRefers(s, s', dp, i, name, x, j);
        }
      }
      EnteredRefers(s, s', dp, i, name, y, j);
      if j == i {
        EntriesPlus(s, s', j, y);
      } else {
        EntriesSame(s, s', j);
      }
    }
  }

  // ----- create -----

  lemma CreateEnters(s: FS, dp: int, name: string, kind: Kind, inum: int)
    requires Inv(s) && Enabled(s, Create(dp, name, kind, inum)) && LinkedDir(s, dp)
    ensures inum != dp && s.inodes[dp].nlink > 0
    ensures var s' := CreateNext(s, dp, name, kind, inum);
            && Entered(s, s', dp, inum, name) && s'.inodes[inum] == NewInode(inum, dp, kind)
            && s'.inodes.Keys == s.inodes.Keys + {inum}
            && s'.inodes[dp].nlink == s.inodes[dp].nlink + if kind.DIR? then 1 else 0
  {
    assert CountOk(s, dp) && ShapeOk(s, dp);
  }

  /** Nobody names an inode that is not allocated. */
  lemma NewUnnamed(s: FS, inum: int, x: Slot)
    requires Inv(s) && inum !in s.inodes && inum != 0
    ensures !Refers(s, x, inum) && !Names(s, x, inum) && |Entries(s, inum)| == 0 && s.linking[inum] == 0
  {
    assert CountOk(s, inum) && ShapeOk(s, x.d);
    NoLinks(s, inum, x);
  }

  lemma CreateRefers(s: FS, dp: int, name: string, kind: Kind, inum: int, x: Slot, j: int)
    requires Inv(s) && Enabled(s, Create(dp, name, kind, inum)) && LinkedDir(s, dp) && inum != dp
    ensures var s', k := CreateNext(s, dp, name, kind, inum), FreeSlot(s.inodes[dp].ents, 0);
            && (Refers(s', x, j) <==>
                  Refers(s, x, j) || (x == Slot(dp, k) && j == inum) || (kind.DIR? && x == Slot(inum, 1) && j == dp))
            && (Names(s', x, j) <==> Names(s, x, j) || (x == Slot(dp, k) && j == inum))
            && !Refers(s, Slot(dp, k), j)
  {
    CreateEnters(s, dp, name, kind, inum);
    var s' := CreateNext(s, dp, name, kind, inum);
    assert ShapeOk(s, dp);
    if x.d in s.inodes {
      EnteredRefers(s, s', dp, inum, name, x, j);
    }
    EnteredRefers(s, s', dp, inum, name, Slot(dp, FreeSlot(s.inodes[dp].ents, 0)), j);
  }

  lemma CreateTree(s: FS, dp: int, name: string, kind: Kind, inum: int)
    requires Inv(s) && Enabled(s, Create(dp, name, kind, inum)) && LinkedDir(s, dp) && inum != dp
    ensures TreeOk(CreateNext(s, dp, name, kind, inum))
  {
    CreateEnters(s, dp, name, kind, inum);
    var s' := CreateNext(s, dp, name, kind, inum);
    assert ShapeOk(s, dp) && ShapeOk(s, ROOT);
    EnteredShape(s, s', dp, inum, name, ROOT);
    EnteredShape(s, s', dp, inum, name, dp);
    forall d
      ensures ShapeOk(s', d)
    {
      assert ShapeOk(s, d);
      if d in s.inodes {
        EnteredShape(s, s', dp, inum, name, d);
      }
    }
    forall d
      ensures ParentedOk(s', d)
    {
      if d in s.inodes {
        EnteredParented(s, s', dp, inum, name, d);
      } else if d == inum {
        var y := Slot(dp, FreeSlot(s.inodes[dp].ents, 0));
        CreateRefers(s, dp, name, kind, inum, y, inum);
        assert Names(s', y, inum);
      }
    }
    forall x
      ensures !Names(s', x, ROOT)
    {
      assert !Names(s, x, ROOT);
      CreateRefers(s, dp, name, kind, inum, x, ROOT);
    }
    forall x, y, d
      ensures OnceOk(s', x, y, d)
    {
      CreateOnce(s, dp, name, kind, inum, x, y, d);
    }
  }

  lemma CreateOnce(s: FS, dp: int, name: string, kind: Kind, inum: int, x: Slot, y: Slot, d: int)
    requires Inv(s) && Enabled(s, Create(dp, name, kind, inum)) && LinkedDir(s, dp) && inum != dp
    ensures OnceOk(CreateNext(s, dp, name, kind, inum), x, y, d)
  {
    assert OnceOk(s, x, y, d);
    CreateRefers(s, dp, name, kind, inum, x, d);
    CreateRefers(s, dp, name, kind, inum, y, d);
    if d == inum {
      NewUnnamed(s, inum, x);
      NewUnnamed(s, inum, y);
    } else if d in s.inodes {
      assert ShapeOk(s, d) && ShapeOk(s, dp);
      CreateEnters(s, dp, name, kind, inum);
      EnteredShape(s, CreateNext(s, dp, name, kind, inum), dp, inum, name, d);
    }
  }

  lemma CreateRight(s: FS, dp: int, name: string, kind: Kind, inum: int)
    requires Inv(s) && Enabled(s, Create(dp, name, kind, inum)) && LinkedDir(s, dp) && inum != dp
    ensures Right(CreateNext(s, dp, name, kind, inum))
  {
    CreateEnters(s, dp, name, kind, inum);
    CreateTree(s, dp, name, kind, inum);
    var s' := CreateNext(s, dp, name, kind, inum);
    var y := Slot(dp, FreeSlot(s.inodes[dp].ents, 0));
    NewUnnamed(s, inum, y);
    forall j
      ensures CountOk(s', j)
    {
      assert CountOk(s, j);
      forall x
        ensures Refers(s', x, j) <==>
                  Refers(s, x, j) || (x == y && j == inum) || (kind.DIR? && x == Slot(inum, 1) && j == dp)
      {
        CreateRefers(s, dp, name, kind, inum, x, j);
      }
      if j == inum {
        EntriesPlus(s, s', j, y);
      } else if j == dp && kind.DIR? {
        EntriesPlus(s, s', j, Slot(inum, 1));
      } else {
        EntriesSame(s, s', j);
      }
    }
  }

  lemma CreateInv(s: FS, dp: int, name: string, kind: Kind, inum: int)
    requires Inv(s) && Enabled(s, Create(dp, name, kind, inum)) && LinkedDir(s, dp) && inum !in s.freeing
    ensures Inv(Next(s, Create(dp, name, kind, inum)))
  {
    assert RefOk(s, inum) && RefOk(s, dp);
    CreateEnters(s, dp, name, kind, inum);
    CreateRight(s, dp, name, kind, inum);
    forall j
      ensures RefOk(CreateNext(s, dp, name, kind, inum), j)
    {
      CreateRef(s, dp, name, kind, inum, j);
    }
  }

  lemma CreateRef(s: FS, dp: int, name: string, kind: Kind, inum: int, j: int)
    requires RefOk(s, inum) && RefOk(s, dp) && RefOk(s, j) && IsDir(s, dp) && s.inodes[dp].nlink > 0
    requires inum !in s.inodes && inum !in s.freeing
    ensures RefOk(CreateNext(s, dp, name, kind, inum), j)
  {
  }

  // ----- unlink -----

  /** The entry at slot `k` of `dp` can be unlinked: it names `ip`, which if a directory is empty. */
  ghost predicate CanUnlink(s: FS, dp: int, k: int, ip: int) {
    && Inv(s) && Names(s, Slot(dp, k), ip) && ip in s.inodes
    && (IsDir(s, ip) ==> Bare(s.inodes[ip].ents))
  }

  /** unlink's panic is never reached: an inode that is named has a link. */
  lemma UnlinkTarget(s: FS, dp: int, k: int, ip: int)
    requires CanUnlink(s, dp, k, ip)
    ensures Refers(s, Slot(dp, k), ip) && s.inodes[ip].nlink >= 1 && LinkedDir(s, dp) && ip != ROOT
  {
    assert ShapeOk(s, dp) && CountOk(s, ip) && !Names(s, Slot(dp, k), ROOT);
    InEntries(s, Slot(dp, k), ip);
  }

  /** An empty directory has one entry that counts, the one in its parent. */
  lemma EmptyDirOnce(s: FS, dp: int, k: int, ip: int, x: Slot)
    requires CanUnlink(s, dp, k, ip) && IsDir(s, ip)
    ensures ip != dp && ShapeOk(s, ip) && ParentOf(s, ip) == dp
    ensures Refers(s, x, ip) <==> x == Slot(dp, k)
  {
    UnlinkTarget(s, dp, k, ip);
    assert ShapeOk(s, ip) && ParentedOk(s, ip);
    var z :| Names(s, z, ip) && z.d == ParentOf(s, ip);
    assert OnceOk(s, z, Slot(dp, k), ip);
    if Refers(s, x, ip) {
      assert ShapeOk(s, x.d) && OnceOk(s, x, Slot(dp, k), ip) && ParentedOk(s, x.d);
    }
  }

  lemma OneEntry(s: FS, i: int, y: Slot)
    requires forall x :: Refers(s, x, i) <==> x == y
    ensures Entries(s, i) == {y}
  {
    forall x
      ensures x in Entries(s, i) <==> x in {y}
    {
      InEntries(s, x, i);
    }
  }

  /** So its count is one, and its parent keeps at least one link without it. */
  lemma EmptyDirCounts(s: FS, dp: int, k: int, ip: int)
    requires CanUnlink(s, dp, k, ip) && IsDir(s, ip)
    ensures s.inodes[ip].nlink == 1 && s.inodes[dp].nlink >= 2
  {
    UnlinkTarget(s, dp, k, ip);
    forall x
      ensures Refers(s, x, ip) <==> x == Slot(dp, k)
    {
      EmptyDirOnce(s, dp, k, ip, x);
    }
    OneEntry(s, ip, Slot(dp, k));
    EmptyDirOnce(s, dp, k, ip, Slot(dp, k));
    assert CountOk(s, ip) && CountOk(s, dp) && RefOk(s, ip) && RefOk(s, dp);
    assert ShapeOk(s, dp) && ParentedOk(s, dp) && ShapeOk(s, ROOT);
    var other: Slot;
    if dp == ROOT {
      other := Slot(ROOT, 1);
    } else {
      other :| Names(s, other, dp) && other.d == ParentOf(s, dp);
      assert ShapeOk(s, other.d);
    }
    InEntries(s, other, dp);
    InEntries(s, Slot(ip, 1), dp);
    assert {other, Slot(ip, 1)} <= Entries(s, dp);
    SubsetSize({other, Slot(ip, 1)}, Entries(s, dp));
  }

  lemma {:induction false} SubsetSize(a: set<Slot>, b: set<Slot>)
    requires a <= b
    ensures |a| <= |b|
    decreases a
  {
    if x :| x in a {
      SubsetSize(a - {x}, b - {x});
    }
  }

  /** unlink leaves the entries alone but for the one it clears, and takes the counts down. */
  lemma UnnamedNodes(s: FS, dp: int, k: int, ip: int)
    requires IsDir(s, dp) && 0 <= k < |s.inodes[dp].ents| && s.inodes[dp].ents[k].inum == ip && ip in s.inodes && ip != dp
    ensures var s' := Unnamed(s, dp, k);
            && s'.inodes.Keys == s.inodes.Keys
            && (forall d | d in s.inodes ::
                  && s'.inodes[d].kind == s.inodes[d].kind
                  && s'.inodes[d].ents == if d == dp then s.inodes[dp].ents[k := Dirent(0, "")] else s.inodes[d].ents)
            && (forall j :: Nlink(s', j) == Nlink(s, j) - if j == ip || (IsDir(s, ip) && j == dp) then 1 else 0)
  {
  }

  lemma UnnamedDirs(s: FS, dp: int, k: int, ip: int)
    requires CanUnlink(s, dp, k, ip)
    ensures var s' := Unnamed(s, dp, k);
            && (forall d :: IsDir(s', d) <==> IsDir(s, d)) && s'.inodes.Keys == s.inodes.Keys
            && (forall d | d in s.inodes :: s'.inodes[d].ents == if d == dp then s.inodes[dp].ents[k := Dirent(0, "")] else s.inodes[d].ents)
            && (forall d | IsDir(s, d) :: s'.inodes[d].nlink == 0 <==> s.inodes[d].nlink == 0 || d == ip)
            && Nlink(s', ip) == Nlink(s, ip) - 1
            && (forall j | j != ip :: Nlink(s', j) == Nlink(s, j) - if IsDir(s, ip) && j == dp then 1 else 0)
  {
    UnlinkTarget(s, dp, k, ip);
    if IsDir(s, ip) {
      EmptyDirCounts(s, dp, k, ip);
      EmptyDirOnce(s, dp, k, ip, Slot(dp, k));
    }
    UnnamedNodes(s, dp, k, ip);
    var s' := Unnamed(s, dp, k);
    forall d | IsDir(s, d)
      ensures s'.inodes[d].nlink == 0 <==> s.inodes[d].nlink == 0 || d == ip
    {
      assert Nlink(s', d) == s'.inodes[d].nlink && Nlink(s, d) == s.inodes[d].nlink;
    }
  }

  lemma UnnamedRefers(s: FS, dp: int, k: int, ip: int, x: Slot, j: int)
    requires CanUnlink(s, dp, k, ip)
    ensures var s' := Unnamed(s, dp, k);
            && (Refers(s', x, j) <==> Refers(s, x, j) && x != Slot(dp, k) && !(IsDir(s, ip) && x == Slot(ip, 1)))
            && (Names(s', x, j) <==> Names(s, x, j) && x != Slot(dp, k))
  {
    UnnamedDirs(s, dp, k, ip);
    assert ShapeOk(s, x.d) && ShapeOk(s, ip);
  }

  lemma UnnamedTree(s: FS, dp: int, k: int, ip: int)
    requires CanUnlink(s, dp, k, ip)
    ensures TreeOk(Unnamed(s, dp, k))
  {
    var s' := Unnamed(s, dp, k);
    UnnamedDirs(s, dp, k, ip);
    UnlinkTarget(s, dp, k, ip);
    assert ShapeOk(s, ROOT);
    forall d
      ensures ShapeOk(s', d)
    {
      assert ShapeOk(s, d) && (IsDir(s', d) <==> IsDir(s, d));
    }
    forall x
      ensures !Names(s', x, ROOT)
    {
      assert !Names(s, x, ROOT);
      UnnamedRefers(s, dp, k, ip, x, ROOT);
    }
    forall x, y, d
      ensures OnceOk(s', x, y, d)
    {
      assert OnceOk(s, x, y, d) && (IsDir(s', d) <==> IsDir(s, d));
      UnnamedRefers(s, dp, k, ip, x, d);
      UnnamedRefers(s, dp, k, ip, y, d);
    }
    forall d
      ensures ParentedOk(s', d)
    {
      UnnamedParented(s, dp, k, ip, d);
    }
  }

  lemma UnnamedParented(s: FS, dp: int, k: int, ip: int, d: int)
    requires CanUnlink(s, dp, k, ip)
    ensures ParentedOk(Unnamed(s, dp, k), d)
  {
    var s' := Unnamed(s, dp, k);
    UnnamedDirs(s, dp, k, ip);
    assert ShapeOk(s, d) && ParentedOk(s, d) && (IsDir(s', d) <==> IsDir(s, d));
    if LinkedDir(s', d) && d != ROOT {
      var p := ParentOf(s, d);
      assert LinkedDir(s, p) && (IsDir(s', p) <==> IsDir(s, p)) && ShapeOk(s, p);
      var x :| Names(s, x, d) && x.d == p;
      UnnamedRefers(s, dp, k, ip, x, d);
      assert ParentOf(s', d) == p && Names(s', x, d);
      assert p != ip;
    }
  }

  lemma UnnamedRight(s: FS, dp: int, k: int, ip: int)
    requires CanUnlink(s, dp, k, ip)
    ensures Right(Unnamed(s, dp, k))
  {
    var s' := Unnamed(s, dp, k);
    UnnamedDirs(s, dp, k, ip);
    UnnamedTree(s, dp, k, ip);
    UnlinkTarget(s, dp, k, ip);
    if IsDir(s, ip) {
      EmptyDirOnce(s, dp, k, ip, Slot(dp, k));
    }
    forall j
      ensures CountOk(s', j)
    {
      assert CountOk(s, j);
      forall x
        ensures Refers(s', x, j) <==> Refers(s, x, j) && x != Slot(dp, k) && !(IsDir(s, ip) && x == Slot(ip, 1))
      {
        UnnamedRefers(s, dp, k, ip, x, j);
      }
      if j == ip {
        EntriesPlus(s', s, j, Slot(dp, k));
      } else if j == dp && IsDir(s, ip) {
        assert ShapeOk(s, ip);
        EntriesPlus(s', s, j, Slot(ip, 1));
      } else {
        EntriesSame(s, s', j);
      }
    }
  }

  lemma OpenedInv(s: FS, dp: int, k: int, ip: int)
    requires CanUnlink(s, dp, k, ip)
    ensures var s' := Opened(Unnamed(s, dp, k), dp, ip); Inv(s') && Spare(s', ip)
  {
    var s1 := Unnamed(s, dp, k);
    var s' := Opened(s1, dp, ip);
    UnnamedRight(s, dp, k, ip);
    RightKept(s1, s');
    UnnamedDirs(s, dp, k, ip);
    UnlinkTarget(s, dp, k, ip);
    forall j
      ensures RefOk(s', j)
    {
      assert RefOk(s, j) && (IsDir(s1, j) <==> IsDir(s, j));
      UnnamedCount(s, dp, k, ip, j);
    }
    assert RefOk(s, ip);
  }

  /** No count goes to zero but the target's. */
  lemma UnnamedCount(s: FS, dp: int, k: int, ip: int, j: int)
    requires CanUnlink(s, dp, k, ip)
    ensures var s1 := Unnamed(s, dp, k);
            && (j in s1.inodes <==> j in s.inodes)
            && (j != ip ==> (Nlink(s1, j) == 0 <==> Nlink(s, j) == 0))
  {
    UnlinkTarget(s, dp, k, ip);
    UnnamedDirs(s, dp, k, ip);
    if IsDir(s, ip) {
      EmptyDirCounts(s, dp, k, ip);
    }
  }

  // ----- every step -----

  lemma PutDownInv(s: FS, i: int)
    requires Inv(s) && Spare(s, i)
    ensures Inv(PutDown(s, i))
  {
    var s' := PutDown(s, i);
    RightKept(s, s');
    forall j
      ensures RefOk(s', j)
    {
      assert RefOk(s, j);
    }
  }

  /** Steps that touch only the cache's books. */
  lemma BooksStep(s: FS, t: Step)
    requires Inv(s) && Enabled(s, t) && (t.Iget? || t.Ilock? || t.IputEnd?)
    ensures Inv(Next(s, t))
  {
    var s' := Next(s, t);
    RightKept(s, s');
    forall j
      ensures RefOk(s', j)
    {
      assert RefOk(s, j);
    }
  }

  lemma UnlinkStep(s: FS, dp: int, name: string)
    requires Inv(s) && Enabled(s, Unlink(dp, name))
    ensures Inv(Next(s, Unlink(dp, name)))
  {
    var k := Find(s.inodes[dp].ents, name, 0);
    var ip := s.inodes[dp].ents[k].inum;
    assert ShapeOk(s, dp);
    OpenedInv(s, dp, k, ip);
    PutDownInv(Opened(Unnamed(s, dp, k), dp, ip), ip);
  }

  lemma LinkBeginStep(s: FS, ip: int)
    requires Inv(s) && Enabled(s, LinkBegin(ip)) && ip !in s.freeing
    ensures Inv(Next(s, LinkBegin(ip)))
  {
    assert RefOk(s, ip) && CountOk(s, ip);
    var s' := Next(s, LinkBegin(ip));
    FilesCounted(s, s', ip);
    forall j
      ensures RefOk(s', j)
    {
      assert RefOk(s, j);
    }
  }

  lemma LinkWrites(s: FS, ip: int, dp: int, name: string)
    requires Inv(s) && Writes(s, LinkEnd(ip, dp, name)) && IntoLinked(s, LinkEnd(ip, dp, name))
    ensures var s' := LinkDone(s, ip, dp, name);
            && Entered(s, s', dp, ip, name) && s'.inodes == s.inodes[dp := s'.inodes[dp]]
            && s'.inodes[dp].nlink == s.inodes[dp].nlink
  {
    assert CountOk(s, dp) && ShapeOk(s, dp) && ShapeOk(s, ip) && RefOk(s, ip);
  }

  lemma LinkDoneRight(s: FS, ip: int, dp: int, name: string)
    requires Inv(s) && Enabled(s, LinkEnd(ip, dp, name)) && IntoLinked(s, LinkEnd(ip, dp, name))
    ensures Right(LinkDone(s, ip, dp, name))
  {
    assert RefOk(s, ip);
    var s' := LinkDone(s, ip, dp, name);
    if Writes(s, LinkEnd(ip, dp, name)) {
      LinkWrites(s, ip, dp, name);
      LinkEnters(s, s', dp, ip, name);
    } else {
      FilesCounted(s, s', ip);
    }
  }

  lemma LinkEndStep(s: FS, ip: int, dp: int, name: string)
    requires Inv(s) && Enabled(s, LinkEnd(ip, dp, name)) && IntoLinked(s, LinkEnd(ip, dp, name))
    ensures Inv(Next(s, LinkEnd(ip, dp, name)))
  {
    var s' := LinkDone(s, ip, dp, name);
    LinkDoneRight(s, ip, dp, name);
    forall j
      ensures RefOk(s', j)
    {
      LinkDoneRef(s, ip, dp, name, j);
    }
    LinkDoneRef(s, ip, dp, name, ip);
    PutDownInv(s', ip);
  }

  lemma LinkDoneRef(s: FS, ip: int, dp: int, name: string, j: int)
    requires Inv(s) && Enabled(s, LinkEnd(ip, dp, name))
    ensures RefOk(LinkDone(s, ip, dp, name), j) && Spare(LinkDone(s, ip, dp, name), ip)
  {
    assert RefOk(s, ip) && CountOk(s, ip) && ShapeOk(s, ip) && RefOk(s, j);
    var s' := LinkDone(s, ip, dp, name);
    assert IsDir(s', j) <==> IsDir(s, j);
    assert j != ip ==> Nlink(s', j) == Nlink(s, j);
  }

  lemma StepInv(s: FS, t: Step)
    requires Inv(s) && Clean(s, t)
    ensures Inv(Next(s, t))
  {
    if Enabled(s, t) {
      match t
      case Create(dp, name, kind, inum) => CreateInv(s, dp, name, kind, inum);
      case Unlink(dp, name) => UnlinkStep(s, dp, name);
      case LinkBegin(ip) => LinkBeginStep(s, ip);
      case LinkEnd(ip, dp, name) => LinkEndStep(s, ip, dp, name);
      case Iput(ip) => PutDownInv(s, ip);
      case Erase(ip) => EraseInv(s, ip);
      case _ => BooksStep(s, t);
    }
  }

  // ----- whole runs -----

  datatype Run = Start | Then(before: Run, t: Step)

  ghost function After(s: FS, run: Run): FS {
    match run
    case Start => s
    case Then(before, t) => Next(After(s, before), t)
  }

  ghost predicate AllClean(s: FS, run: Run) {
    match run
    case Start => true
    case Then(before, t) => AllClean(s, before) && Clean(After(s, before), t)
  }

  /** The file system mkfs makes: a root directory that is its own parent. */
  const FRESH := FS(map[ROOT := Inode(DIR, 1, [Dirent(ROOT, "."), Dirent(ROOT, "..")])], multiset{}, multiset{}, {}, {})

  lemma FreshInv()
    ensures Inv(FRESH)
  {
    forall x
      ensures Refers(FRESH, x, ROOT) <==> x == Slot(ROOT, 1)
    {
    }
    OneEntry(FRESH, ROOT, Slot(ROOT, 1));
    forall i
      ensures CountOk(FRESH, i)
    {
      if i != ROOT && i != 0 {
        forall x
          ensures x !in Entries(FRESH, i)
        {
          InEntries(FRESH, x, i);
        }
        assert Entries(FRESH, i) == {};
      }
    }
  }

  lemma {:induction false} RunInv(run: Run)
    requires AllClean(FRESH, run)
    ensures Inv(After(FRESH, run))
  {
    match run
    case Start => FreshInv();
    case Then(before, t) =>
      RunInv(before);
      StepInv(After(FRESH, before), t);
  }

  /** In every run from a new file system, clean or not, no directory has a name twice. */
  lemma {:induction false} RunNames(run: Run)
    ensures NamesOk(After(FRESH, run))
  {
    match run
    case Start =>
    case Then(before, t) =>
      RunNames(before);
      NamesStep(After(FRESH, before), t);
  }

  /**
    In any interleaving of link, unlink, create and iput that writes into no
    unlinked directory and takes up no inode whose iput is under way: every count
    is the number of entries that count, plus the links under way; and every entry
    but the dots is for an inode that still exists and has a link.
   */
  lemma LinkCountsRight(run: Run, i: int, x: Slot)
    requires AllClean(FRESH, run) && i != 0
    ensures var s := After(FRESH, run);
            && Nlink(s, i) == |Entries(s, i)| + s.linking[i]
            && (Names(s, x, i) ==> i in s.inodes && s.inodes[i].nlink >= 1)
  {
    RunInv(run);
    var s := After(FRESH, run);
    assert CountOk(s, i) && ShapeOk(s, x.d);
    if Names(s, x, i) {
      InEntries(s, x, i);
    }
  }

  // ----- exactly when counts stay right -----

  /** References taken and dropped, and nothing else. */
  predicate OnlyRefs(run: Run) {
    match run
    case Start => true
    case Then(before, t) => OnlyRefs(before) && (t.Iget? || t.Ilock? || t.Iput? || t.Erase? || t.IputEnd?)
  }

  /** Counts are right and stay so, however references are taken and dropped. */
  ghost predicate CountsSafe(s: FS) {
    forall more, i | OnlyRefs(more) :: CountOk(After(s, more), i)
  }

  lemma {:induction false} RefsKeepInv(s: FS, more: Run)
    requires Inv(s) && OnlyRefs(more)
    ensures Inv(After(s, more))
  {
    match more
    case Start =>
    case Then(before, t) =>
      RefsKeepInv(s, before);
      StepInv(After(s, before), t);
  }

  lemma InvSafe(s: FS)
    requires Inv(s)
    ensures CountsSafe(s)
  {
    forall more, i | OnlyRefs(more)
      ensures CountOk(After(s, more), i)
    {
      RefsKeepInv(s, more);
    }
  }

  lemma EntriesPlusSet(s: FS, s': FS, i: int, ys: set<Slot>)
    requires forall x :: Refers(s', x, i) <==> Refers(s, x, i) || x in ys
    requires forall x | x in ys :: !Refers(s, x, i)
    ensures |Entries(s', i)| == |Entries(s, i)| + |ys|
  {
    forall x
      ensures (x in Entries(s', i) <==> x in Entries(s, i) + ys) && !(x in Entries(s, i) && x in ys)
    {
      InEntries(s, x, i);
      InEntries(s', x, i);
    }
    assert Entries(s', i) == Entries(s, i) + ys && Entries(s, i) !! ys;
  }

  /** A subdirectory of an unlinked directory makes its ".." count again. */
  lemma StrayDirRefers(s: FS, dp: int, name: string, inum: int, x: Slot, i: int)
    requires Inv(s) && Enabled(s, Create(dp, name, DIR, inum)) && s.inodes[dp].nlink == 0
    ensures ShapeOk(s, dp) && inum != dp
    ensures var s', k := CreateNext(s, dp, name, DIR, inum), FreeSlot(s.inodes[dp].ents, 0);
            && k >= 2 && !Refers(s, Slot(dp, k), i) && !Refers(s, Slot(dp, 1), i) && !Refers(s, Slot(inum, 1), i)
            && (Refers(s', x, i) <==>
                  || Refers(s, x, i) || (x == Slot(dp, 1) && i == ParentOf(s, dp))
                  || (x == Slot(dp, k) && i == inum) || (x == Slot(inum, 1) && i == dp))
  {
    assert ShapeOk(s, dp);
    NewSlot(s, dp, name);
  }

  /** The slots that come to refer to `p` when `dp`, with parent `p`, gains subdirectory `inum` in slot `k`. */
  ghost function StraySlots(dp: int, k: int, inum: int, p: int): set<Slot> {
    {Slot(dp, 1)} + (if p == inum then {Slot(dp, k)} else {}) + if p == dp then {Slot(inum, 1)} else {}
  }

  lemma StrayDirSlots(s: FS, dp: int, name: string, inum: int, x: Slot)
    requires Inv(s) && Enabled(s, Create(dp, name, DIR, inum)) && s.inodes[dp].nlink == 0
    ensures ShapeOk(s, dp) && inum != dp && FreeSlot(s.inodes[dp].ents, 0) >= 2
    ensures var ys, p := StraySlots(dp, FreeSlot(s.inodes[dp].ents, 0), inum, ParentOf(s, dp)), ParentOf(s, dp);
            && (Refers(CreateNext(s, dp, name, DIR, inum), x, p) <==> Refers(s, x, p) || x in ys)
            && (x in ys ==> !Refers(s, x, p))
  {
    assert ShapeOk(s, dp);
    StrayDirRefers(s, dp, name, inum, x, ParentOf(s, dp));
  }

  /** The entries for the parent of the unlinked directory that gains a subdirectory. */
  lemma StrayDirEntries(s: FS, dp: int, name: string, inum: int)
    requires Inv(s) && Enabled(s, Create(dp, name, DIR, inum)) && s.inodes[dp].nlink == 0
    ensures ShapeOk(s, dp) && inum != dp
    ensures var p := ParentOf(s, dp);
            |Entries(CreateNext(s, dp, name, DIR, inum), p)|
              == |Entries(s, p)| + 1 + (if p == inum then 1 else 0) + if p == dp then 1 else 0
  {
    StrayDirSlots(s, dp, name, inum, Slot(dp, 1));
    var k, p := FreeSlot(s.inodes[dp].ents, 0), ParentOf(s, dp);
    var s', ys := CreateNext(s, dp, name, DIR, inum), StraySlots(dp, k, inum, p);
    forall x
      ensures (Refers(s', x, p) <==> Refers(s, x, p) || x in ys) && (x in ys ==> !Refers(s, x, p))
    {
      StrayDirSlots(s, dp, name, inum, x);
    }
    EntriesPlusSet(s, s', p, ys);
    StraySizes(dp, k, inum, p);
  }

  lemma StrayDirMiscounts(s: FS, dp: int, name: string, inum: int)
    requires Inv(s) && Enabled(s, Create(dp, name, DIR, inum)) && s.inodes[dp].nlink == 0
    requires inum !in s.freeing
    ensures ShapeOk(s, dp) && !CountOk(Next(s, Create(dp, name, DIR, inum)), ParentOf(s, dp))
  {
    assert RefOk(s, inum);
    StrayDirEntries(s, dp, name, inum);
    assert CountOk(s, ParentOf(s, dp));
  }

  lemma StraySizes(dp: int, k: int, inum: int, p: int)
    requires k >= 2 && inum != dp
    ensures |StraySlots(dp, k, inum, p)| == 1 + (if p == inum then 1 else 0) + if p == dp then 1 else 0
  {
    assert Slot(dp, k) !in {Slot(dp, 1)} && Slot(inum, 1) !in {Slot(dp, 1)};
    assert {Slot(dp, 1)} + {} + {} == {Slot(dp, 1)};
    assert {Slot(dp, 1)} + {Slot(dp, k)} + {} == {Slot(dp, 1)} + {Slot(dp, k)};
    assert {Slot(dp, 1)} + {} + {Slot(inum, 1)} == {Slot(dp, 1)} + {Slot(inum, 1)};
  }

  /** `n` references to `dp` dropped. */
  function Drops(dp: int, n: nat): (run: Run)
    ensures OnlyRefs(run)
  {
    if n == 0 then Start else Then(Drops(dp, n - 1), Iput(dp))
  }

  /** An unlinked directory that somebody still has. */
  ghost predicate Orphan(s: FS, dp: int) {
    dp in s.inodes && s.inodes[dp].nlink == 0 && s.linking[dp] == 0 && dp in s.valid && dp !in s.freeing
  }

  /** What dropping `n` references leaves. */
  ghost predicate Dropped(s: FS, e: FS, dp: int, n: nat) {
    Orphan(e, dp) && e.linking == s.linking && e.inodes == s.inodes && e.refs[dp] == s.refs[dp] - n
  }

  lemma DropAgain(s: FS, e: FS, dp: int, n: nat)
    requires Dropped(s, e, dp, n) && n + 1 < s.refs[dp]
    ensures Dropped(s, Next(e, Iput(dp)), dp, n + 1)
  {
  }

  lemma {:induction false} DropsLeft(s: FS, dp: int, n: nat)
    requires Orphan(s, dp) && n < s.refs[dp]
    ensures Dropped(s, After(s, Drops(dp, n)), dp, n)
  {
    if n > 0 {
      DropsLeft(s, dp, n - 1);
      DropAgain(s, After(s, Drops(dp, n - 1)), dp, n - 1);
    }
  }

  /** Dropping the last reference, and freeing on disk. */
  lemma DropLast(s: FS, dp: int)
    requires Orphan(s, dp) && s.refs[dp] == 1
    ensures var e := Next(Next(s, Iput(dp)), Erase(dp));
            e.linking == s.linking && e.inodes == s.inodes - {dp}
  {
  }

  lemma DropsErase(s: FS, dp: int)
    requires Orphan(s, dp) && s.refs[dp] > 0
    ensures var e := After(s, Then(Drops(dp, s.refs[dp]), Erase(dp)));
            e.linking == s.linking && e.inodes == s.inodes - {dp}
  {
    var n := s.refs[dp] - 1;
    DropsLeft(s, dp, n);
    var last := After(s, Drops(dp, n));
    DropLast(last, dp);
    assert After(s, Drops(dp, n + 1)) == Next(last, Iput(dp));
    EraseStep(Next(last, Iput(dp)), dp);
  }

  lemma EraseStep(s: FS, dp: int)
    requires dp in s.freeing && dp in s.inodes
    ensures Next(s, Erase(dp)) == s.(inodes := s.inodes - {dp})
  {
  }

  lemma EraseNow(s: FS, dp: int)
    requires dp in s.freeing && dp in s.inodes
    ensures After(s, Then(Start, Erase(dp))) == s.(inodes := s.inodes - {dp})
  {
    assert After(s, Start) == s;
  }

  /** However an unlinked directory is held, it goes. */
  lemma OrphanGoes(s: FS, dp: int) returns (more: Run)
    requires dp in s.inodes && s.inodes[dp].nlink == 0 && s.linking[dp] == 0 && dp in s.valid && s.refs[dp] > 0
    ensures OnlyRefs(more)
    ensures var e := After(s, more); e.linking == s.linking && e.inodes == s.inodes - {dp}
  {
    if dp in s.freeing {
      more := Then(Start, Erase(dp));
      EraseNow(s, dp);
    } else {
      more := Then(Drops(dp, s.refs[dp]), Erase(dp));
      DropsErase(s, dp);
    }
  }

  /** What a step that writes a file's entry writes it for. */
  function Target(t: Step): int
    requires t.Create? || t.LinkEnd?
  {
    if t.Create? then t.inum else t.ip
  }

  /** After a stray entry for file `i`, the directory's inode is all that has gained anything. */
  ghost predicate StrayWrote(s: FS, s': FS, dp: int, i: int) {
    && i != dp && i != 0 && dp in s'.inodes && s'.inodes[dp].nlink == 0 && s'.linking[dp] == 0
    && dp in s'.valid && s'.refs[dp] > 0
    && i in s'.inodes && !IsDir(s', i)
    && (forall d | d != dp && d != i :: d in s'.inodes <==> d in s.inodes)
    && (forall d | d in s.inodes && d != dp :: d in s'.inodes && s'.inodes[d] == s.inodes[d])
    && s'.inodes[i].nlink == 1 + |Entries(s, i)| + s'.linking[i]
  }

  lemma StrayCreates(s: FS, t: Step)
    requires Inv(s) && t.Create? && !t.kind.DIR? && Writes(s, t) && s.inodes[t.dp].nlink == 0 && TakesNoneFreed(s, t)
    ensures StrayWrote(s, Next(s, t), t.dp, t.inum)
  {
    assert ShapeOk(s, t.dp) && CountOk(s, t.inum) && CountOk(s, t.dp) && RefOk(s, t.dp) && RefOk(s, t.inum);
    NoLinks(s, t.dp, Slot(0, 0));
    NewUnnamed(s, t.inum, Slot(0, 0));
  }

  lemma StrayLinks(s: FS, t: Step)
    requires Inv(s) && t.LinkEnd? && Writes(s, t) && s.inodes[t.dp].nlink == 0
    ensures StrayWrote(s, Next(s, t), t.dp, t.ip)
  {
    assert ShapeOk(s, t.dp) && ShapeOk(s, t.ip) && CountOk(s, t.ip) && CountOk(s, t.dp) && RefOk(s, t.dp) && RefOk(s, t.ip);
    NoLinks(s, t.dp, Slot(0, 0));
  }

  lemma StrayFileWrites(s: FS, t: Step)
    requires Inv(s) && Writes(s, t) && s.inodes[t.dp].nlink == 0 && (t.Create? ==> !t.kind.DIR?) && TakesNoneFreed(s, t)
    ensures StrayWrote(s, Next(s, t), t.dp, Target(t))
  {
    if t.Create? {
      StrayCreates(s, t);
    } else {
      StrayLinks(s, t);
    }
  }

  lemma StrayFileRefers(s: FS, s': FS, e: FS, dp: int, i: int, x: Slot)
    requires StrayWrote(s, s', dp, i) && e.inodes == s'.inodes - {dp} && ShapeOk(s, dp)
    requires IsDir(s, dp) && s.inodes[dp].nlink == 0
    ensures Refers(e, x, i) <==> Refers(s, x, i)
  {
  }

  lemma StrayFileMiscounts(s: FS, t: Step) returns (more: Run)
    requires Inv(s) && Writes(s, t) && s.inodes[t.dp].nlink == 0 && (t.Create? ==> !t.kind.DIR?) && TakesNoneFreed(s, t)
    ensures OnlyRefs(more) && !CountOk(After(Next(s, t), more), Target(t))
  {
    var s' := Next(s, t);
    StrayFileWrites(s, t);
    more := OrphanGoes(s', t.dp);
    var e := After(s', more);
    forall x
      ensures Refers(e, x, Target(t)) <==> Refers(s, x, Target(t))
    {
      assert ShapeOk(s, t.dp);
      StrayFileRefers(s, s', e, t.dp, Target(t), x);
    }
    EntriesSame(s, e, Target(t));
  }

  /**
    An entry written into an unlinked directory makes a count wrong: that of the
    directory's parent at once, for a new directory; that of the file when the
    unlinked directory goes, for any other.
   */
  lemma StrayBreaksCounts(s: FS, t: Step) returns (more: Run, i: int)
    requires Inv(s) && !IntoLinked(s, t) && TakesNoneFreed(s, t)
    ensures OnlyRefs(more) && !CountOk(After(Next(s, t), more), i)
  {
    if t.Create? && t.kind.DIR? {
      StrayDirMiscounts(s, t.dp, t.name, t.inum);
      more, i := Start, ParentOf(s, t.dp);
    } else {
      more := StrayFileMiscounts(s, t);
      i := Target(t);
    }
  }

  /** create over a number whose iput is under way: an entry for a free inode, or a count raised for none. */
  lemma CreateOverMiscounts(s: FS, t: Step) returns (i: int)
    requires Inv(s) && t.Create? && Enabled(s, t) && t.inum in s.freeing
    ensures !CountOk(Next(s, t), i)
  {
    var s' := Next(s, t);
    assert RefOk(s, t.inum) && ShapeOk(s, t.dp) && CountOk(s, t.dp);
    NewSlot(s, t.dp, t.name);
    if t.kind.DIR? {
      i := t.dp;
      RaisedMiscounts(s, s', t.dp);
    } else {
      i := t.inum;
      var y := Slot(t.dp, FreeSlot(s.inodes[t.dp].ents, 0));
      assert Refers(s', y, i);
      InEntries(s', y, i);
    }
  }

  lemma RaisedMiscounts(s: FS, s': FS, dp: int)
    requires IsDir(s, dp) && ShapeOk(s, dp) && CountOk(s, dp) && (dp == ROOT ==> s.inodes[dp].nlink != 0) && s'.linking == s.linking
    requires s'.inodes == s.inodes[dp := s.inodes[dp].(nlink := s.inodes[dp].nlink + 1)]
    ensures !CountOk(s', dp)
  {
    forall x
      ensures Refers(s', x, dp) <==> Refers(s, x, dp)
    {
    }
    EntriesSame(s, s', dp);
  }

  /** link of an inode whose iput is under way: the count is for an inode that is, or will be, free. */
  lemma LinkFreedMiscounts(s: FS, ip: int) returns (more: Run)
    requires Inv(s) && Enabled(s, LinkBegin(ip)) && ip in s.freeing
    ensures OnlyRefs(more) && !CountOk(After(Next(s, LinkBegin(ip)), more), ip)
  {
    var s' := Next(s, LinkBegin(ip));
    if ip in s.inodes {
      more := Then(Start, Erase(ip));
      assert After(s', Start) == s' && ip !in After(s', more).inodes;
    } else {
      more := Start;
    }
  }

  lemma TakenBreaksCounts(s: FS, t: Step) returns (more: Run, i: int)
    requires Inv(s) && !TakesNoneFreed(s, t)
    ensures OnlyRefs(more) && !CountOk(After(Next(s, t), more), i)
  {
    if t.Create? {
      more := Start;
      i := CreateOverMiscounts(s, t);
    } else {
      more := LinkFreedMiscounts(s, t.ip);
      i := t.ip;
    }
  }

  /**
    From a state where all is right, a step leaves counts right for good exactly
    when it writes into no unlinked directory and takes up no inode whose iput is
    under way.
   */
  lemma StepCountsIff(s: FS, t: Step)
    requires Inv(s)
    ensures CountsSafe(Next(s, t)) <==> Clean(s, t)
    ensures Clean(s, t) ==> Inv(Next(s, t))
  {
    if Clean(s, t) {
      StepInv(s, t);
      InvSafe(Next(s, t));
    } else if TakesNoneFreed(s, t) {
      var more, i := StrayBreaksCounts(s, t);
    } else {
      var more, i := TakenBreaksCounts(s, t);
    }
  }

  /** Counts are right after every step of the run, and stay so however references are then taken and dropped. */
  ghost predicate RunSafe(run: Run) {
    CountsSafe(After(FRESH, run)) && (run.Then? ==> RunSafe(run.before))
  }

  /**
    Link counts stay right in a run if and only if it never writes an entry into an
    unlinked directory and never takes up an inode whose iput is under way.
   */
  lemma {:induction false} RunSafeIff(run: Run)
    ensures RunSafe(run) <==> AllClean(FRESH, run)
  {
    match run
    case Start =>
      FreshInv();
      InvSafe(FRESH);
    case Then(before, t) =>
      RunSafeIff(before);
      if AllClean(FRESH, before) {
        RunInv(before);
        StepCountsIff(After(FRESH, before), t);
      }
  }

  /** mkdir d; unlink d while it is open; create f in it. */
  const STRAY := Then(Then(Then(Start, Create(ROOT, "d", DIR, 2)), Unlink(ROOT, "d")), Create(2, "f", FILE, 3))

  lemma FindTwo(ents: seq<Dirent>, name: string)
    requires |ents| >= 2 && ents[0].name == "." && ents[1].name == ".." && name != "." && name != ".."
    ensures Find(ents, name, 0) == Find(ents, name, 2)
  {
    assert Find(ents, name, 0) == Find(ents, name, 1);
  }

  const DOTS := [Dirent(ROOT, "."), Dirent(ROOT, "..")]

  /** After the first step: d is inode 2, open. */
  const MADE :=
    FS(map[ROOT := Inode(DIR, 2, DOTS + [Dirent(2, "d")]), 2 := Inode(DIR, 1, [Dirent(2, "."), Dirent(ROOT, "..")])],
       multiset{2}, multiset{}, {2}, {})

  /** After the second: d is unlinked, its slot in the root is free. */
  const UNLINKED :=
    FS(map[ROOT := Inode(DIR, 1, DOTS + [Dirent(0, "")]), 2 := Inode(DIR, 0, [Dirent(2, "."), Dirent(ROOT, "..")])],
       multiset{2}, multiset{}, {2}, {})

  lemma StrayMade()
    ensures Next(FRESH, Create(ROOT, "d", DIR, 2)) == MADE
  {
    FindTwo(DOTS, "d");
    assert FreeSlot(DOTS, 0) == FreeSlot(DOTS, 1) == FreeSlot(DOTS, 2) == 2;
    var s := Next(FRESH, Create(ROOT, "d", DIR, 2));
    assert s.inodes[ROOT] == MADE.inodes[ROOT] && s.inodes[2] == MADE.inodes[2];
    assert s.inodes == MADE.inodes;
  }

  lemma StrayUnlinked()
    ensures Next(MADE, Unlink(ROOT, "d")) == UNLINKED
  {
    var ents := DOTS + [Dirent(2, "d")];
    FindTwo(ents, "d");
    assert Find(ents, "d", 2) == 2;
    assert ents[2 := Dirent(0, "")] == DOTS + [Dirent(0, "")];
    assert Enabled(MADE, Unlink(ROOT, "d"));
    var s := Next(MADE, Unlink(ROOT, "d"));
    assert s.inodes[ROOT] == UNLINKED.inodes[ROOT] && s.inodes[2] == UNLINKED.inodes[2];
    assert s.inodes == UNLINKED.inodes;
  }

  /** A run from a new file system that ends with a count that is wrong: f keeps its link though no entry is left. */
  lemma StrayFileMiscounted()
    ensures !AllClean(FRESH, STRAY)
    ensures exists more: Run :: OnlyRefs(more) && !CountOk(After(After(FRESH, STRAY), more), 3)
  {
    StrayReached();
    StrayWritesF();
    RunInv(STRAY.before);
    var more := StrayFileMiscounts(UNLINKED, STRAY.t);
    assert After(FRESH, STRAY) == Next(UNLINKED, STRAY.t);
  }

  lemma StrayWritesF()
    ensures Writes(UNLINKED, STRAY.t) && !IntoLinked(UNLINKED, STRAY.t) && TakesNoneFreed(UNLINKED, STRAY.t)
    ensures UNLINKED.inodes[2].nlink == 0
  {
    FindTwo(UNLINKED.inodes[2].ents, "f");
    assert Spare(UNLINKED, 2);
  }

  lemma StrayReached()
    ensures After(FRESH, STRAY.before) == UNLINKED && AllClean(FRESH, STRAY.before)
  {
    StrayMade();
    StrayUnlinked();
    var first := Then(Start, Create(ROOT, "d", DIR, 2));
    assert After(FRESH, Start) == FRESH && AllClean(FRESH, Start);
    assert After(FRESH, first) == MADE && AllClean(FRESH, first);
  }

  /** Create f; unlink it while it is open; close it, and before that is done create g. */
  const TAKING :=
    Then(Then(Then(Then(Then(Start, Create(ROOT, "f", FILE, 2)), Unlink(ROOT, "f")), Iput(2)), Erase(2)), Create(ROOT, "g", FILE, 2))

  /** The close is done, and h is created: ialloc finds the number of g free. */
  const TWICE := Then(Then(TAKING, IputEnd(2)), Create(ROOT, "h", FILE, 2))

  const OPEN_F :=
    FS(map[ROOT := Inode(DIR, 1, DOTS + [Dirent(2, "f")]), 2 := Inode(FILE, 1, [])], multiset{2}, multiset{}, {2}, {})

  const NAMELESS :=
    FS(map[ROOT := Inode(DIR, 1, DOTS + [Dirent(0, "")]), 2 := Inode(FILE, 0, [])], multiset{2}, multiset{}, {2}, {})

  const ERASED := FS(map[ROOT := Inode(DIR, 1, DOTS + [Dirent(0, "")])], multiset{2}, multiset{}, {2}, {2})

  const TAKEN := FS(map[ROOT := Inode(DIR, 1, DOTS + [Dirent(2, "g")])], multiset{2, 2}, multiset{}, {2}, {2})

  const CLOSED := FS(map[ROOT := Inode(DIR, 1, DOTS + [Dirent(2, "g")])], multiset{2}, multiset{}, {}, {})

  lemma OpenF()
    ensures Next(FRESH, Create(ROOT, "f", FILE, 2)) == OPEN_F
  {
    FindTwo(DOTS, "f");
    assert FreeSlot(DOTS, 0) == FreeSlot(DOTS, 1) == FreeSlot(DOTS, 2) == 2;
    var s := Next(FRESH, Create(ROOT, "f", FILE, 2));
    assert s.inodes[ROOT] == OPEN_F.inodes[ROOT] && s.inodes[2] == OPEN_F.inodes[2];
    assert s.inodes == OPEN_F.inodes;
  }

  lemma UnlinkF()
    ensures Next(OPEN_F, Unlink(ROOT, "f")) == NAMELESS
  {
    var ents := DOTS + [Dirent(2, "f")];
    FindTwo(ents, "f");
    assert Find(ents, "f", 2) == 2;
    assert ents[2 := Dirent(0, "")] == DOTS + [Dirent(0, "")];
    assert Enabled(OPEN_F, Unlink(ROOT, "f"));
    var s := Next(OPEN_F, Unlink(ROOT, "f"));
    assert s.inodes[ROOT] == NAMELESS.inodes[ROOT] && s.inodes[2] == NAMELESS.inodes[2];
    assert s.inodes == NAMELESS.inodes;
  }

  lemma EraseF()
    ensures Next(Next(NAMELESS, Iput(2)), Erase(2)) == ERASED
  {
    var s := Next(NAMELESS, Iput(2));
    assert s == NAMELESS.(freeing := {2});
    assert s.inodes - {2} == ERASED.inodes;
  }

  lemma TakeG()
    ensures Enabled(ERASED, Create(ROOT, "g", FILE, 2)) && Next(ERASED, Create(ROOT, "g", FILE, 2)) == TAKEN
  {
    var ents := DOTS + [Dirent(0, "")];
    FindTwo(ents, "g");
    assert Find(ents, "g", 2) == Find(ents, "g", 3) == -1;
    assert FreeSlot(ents, 0) == FreeSlot(ents, 1) == FreeSlot(ents, 2) == 2;
    assert ents[2 := Dirent(2, "g")] == DOTS + [Dirent(2, "g")];
    var s := Next(ERASED, Create(ROOT, "g", FILE, 2));
    assert s.inodes[ROOT] == TAKEN.inodes[ROOT] && s.inodes == TAKEN.inodes;
    assert s.refs == TAKEN.refs;
  }

  /** A run from a new file system, into no unlinked directory, that ends with a name for a free inode. */
  lemma TakenNamesFree()
    ensures AllClean(FRESH, TAKING.before) && !TakesNoneFreed(After(FRESH, TAKING.before), TAKING.t)
    ensures IntoLinked(After(FRESH, TAKING.before), TAKING.t)
    ensures After(FRESH, TAKING) == TAKEN && Names(TAKEN, Slot(ROOT, 2), 2) && 2 !in TAKEN.inodes
  {
    ErasedReached();
    TakeG();
  }

  lemma NamelessReached()
    ensures var gone := TAKING.before.before.before;
            After(FRESH, gone) == NAMELESS && AllClean(FRESH, gone)
  {
    OpenF();
    UnlinkF();
    var made := Then(Start, Create(ROOT, "f", FILE, 2));
    assert After(FRESH, Start) == FRESH && AllClean(FRESH, Start);
    assert After(FRESH, made) == OPEN_F && AllClean(FRESH, made);
  }

  lemma ErasedReached()
    ensures After(FRESH, TAKING.before) == ERASED && AllClean(FRESH, TAKING.before)
  {
    NamelessReached();
    EraseF();
    assert AllClean(FRESH, TAKING.before.before);
  }

  lemma CloseF()
    ensures Next(TAKEN, IputEnd(2)) == CLOSED
  {
    assert TAKEN.refs - multiset{2} == CLOSED.refs;
  }

  lemma CreateH()
    ensures var e := Next(CLOSED, Create(ROOT, "h", FILE, 2));
            && e.inodes == map[ROOT := Inode(DIR, 1, DOTS + [Dirent(2, "g"), Dirent(2, "h")]), 2 := Inode(FILE, 1, [])]
  {
    var ents := DOTS + [Dirent(2, "g")];
    FindTwo(ents, "h");
    assert Find(ents, "h", 2) == Find(ents, "h", 3) == -1;
    assert FreeSlot(ents, 0) == FreeSlot(ents, 1) == FreeSlot(ents, 2) == FreeSlot(ents, 3) == 3;
    assert ents + [Dirent(2, "h")] == DOTS + [Dirent(2, "g"), Dirent(2, "h")];
    assert Enabled(CLOSED, Create(ROOT, "h", FILE, 2));
  }

  /** And then two names for one inode whose count is one. */
  lemma TwoNamesOneLink()
    ensures var e := After(FRESH, TWICE);
            && Names(e, Slot(ROOT, 2), 2) && Names(e, Slot(ROOT, 3), 2) && 2 in e.inodes && e.inodes[2].nlink == 1
  {
    TakenNamesFree();
    CloseF();
    CreateH();
    assert After(FRESH, TWICE.before) == CLOSED;
  }

  // ----- the code -----

  lemma UnlinkedNames(s: FS, dp: int, name: string)
    ensures NamesOk(s) ==> NamesOk(Next(s, Unlink(dp, name)))
    ensures NamesOk(s) && Enabled(s, Unlink(dp, name)) ==>
              var s' := Next(s, Unlink(dp, name));
              Lookup(s', dp, name) == 0 && OthersLead(s, s', dp, name, 0)
  {
    if NamesOk(s) {
      NamesStep(s, Unlink(dp, name));
      if Enabled(s, Unlink(dp, name)) {
        UnlinkLookup(s, dp, name);
      }
    }
  }

  lemma CreatedNames(s: FS, dp: int, name: string, kind: Kind, inum: int)
    requires Inv(s)
    ensures NamesOk(s) ==> NamesOk(Next(s, Create(dp, name, kind, inum)))
    ensures Enabled(s, Create(dp, name, kind, inum)) && !(inum in s.valid && kind.DIR?) ==>
              var s' := Next(s, Create(dp, name, kind, inum));
              && Lookup(s', dp, name) == inum && OthersLead(s, s', dp, name, inum)
              && (kind.DIR? ==> Lookup(s', inum, ".") == inum && Lookup(s', inum, "..") == dp)
              && (inum !in s.valid ==> inum in s'.inodes && s'.inodes[inum].kind == kind && s'.inodes[inum].nlink == 1)
  {
    assert ShapeOk(s, dp);
    if NamesOk(s) {
      NamesStep(s, Create(dp, name, kind, inum));
    }
    if Enabled(s, Create(dp, name, kind, inum)) && !(inum in s.valid && kind.DIR?) {
      CreateLookup(s, dp, name, kind, inum);
    }
  }

  lemma LinkedNames(s: FS, ip: int, dp: int, name: string)
    requires Inv(s)
    ensures NamesOk(s) ==> NamesOk(Next(s, LinkEnd(ip, dp, name)))
    ensures Writes(s, LinkEnd(ip, dp, name)) ==>
              var s' := Next(s, LinkEnd(ip, dp, name));
              Lookup(s', dp, name) == ip && OthersLead(s, s', dp, name, 0)
    ensures Enabled(s, LinkEnd(ip, dp, name)) && !Enters(s, dp, name) ==> Listed(s, Next(s, LinkEnd(ip, dp, name)))
  {
    assert ShapeOk(s, ip);
    if NamesOk(s) {
      NamesStep(s, LinkEnd(ip, dp, name));
    }
    if Writes(s, LinkEnd(ip, dp, name)) {
      LinkLookup(s, ip, dp, name);
    } else if Enabled(s, LinkEnd(ip, dp, name)) {
      NotEntered(s, ip, dp, name);
    }
  }

  /** What `create` comes back with: the panics of `ialloc` and `dirlookup`, null, the file that was there, or the new inode. */
  datatype Created = NoInodes | NotADir | Refused | Found(ip: int) | Made(ip: int)

  /** The inodes and the directory contents, changed in place by the system calls. */
  class Files {
    var fs: FS

    /** An empty file system. */
    constructor ()
      ensures fs == FRESH && Inv(fs)
    {
      fs := FRESH;
      FreshInv();
    }

    /**
      The first critical section of `iput`. If the inode is to be freed, the
      caller goes on with `Erase` and `IputEnd`; anybody may come in between.
     */
    method Iput(ip: int) returns (frees: bool)
      requires Inv(fs) && Spare(fs, ip)
      modifies this
      ensures fs == Next(old(fs), Step.Iput(ip)) && Inv(fs)
      ensures frees <==> ip in old(fs).inodes && old(fs).refs[ip] == 1 && old(fs).inodes[ip].nlink == 0
      ensures fs.inodes == old(fs).inodes && fs.freeing == old(fs).freeing + if frees then {ip} else {}
    {
      StepInv(fs, Step.Iput(ip));
      assert RefOk(fs, ip);
      frees := PutLast(ip);
    }

    /** The test and the decrement, for whoever holds the reference. */
    method PutLast(ip: int) returns (frees: bool)
      modifies this
      ensures fs == PutDown(old(fs), ip)
      ensures frees <==> ip in old(fs).inodes && old(fs).refs[ip] == 1 && ip in old(fs).valid && old(fs).inodes[ip].nlink == 0
    {
      frees := fs.refs[ip] == 1 && ip in fs.valid && ip in fs.inodes && fs.inodes[ip].nlink == 0;
      if frees {
        fs := fs.(freeing := fs.freeing + {ip});
      } else {
        fs := fs.(refs := fs.refs - multiset{ip}, valid := if fs.refs[ip] <= 1 then fs.valid - {ip} else fs.valid);
      }
    }

    /** `itrunc`, type 0, `iupdate`, with no lock held: the number is free on disk, the cached copy still valid. */
    method Erase(ip: int)
      requires Inv(fs) && ip in fs.freeing && ip in fs.inodes
      modifies this
      ensures fs == Next(old(fs), Step.Erase(ip)) && Inv(fs)
      ensures ip !in fs.inodes && ip in fs.valid && fs.inodes == old(fs).inodes - {ip}
    {
      StepInv(fs, Step.Erase(ip));
      assert RefOk(fs, ip);
      fs := fs.(inodes := fs.inodes - {ip});
    }

    /** The second critical section. */
    method IputEnd(ip: int)
      requires Inv(fs) && ip in fs.freeing && ip !in fs.inodes
      modifies this
      ensures fs == Next(old(fs), Step.IputEnd(ip)) && Inv(fs)
      ensures ip !in fs.valid && fs.refs[ip] + 1 == old(fs).refs[ip]
    {
      StepInv(fs, Step.IputEnd(ip));
      assert RefOk(fs, ip);
      fs := fs.(refs := fs.refs - multiset{ip}, valid := fs.valid - {ip}, freeing := fs.freeing - {ip});
    }

    /** `sys_unlink` of `name` in the directory `dp` that its path led to, up to the first half of its last `iput`. */
    method SysUnlink(dp: int, name: string) returns (r: int, frees: bool)
      requires Inv(fs) && Reachable(fs, dp)
      modifies this
      ensures fs == Next(old(fs), Unlink(dp, name)) && Inv(fs)
      ensures r == if Enabled(old(fs), Unlink(dp, name)) then 0 else -1
      ensures r == 0 && NamesOk(old(fs)) ==> Lookup(fs, dp, name) == 0 && OthersLead(old(fs), fs, dp, name, 0)
      ensures r == -1 ==> fs == old(fs)
      ensures NamesOk(old(fs)) ==> NamesOk(fs)
    {
      StepInv(fs, Unlink(dp, name));
      UnlinkedNames(fs, dp, name);
      frees := false;
      if dp !in fs.inodes || fs.inodes[dp].kind != DIR || name == "." || name == ".." {
        return -1, false;
      }
      var off := DirLookup(fs.inodes[dp].ents, name);
      if off == -1 {
        return -1, false;
      }
      var ip := fs.inodes[dp].ents[off].inum;
      EntryAllocated(fs, dp, off);
      if fs.inodes[ip].kind == DIR {
        var empty := IsDirEmpty(fs.inodes[ip].ents);
        if !empty {
          return -1, false;
        }
      }
      var isdir := fs.inodes[ip].kind == DIR;
      fs := SetEnts(fs, dp, fs.inodes[dp].ents[off := Dirent(0, "")]);
      if isdir {
        fs := AddNlink(fs, dp, -1);
      }
      fs := AddNlink(fs, ip, -1);
      fs := Opened(fs, dp, ip);
      frees := PutLast(ip);
      r := 0;
    }

    /**
      `create`: `inum` is the inode that is free on disk and that `ialloc` will find,
      0 for none. The caller gets a reference to the inode. Over a number whose
      `iput` is under way, a directory ends in the panic of `dirlookup`.
     */
    method Create(dp: int, name: string, kind: Kind, inum: int) returns (r: Created)
      requires Inv(fs) && Reachable(fs, dp) && inum !in fs.inodes
      modifies this
      ensures !IsDir(old(fs), dp) ==> r == Refused && fs == old(fs)
      ensures IsDir(old(fs), dp) && Find(old(fs).inodes[dp].ents, name, 0) != -1 ==>
                var ip := old(fs).inodes[dp].ents[Find(old(fs).inodes[dp].ents, name, 0)].inum;
                && Inv(fs)
                && if kind == FILE && ip in old(fs).inodes && old(fs).inodes[ip].kind == FILE
                   then r == Found(ip) && fs == Locked(Next(old(fs), Iget(ip)), ip)
                   else r == Refused && fs == old(fs)
      ensures IsDir(old(fs), dp) && Find(old(fs).inodes[dp].ents, name, 0) == -1 && inum == 0 ==> r == NoInodes && fs == old(fs)
      ensures IsDir(old(fs), dp) && Find(old(fs).inodes[dp].ents, name, 0) == -1 && inum != 0 ==>
                && fs == Next(old(fs), Step.Create(dp, name, kind, inum))
                && r == (if inum in old(fs).freeing && kind == DIR then NotADir else Made(inum))
                && (CountsSafe(fs) <==> old(fs).inodes[dp].nlink != 0 && inum !in old(fs).freeing)
                && (CountsSafe(fs) ==> Inv(fs))
      ensures r.Made? ==>
                && Lookup(old(fs), dp, name) == 0 && Lookup(fs, dp, name) == inum && OthersLead(old(fs), fs, dp, name, inum)
                && (kind == DIR ==> Lookup(fs, inum, ".") == inum && Lookup(fs, inum, "..") == dp)
                && (inum !in old(fs).freeing ==> inum in fs.inodes && fs.inodes[inum].kind == kind && fs.inodes[inum].nlink == 1)
      ensures r.Found? ==> Lookup(old(fs), dp, name) == r.ip && fs.inodes == old(fs).inodes
      ensures NamesOk(old(fs)) ==> NamesOk(fs)
    {
      CreatedNames(fs, dp, name, kind, inum);
      StepCountsIff(fs, Step.Create(dp, name, kind, inum));
      assert RefOk(fs, inum);
      if dp !in fs.inodes || fs.inodes[dp].kind != DIR {
        return Refused;
      }
      var off := DirLookup(fs.inodes[dp].ents, name);
      if off != -1 {
        r := Existing(dp, off, kind);
        return;
      }
      if inum == 0 {
        return NoInodes;
      }
      if inum in fs.valid {
        r := CreateStale(dp, name, kind, inum);
        return;
      }
      r := CreateNew(dp, name, kind, inum);
    }

    /** The rest of `create` with a number that is not cached. */
    method CreateNew(dp: int, name: string, kind: Kind, inum: int) returns (r: Created)
      requires IsDir(fs, dp) && Find(fs.inodes[dp].ents, name, 0) == -1 && inum != dp
      modifies this
      ensures fs == CreateNext(old(fs), dp, name, kind, inum) && r == Made(inum)
    {
      fs := fs.(inodes := fs.inodes[inum := NewInode(inum, dp, kind)], refs := fs.refs + multiset{inum}, valid := fs.valid + {inum});
      if kind == DIR {
        fs := AddNlink(fs, dp, 1);
      }
      var linked, ents := DirLink(fs.inodes[dp].ents, name, inum);
      fs := Locked(SetEnts(fs, dp, ents), dp);
      r := Made(inum);
    }

    /** The name is there: its file, for a file. */
    method Existing(dp: int, off: int, kind: Kind) returns (r: Created)
      requires Inv(fs) && IsDir(fs, dp) && 0 <= off < |fs.inodes[dp].ents| && fs.inodes[dp].ents[off].inum != 0
      modifies this
      ensures var ip := old(fs).inodes[dp].ents[off].inum;
              && Inv(fs)
              && if kind == FILE && ip in old(fs).inodes && old(fs).inodes[ip].kind == FILE
                 then r == Found(ip) && fs == Locked(Next(old(fs), Iget(ip)), ip)
                 else r == Refused && fs == old(fs)
    {
      var ip := fs.inodes[dp].ents[off].inum;
      if kind == FILE && ip in fs.inodes && fs.inodes[ip].kind == FILE {
        assert Holds(fs, Slot(dp, off), ip) && RefOk(fs, ip);
        StepInv(fs, Iget(ip));
        StepInv(Next(fs, Iget(ip)), Ilock(ip));
        fs := fs.(refs := fs.refs + multiset{ip});
        fs := Locked(fs, ip);
        return Found(ip);
      }
      return Refused;
    }

    /** The rest of `create` with a cached copy of type 0. */
    method CreateStale(dp: int, name: string, kind: Kind, inum: int) returns (r: Created)
      requires IsDir(fs, dp) && Find(fs.inodes[dp].ents, name, 0) == -1
      modifies this
      ensures fs == CreateOver(old(fs), dp, name, kind, inum)
      ensures r == if kind == DIR then NotADir else Made(inum)
    {
      fs := fs.(refs := fs.refs + multiset{inum});
      if kind == DIR {
        fs := Locked(AddNlink(fs, dp, 1), dp);
        return NotADir;
      }
      var linked, ents := DirLink(fs.inodes[dp].ents, name, inum);
      fs := Locked(SetEnts(fs, dp, ents), dp);
      r := Made(inum);
    }

    /** The first half of `sys_link`: refuse directories, else raise the count. */
    method LinkRaise(ip: int) returns (r: int)
      requires Inv(fs) && ip in fs.inodes && Reachable(fs, ip)
      modifies this
      ensures fs == Next(old(fs), LinkBegin(ip))
      ensures r == if old(fs).inodes[ip].kind == DIR then -1 else 0
      ensures CountsSafe(fs) <==> ip !in old(fs).freeing || old(fs).inodes[ip].kind == DIR
      ensures CountsSafe(fs) ==> Inv(fs)
    {
      StepCountsIff(fs, LinkBegin(ip));
      assert ShapeOk(fs, ip);
      if fs.inodes[ip].kind == DIR {
        return -1;
      }
      fs := Locked(fs.(linking := fs.linking + multiset{ip}, refs := fs.refs + multiset{ip}), ip);
      fs := AddNlink(fs, ip, 1);
      r := 0;
    }

    /** The second half: write the entry, or take the count back; then the first half of `iput`. */
    method LinkEnter(ip: int, dp: int, name: string) returns (r: int, frees: bool)
      requires Inv(fs) && fs.linking[ip] > 0 && Reachable(fs, dp)
      modifies this
      ensures fs == Next(old(fs), LinkEnd(ip, dp, name))
      ensures r == if Writes(old(fs), LinkEnd(ip, dp, name)) then 0 else -1
      ensures CountsSafe(fs) <==> IntoLinked(old(fs), LinkEnd(ip, dp, name))
      ensures IntoLinked(old(fs), LinkEnd(ip, dp, name)) ==> Inv(fs)
      ensures r == 0 ==> Lookup(fs, dp, name) == ip && OthersLead(old(fs), fs, dp, name, 0)
      ensures r == -1 ==> Listed(old(fs), fs)
      ensures NamesOk(old(fs)) ==> NamesOk(fs)
    {
      LinkedNames(fs, ip, dp, name);
      StepCountsIff(fs, LinkEnd(ip, dp, name));
      assert RefOk(fs, ip);
      r := -1;
      fs := fs.(linking := fs.linking - multiset{ip});
      if dp in fs.inodes && fs.inodes[dp].kind == DIR {
        var ents;
        r, ents := DirLink(fs.inodes[dp].ents, name, ip);
        if r == 0 {
          fs := Locked(SetEnts(fs, dp, ents), dp);
          frees := PutLast(ip);
          return;
        }
      }
      fs := Locked(AddNlink(fs, ip, -1), ip);
      frees := PutLast(ip);
    }
  }

  /** An entry that `dirlookup` can find, other than a dot, is for an inode that exists. */
  lemma EntryAllocated(s: FS, d: int, k: int)
    requires Inv(s) && IsDir(s, d) && 0 <= k < |s.inodes[d].ents| && s.inodes[d].ents[k].inum != 0
    requires s.inodes[d].ents[k].name != "." && s.inodes[d].ents[k].name != ".."
    ensures s.inodes[d].ents[k].inum in s.inodes
  {
    var i := s.inodes[d].ents[k].inum;
    assert ShapeOk(s, d) && CountOk(s, i);
    InEntries(s, Slot(d, k), i);
  }
}
