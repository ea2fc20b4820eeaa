/**
  fork, exit, wait and kill on the process table (proc.c:35-90, 156-288,
  427-470). Each method is one critical section under `ptable.lock`, or one
  unlocked write by the process that owns the entry, so `Valid` is what holds
  whenever the lock is free, in any interleaving.
 */
module ProcTable {

  datatype PState = UNUSED | EMBRYO | SLEEPING | RUNNABLE | RUNNING | ZOMBIE

  /** A sleep channel: the address of a process entry (wait), or of anything else. */
  datatype Chan = NoChan | Entry(i: int) | Event(id: int)

  /** `parent` is a table index, or -1 for the null pointer. */
  datatype Proc = Proc(state: PState, pid: int, parent: int, chan: Chan, killed: bool)

  type Table = seq<Proc>

  predicate Alive(x: Proc) { x.state.SLEEPING? || x.state.RUNNABLE? || x.state.RUNNING? }

  // ----- what the critical sections do -----

  function WokenProc(x: Proc, ch: Chan): Proc {
    if x.state.SLEEPING? && x.chan == ch then x.(state := RUNNABLE) else x
  }

  /** `wakeup1`. */
  function Woken(t: Table, ch: Chan): Table {
    seq(|t|, i requires 0 <= i < |t| => WokenProc(t[i], ch))
  }

  predicate ZombieChild(t: Table, me: int, j: int) {
    0 <= j < |t| && t[j].parent == me && t[j].state.ZOMBIE?
  }

  /** The first `k` turns of exit's loop: children go to `init`, which is woken if one is a zombie. */
  function Adopted(t: Table, me: int, init: int, k: int): Table {
    var wake := exists j :: 0 <= j < |t| && j < k && ZombieChild(t, me, j);
    seq(|t|, i requires 0 <= i < |t| =>
      var x := if i < k && t[i].parent == me then t[i].(parent := init) else t[i];
      if wake then WokenProc(x, Entry(init)) else x)
  }

  /** All of exit's critical section. */
  function Exited(t: Table, me: int, init: int): Table
    requires 0 <= me < |t|
  {
    var t1 := Adopted(Woken(t, Entry(t[me].parent)), me, init, |t|);
    t1[me := t1[me].(state := ZOMBIE)]
  }

  /** wait's clean-up of a zombie child. */
  function Reaped(t: Table, j: int): Table
    requires 0 <= j < |t|
  {
    t[j := t[j].(state := UNUSED, pid := 0, parent := -1, killed := false)]
  }

  // ----- the invariant -----

  predicate LiveAt(t: Table, i: int) { 0 <= i < |t| && Alive(t[i]) }

  predicate InUse(t: Table, i: int) { 0 <= i < |t| && !t[i].state.UNUSED? }

  /**
    Every live or zombie process but init has a parent; whoever has a parent is
    in use, and the parent is another, live process.
   */
  predicate Parented(t: Table, init: int, i: int) {
    && (LiveAt(t, i) || (InUse(t, i) && t[i].state.ZOMBIE?) ==> i == init || t[i].parent != -1)
    && (0 <= i < |t| && t[i].parent != -1 ==> InUse(t, i) && t[i].parent != i && LiveAt(t, t[i].parent))
  }

  predicate InWait(t: Table, i: int) {
    0 <= i < |t| && t[i].state.SLEEPING? && t[i].chan == Entry(i)
  }

  /** No process asleep in wait has a zombie child. */
  ghost predicate NoneMissed(t: Table) {
    forall i, j | InWait(t, i) :: !ZombieChild(t, i, j)
  }

  /** A pid in use is below `nextpid`, not among those reaped, and no other entry's. */
  predicate PidOk(t: Table, nextpid: int, reaped: set<int>, i: int) {
    InUse(t, i) ==> 1 <= t[i].pid < nextpid && t[i].pid !in reaped
  }

  predicate Differ(t: Table, i: int, j: int) {
    InUse(t, i) && InUse(t, j) && i != j ==> t[i].pid != t[j].pid
  }

  ghost predicate Pids(t: Table, nextpid: int, reaped: set<int>) {
    && (forall i :: PidOk(t, nextpid, reaped, i))
    && (forall i, j :: Differ(t, i, j))
    && (forall p | p in reaped :: p < nextpid)
  }

  /** No entry that is not in use is marked killed. */
  ghost predicate UnusedClean(t: Table) { forall i | 0 <= i < |t| && t[i].state.UNUSED? :: !t[i].killed }

  ghost predicate Family(t: Table, init: int) {
    && LiveAt(t, init) && t[init].parent == -1
    && (forall i :: Parented(t, init, i))
    && NoneMissed(t)
  }

  // ----- it is kept -----

  /** Same pids in use, none new. */
  lemma PidsKept(t: Table, t': Table, nextpid: int, reaped: set<int>)
    requires Pids(t, nextpid, reaped) && |t'| == |t|
    requires forall i | 0 <= i < |t| :: t'[i].pid == t[i].pid && (InUse(t', i) ==> InUse(t, i))
    ensures Pids(t', nextpid, reaped)
  {
    forall i
      ensures PidOk(t', nextpid, reaped, i)
    {
      assert PidOk(t, nextpid, reaped, i);
    }
    forall i, j
      ensures Differ(t', i, j)
    {
      assert Differ(t, i, j);
    }
  }

  /** Waking a process, or marking it runnable or running, takes nothing from the family. */
  lemma FamilyKept(t: Table, t': Table, init: int)
    requires Family(t, init) && |t'| == |t|
    requires forall i | 0 <= i < |t| ::
               && t'[i].parent == t[i].parent && (InWait(t', i) ==> InWait(t, i))
               && (t'[i].state == t[i].state || (Alive(t[i]) && Alive(t'[i])))
    ensures Family(t', init)
  {
    forall i
      ensures Parented(t', init, i)
    {
      assert Parented(t, init, i);
    }
    forall i, j | InWait(t', i)
      ensures !ZombieChild(t', i, j)
    {
      assert InWait(t, i) && !ZombieChild(t, i, j);
    }
  }

  lemma AdoptedFamily(t: Table, me: int, init: int)
    requires Family(t, init) && 0 <= me < |t| && me != init
    ensures Family(Adopted(t, me, init, |t|), init)
    ensures forall i | 0 <= i < |t| :: Adopted(t, me, init, |t|)[i].parent != me
  {
    var t' := Adopted(t, me, init, |t|);
    forall i
      ensures Parented(t', init, i)
    {
      assert Parented(t, init, i);
    }
    forall i, j | InWait(t', i)
      ensures !ZombieChild(t', i, j)
    {
      assert InWait(t, i) && !ZombieChild(t, i, j);
      assert 0 <= j < |t| && t[j].parent == me && t[j].state.ZOMBIE? ==> ZombieChild(t, me, j);
    }
  }

  /** Once its parent is awake and its children are gone, a process can become a zombie. */
  lemma ZombieFamily(t: Table, me: int, init: int)
    requires Family(t, init) && LiveAt(t, me) && me != init
    requires !InWait(t, t[me].parent) && forall i | 0 <= i < |t| :: t[i].parent != me
    ensures Family(t[me := t[me].(state := ZOMBIE)], init)
  {
    var t' := t[me := t[me].(state := ZOMBIE)];
    forall i
      ensures Parented(t', init, i)
    {
      assert Parented(t, init, i);
    }
    forall i, j | InWait(t', i)
      ensures !ZombieChild(t', i, j)
    {
      assert InWait(t, i) && !ZombieChild(t, i, j);
    }
  }

  lemma ExitedOk(t: Table, me: int, init: int, nextpid: int, reaped: set<int>)
    requires Family(t, init) && Pids(t, nextpid, reaped) && LiveAt(t, me) && me != init
    ensures Family(Exited(t, me, init), init) && Pids(Exited(t, me, init), nextpid, reaped)
  {
    var t0 := Woken(t, Entry(t[me].parent));
    FamilyKept(t, t0, init);
    AdoptedFamily(t0, me, init);
    var t1 := Adopted(t0, me, init, |t|);
    assert Parented(t, init, me);
    assert t1[me].parent == t[me].parent;
    ZombieFamily(t1, me, init);
    PidsKept(t, Exited(t, me, init), nextpid, reaped);
  }

  /** An exit is never missed: the parent has the zombie to collect and is not asleep in wait. */
  lemma ExitIsSeen(t: Table, me: int, init: int, nextpid: int, reaped: set<int>)
    requires Family(t, init) && Pids(t, nextpid, reaped) && LiveAt(t, me) && me != init
    ensures var t' := Exited(t, me, init);
            ZombieChild(t', t[me].parent, me) && LiveAt(t', t[me].parent) && !InWait(t', t[me].parent)
  {
    ExitedOk(t, me, init, nextpid, reaped);
    assert Parented(t, init, me) && Parented(Exited(t, me, init), init, me);
  }

  lemma ReapedOk(t: Table, me: int, j: int, init: int, nextpid: int, reaped: set<int>)
    requires Family(t, init) && Pids(t, nextpid, reaped) && ZombieChild(t, me, j)
    ensures Family(Reaped(t, j), init) && Pids(Reaped(t, j), nextpid, reaped + {t[j].pid})
    ensures t[j].pid !in reaped
  {
    var t' := Reaped(t, j);
    forall i
      ensures Parented(t', init, i)
    {
      assert Parented(t, init, i);
    }
    forall i, k | InWait(t', i)
      ensures !ZombieChild(t', i, k)
    {
      assert InWait(t, i) && !ZombieChild(t, i, k);
    }
    assert PidOk(t, nextpid, reaped, j);
    forall i
      ensures PidOk(t', nextpid, reaped + {t[j].pid}, i)
    {
      assert PidOk(t, nextpid, reaped, i) && Differ(t, i, j);
    }
    forall i, k
      ensures Differ(t', i, k)
    {
      assert Differ(t, i, k);
    }
  }

  /** A new process takes an unused entry and a pid nobody has. */
  lemma AllocatedOk(t: Table, slot: int, init: int, nextpid: int, reaped: set<int>)
    requires Family(t, init) && Pids(t, nextpid, reaped) && 0 <= slot < |t| && t[slot].state.UNUSED? && 1 <= nextpid
    ensures var t' := t[slot := t[slot].(state := EMBRYO, pid := nextpid)];
            Family(t', init) && Pids(t', nextpid + 1, reaped)
  {
    var t', next' := t[slot := t[slot].(state := EMBRYO, pid := nextpid)], nextpid + 1;
    forall i
      ensures Parented(t', init, i)
    {
      assert Parented(t, init, i);
    }
    forall i
      ensures PidOk(t', next', reaped, i)
    {
      assert PidOk(t, nextpid, reaped, i) && nextpid !in reaped;
    }
    forall i, j
      ensures Differ(t', i, j)
    {
      assert Differ(t, i, j) && PidOk(t, nextpid, reaped, i) && PidOk(t, nextpid, reaped, j);
    }
    forall i, j | InWait(t', i)
      ensures !ZombieChild(t', i, j)
    {
      assert InWait(t, i) && !ZombieChild(t, i, j);
    }
  }

  /** An entry under construction: given a parent, made runnable, or given up. */
  lemma EmbryoOk(t: Table, np: int, x: Proc, init: int, nextpid: int, reaped: set<int>)
    requires Family(t, init) && Pids(t, nextpid, reaped) && 0 <= np < |t| && t[np].state.EMBRYO? && x.pid == t[np].pid
    requires x.state.EMBRYO? || x.state.RUNNABLE? || (x.state.UNUSED? && x.parent == -1)
    requires x.parent == -1 || (x.parent != np && LiveAt(t, x.parent))
    requires x.state.RUNNABLE? ==> x.parent != -1
    ensures Family(t[np := x], init) && Pids(t[np := x], nextpid, reaped)
  {
    var t' := t[np := x];
    PidsKept(t, t', nextpid, reaped);
    forall i
      ensures Parented(t', init, i)
    {
      assert Parented(t, init, i);
    }
    forall i, j | InWait(t', i)
      ensures !ZombieChild(t', i, j)
    {
      assert InWait(t, i) && !ZombieChild(t, i, j);
    }
  }

  /** Going to sleep in wait is safe only when no child is a zombie. */
  lemma SleptOk(t: Table, me: int, ch: Chan, init: int, nextpid: int, reaped: set<int>)
    requires Family(t, init) && Pids(t, nextpid, reaped) && LiveAt(t, me)
    requires ch == Entry(me) ==> forall j :: !ZombieChild(t, me, j)
    ensures var t' := t[me := t[me].(state := SLEEPING, chan := ch)];
            Family(t', init) && Pids(t', nextpid, reaped)
  {
    var t' := t[me := t[me].(state := SLEEPING, chan := ch)];
    PidsKept(t, t', nextpid, reaped);
    forall i
      ensures Parented(t', init, i)
    {
      assert Parented(t, init, i);
    }
    forall i, j | InWait(t', i)
      ensures !ZombieChild(t', i, j)
    {
      assert i == me || InWait(t, i);
      assert !ZombieChild(t, i, j);
    }
  }

  lemma RunStateOk(t: Table, i: int, x: Proc, init: int, nextpid: int, reaped: set<int>)
    requires Family(t, init) && Pids(t, nextpid, reaped) && LiveAt(t, i)
    requires x.parent == t[i].parent && x.pid == t[i].pid && (x.state.RUNNABLE? || x.state.RUNNING?)
    ensures Family(t[i := x], init) && Pids(t[i := x], nextpid, reaped)
  {
    FamilyKept(t, t[i := x], init);
    PidsKept(t, t[i := x], nextpid, reaped);
  }

  /** Exit wakes whoever waits for a child of the parent's, and of init if it leaves a zombie to it. */
  ghost predicate RousedByExit(t: Table, me: int, init: int, ch: Chan)
    requires 0 <= me < |t|
  {
    ch == Entry(t[me].parent) || (ch == Entry(init) && exists j :: ZombieChild(t, me, j))
  }

  lemma ExitedFields(t: Table, me: int, init: int)
    requires 0 <= me < |t|
    ensures |Exited(t, me, init)| == |t|
    ensures forall i | 0 <= i < |t| ::
              var x := Exited(t, me, init)[i];
              && x.pid == t[i].pid && x.chan == t[i].chan && x.killed == t[i].killed
              && x.parent == (if t[i].parent == me then init else t[i].parent)
              && x.state == if i == me then ZOMBIE
                            else if t[i].state == SLEEPING && RousedByExit(t, me, init, t[i].chan) then RUNNABLE else t[i].state
  {
    var t1 := Woken(t, Entry(t[me].parent));
    assert forall j :: ZombieChild(t1, me, j) <==> ZombieChild(t, me, j);
  }

  // ----- the table and its code -----

  datatype WaitResult =
    | Collected(pid: int)
    | NoneToWaitFor
    | Slept

  class Ptable {
    const proc: array<Proc>
    const initproc: int
    var nextpid: int
    ghost var reaped: set<int>
    /** Kill has named an entry that was not in use, or fork has given up an entry that was marked. */
    ghost var stray: bool

    ghost predicate Valid()
      reads this, proc
    {
      Family(proc[..], initproc) && Pids(proc[..], nextpid, reaped) && 1 <= nextpid && (!stray ==> UnusedClean(proc[..]))
    }

    /** The table after `userinit`: init is runnable, nothing else exists. */
    constructor (nproc: int)
      requires 1 <= nproc
      ensures Valid() && fresh(proc) && reaped == {} && !stray && proc.Length == nproc && initproc == 0 && nextpid == 2
      ensures forall i | 0 <= i < nproc ::
                proc[i] == if i == 0 then Proc(RUNNABLE, 1, -1, NoChan, false) else Proc(UNUSED, 0, -1, NoChan, false)
    {
      proc := new Proc[nproc](i => if i == 0 then Proc(RUNNABLE, 1, -1, NoChan, false) else Proc(UNUSED, 0, -1, NoChan, false));
      initproc, nextpid, reaped, stray := 0, 2, {}, false;
    }

    /** Everybody asleep on `ch`, whatever that is, is runnable; nothing else has changed. */
    method Wakeup1(ch: Chan)
      modifies proc
      ensures proc[..] == Woken(old(proc[..]), ch)
      ensures forall i | 0 <= i < proc.Length ::
                proc[i] == if old(proc[i]).state == SLEEPING && old(proc[i]).chan == ch then old(proc[i]).(state := RUNNABLE)
                           else old(proc[i])
    {
      var p := 0;
      while p < proc.Length
        invariant 0 <= p <= proc.Length
        invariant forall i | 0 <= i < p :: proc[i] == WokenProc(old(proc[i]), ch)
        invariant forall i | p <= i < proc.Length :: proc[i] == old(proc[i])
      {
        if proc[p].state == SLEEPING && proc[p].chan == ch {
          proc[p] := proc[p].(state := RUNNABLE);
        }
        p := p + 1;
      }
    }

    /** `wakeup`. */
    method Wakeup(ch: Chan)
      requires Valid()
      modifies proc
      ensures Valid() && proc[..] == Woken(old(proc[..]), ch)
      ensures forall i | 0 <= i < proc.Length ::
                proc[i] == if old(proc[i]).state == SLEEPING && old(proc[i]).chan == ch then old(proc[i]).(state := RUNNABLE)
                           else old(proc[i])
    {
      FamilyKept(proc[..], Woken(proc[..], ch), initproc);
      PidsKept(proc[..], Woken(proc[..], ch), nextpid, reaped);
      Wakeup1(ch);
    }

    /** The first unused entry becomes an embryo with a new pid; -1 if there is none. */
    method AllocProc() returns (slot: int)
      requires Valid()
      modifies proc, `nextpid
      ensures Valid()
      ensures slot == -1 ==> (forall i | 0 <= i < proc.Length :: InUse(old(proc[..]), i)) && nextpid == old(nextpid)
                             && proc[..] == old(proc[..])
      ensures slot != -1 ==> 0 <= slot < proc.Length && old(proc[slot]).state == UNUSED && nextpid == old(nextpid) + 1
                             && (forall i | 0 <= i < slot :: InUse(old(proc[..]), i))
                             && proc[..] == old(proc[..])[slot := old(proc[slot]).(state := EMBRYO, pid := old(nextpid))]
                             && (!stray ==> !proc[slot].killed)
    {
      slot := 0;
      while slot < proc.Length && proc[slot].state != UNUSED
        invariant 0 <= slot <= proc.Length && forall i | 0 <= i < slot :: InUse(proc[..], i)
      {
        slot := slot + 1;
      }
      if slot == proc.Length {
        return -1;
      }
      AllocatedOk(proc[..], slot, initproc, nextpid, reaped);
      proc[slot] := proc[slot].(state := EMBRYO, pid := nextpid);
      nextpid := nextpid + 1;
    }

    /** fork gives up: no kernel stack, or no memory for the copy. */
    method AbandonFork(np: int)
      requires Valid() && 0 <= np < proc.Length && proc[np].state == EMBRYO && proc[np].parent == -1
      modifies proc, `stray
      ensures Valid() && proc[..] == old(proc[..])[np := old(proc[np]).(state := UNUSED)]
      ensures stray <==> old(stray) || old(proc[np]).killed
      ensures old(UnusedClean(proc[..])) ==> (UnusedClean(proc[..]) <==> !old(proc[np]).killed)
    {
      EmbryoOk(proc[..], np, proc[np].(state := UNUSED), initproc, nextpid, reaped);
      stray := stray || proc[np].killed;
      proc[np] := proc[np].(state := UNUSED);
    }

    /** fork sets the parent, without the lock, in the entry it has reserved. */
    method SetParent(np: int, me: int)
      requires Valid() && 0 <= np < proc.Length && proc[np].state == EMBRYO
      requires 0 <= me < proc.Length && proc[me].state == RUNNING
      modifies proc
      ensures Valid() && proc[..] == old(proc[..])[np := old(proc[np]).(parent := me)]
    {
      EmbryoOk(proc[..], np, proc[np].(parent := me), initproc, nextpid, reaped);
      proc[np] := proc[np].(parent := me);
    }

    /** fork makes the child runnable and returns its pid. */
    method FinishFork(np: int) returns (pid: int)
      requires Valid() && 0 <= np < proc.Length && proc[np].state == EMBRYO && proc[np].parent != -1
      modifies proc
      ensures Valid() && proc[..] == old(proc[..])[np := old(proc[np]).(state := RUNNABLE)]
      ensures pid == proc[np].pid && pid !in reaped
    {
      assert Parented(proc[..], initproc, np) && PidOk(proc[..], nextpid, reaped, np);
      EmbryoOk(proc[..], np, proc[np].(state := RUNNABLE), initproc, nextpid, reaped);
      pid := proc[np].pid;
      proc[np] := proc[np].(state := RUNNABLE);
    }

    /** The loop of exit that hands children to init. */
    method Abandon(me: int)
      requires 0 <= initproc < proc.Length
      modifies proc
      ensures proc[..] == Adopted(old(proc[..]), me, initproc, proc.Length)
    {
      ghost var t := proc[..];
      var p := 0;
      assert proc[..] == Adopted(t, me, initproc, 0);
      while p < proc.Length
        invariant 0 <= p <= proc.Length && proc[..] == Adopted(t, me, initproc, p)
      {
        AdoptedNext(t, me, initproc, p);
        if proc[p].parent == me {
          proc[p] := proc[p].(parent := initproc);
          if proc[p].state == ZOMBIE {
            Wakeup1(Entry(initproc));
          }
        }
        p := p + 1;
      }
    }

    /** A process leaves: its parent is woken, its children go to init, and it becomes a zombie. */
    method Exit(me: int) returns (panicked: bool)
      requires Valid() && 0 <= me < proc.Length && proc[me].state == RUNNING
      modifies proc
      ensures Valid() && (panicked <==> me == initproc)
      ensures proc[..] == if panicked then old(proc[..]) else Exited(old(proc[..]), me, initproc)
      ensures forall i | 0 <= i < proc.Length ::
                proc[i].pid == old(proc[i]).pid && proc[i].chan == old(proc[i]).chan && proc[i].killed == old(proc[i]).killed
      ensures !panicked ==> forall i | 0 <= i < proc.Length ::
                && proc[i].parent == (if old(proc[i]).parent == me then initproc else old(proc[i]).parent)
                && proc[i].state == if i == me then ZOMBIE
                                    else if old(proc[i]).state == SLEEPING && RousedByExit(old(proc[..]), me, initproc, old(proc[i]).chan)
                                    then RUNNABLE else old(proc[i]).state
    {
      if me == initproc {
        return true;
      }
      ExitedOk(proc[..], me, initproc, nextpid, reaped);
      ExitedFields(proc[..], me, initproc);
      Wakeup1(Entry(proc[me].parent));
      Abandon(me);
      proc[me] := proc[me].(state := ZOMBIE);
      panicked := false;
    }

    /** One pass of wait: collect the first zombie child, give up, or sleep until a child exits. */
    method Wait(me: int) returns (r: WaitResult)
      requires Valid() && 0 <= me < proc.Length && proc[me].state == RUNNING
      modifies proc, `reaped
      ensures Valid()
      ensures r.Collected? ==>
                exists j :: ZombieChild(old(proc[..]), me, j) && r.pid == old(proc[..])[j].pid
                  && (forall k | 0 <= k < j :: !ZombieChild(old(proc[..]), me, k))
                  && proc[..] == Reaped(old(proc[..]), j) && !proc[j].killed && proc[j].state == UNUSED
                  && forall i | 0 <= i < proc.Length && i != j :: proc[i] == old(proc[i])
      ensures r.Collected? ==> r.pid !in old(reaped) && reaped == old(reaped) + {r.pid}
      ensures !r.Collected? ==> reaped == old(reaped) && forall j :: !ZombieChild(old(proc[..]), me, j)
      ensures r.NoneToWaitFor? ==>
                && proc[..] == old(proc[..])
                && (proc[me].killed || forall j | 0 <= j < proc.Length :: proc[j].parent != me)
      ensures r.Slept? ==>
                && proc[..] == old(proc[..])[me := old(proc[me]).(state := SLEEPING, chan := Entry(me))]
                && !proc[me].killed && exists j :: 0 <= j < proc.Length && old(proc[j]).parent == me
    {
      var havekids := false;
      var p := 0;
      while p < proc.Length
        invariant 0 <= p <= proc.Length && forall k | 0 <= k < p :: !ZombieChild(proc[..], me, k)
        invariant havekids <==> exists j :: 0 <= j < p && proc[j].parent == me
      {
        if proc[p].parent == me {
          havekids := true;
          if proc[p].state == ZOMBIE {
            assert ZombieChild(proc[..], me, p);
            ReapedOk(proc[..], me, p, initproc, nextpid, reaped);
            var pid := proc[p].pid;
            proc[p] := proc[p].(pid := 0, parent := -1, killed := false, state := UNUSED);
            reaped := reaped + {pid};
            return Collected(pid);
          }
        }
        p := p + 1;
      }
      if !havekids || proc[me].killed {
        return NoneToWaitFor;
      }
      SleptOk(proc[..], me, Entry(me), initproc, nextpid, reaped);
      proc[me] := proc[me].(state := SLEEPING, chan := Entry(me));
      r := Slept;
    }

    /** The first entry with this pid is marked killed and, if asleep, woken; -1 if there is none. */
    method Kill(pid: int) returns (r: int)
      requires Valid()
      modifies proc, `stray
      ensures Valid() && (r == 0 || r == -1)
      ensures r == -1 <==> forall i | 0 <= i < proc.Length :: old(proc[i]).pid != pid
      ensures r == -1 ==> proc[..] == old(proc[..])
      ensures r == 0 ==>
                exists i :: 0 <= i < proc.Length && old(proc[i]).pid == pid
                  && (forall k | 0 <= k < i :: old(proc[k]).pid != pid)
                  && proc[..] == old(proc[..])[i := old(proc[i]).(killed := true,
                       state := if old(proc[i]).state == SLEEPING then RUNNABLE else old(proc[i]).state)]
                  && (stray <==> old(stray) || old(proc[i]).state == UNUSED)
                  && (old(UnusedClean(proc[..])) ==> (UnusedClean(proc[..]) <==> old(proc[i]).state != UNUSED))
      ensures r == -1 ==> stray == old(stray)
    {
      var p := 0;
      while p < proc.Length && proc[p].pid != pid
        invariant 0 <= p <= proc.Length && forall k | 0 <= k < p :: proc[k].pid != pid
      {
        p := p + 1;
      }
      if p == proc.Length {
        return -1;
      }
      ghost var x := proc[p].(killed := true, state := if proc[p].state == SLEEPING then RUNNABLE else proc[p].state);
      FamilyKept(proc[..], proc[..][p := x], initproc);
      PidsKept(proc[..], proc[..][p := x], nextpid, reaped);
      stray := stray || proc[p].state == UNUSED;
      proc[p] := proc[p].(killed := true);
      if proc[p].state == SLEEPING {
        proc[p] := proc[p].(state := RUNNABLE);
      }
      assert proc[..] == old(proc[..])[p := x];
      r := 0;
    }

    /** The scheduler runs a runnable process. */
    method Schedule(i: int)
      requires Valid() && 0 <= i < proc.Length && proc[i].state == RUNNABLE
      modifies proc
      ensures Valid() && proc[..] == old(proc[..])[i := old(proc[i]).(state := RUNNING)]
    {
      RunStateOk(proc[..], i, proc[i].(state := RUNNING), initproc, nextpid, reaped);
      proc[i] := proc[i].(state := RUNNING);
    }

    /** `yield`. */
    method Yield(i: int)
      requires Valid() && 0 <= i < proc.Length && proc[i].state == RUNNING
      modifies proc
      ensures Valid() && proc[..] == old(proc[..])[i := old(proc[i]).(state := RUNNABLE)]
    {
      RunStateOk(proc[..], i, proc[i].(state := RUNNABLE), initproc, nextpid, reaped);
      proc[i] := proc[i].(state := RUNNABLE);
    }

    /** `sleep` on anything but a process entry. */
    method SleepOn(i: int, id: int)
      requires Valid() && 0 <= i < proc.Length && proc[i].state == RUNNING
      modifies proc
      ensures Valid() && proc[..] == old(proc[..])[i := old(proc[i]).(state := SLEEPING, chan := Event(id))]
    {
      SleptOk(proc[..], i, Event(id), initproc, nextpid, reaped);
      proc[i] := proc[i].(state := SLEEPING, chan := Event(id));
    }
  }

  /** kill of pid 0 finds the first unused entry and marks it, and the next process made is born killed. */
  method BornKilled() returns (t: Ptable, slot: int)
    ensures t.Valid() && slot == 1 < t.proc.Length && t.proc[slot].state == EMBRYO && t.proc[slot].pid == 2 && t.proc[slot].killed
  {
    t := new Ptable(64);
    var r := t.Kill(0);
    ghost var marked := t.proc[..];
    assert marked[1] == Proc(UNUSED, 0, -1, NoChan, true) && !InUse(marked, 1) && InUse(marked, 0);
    slot := t.AllocProc();
  }

  /** One turn of exit's loop. */
  lemma AdoptedNext(t: Table, me: int, init: int, p: int)
    requires 0 <= p < |t|
    ensures Adopted(t, me, init, p + 1) ==
            var t1 := Adopted(t, me, init, p);
            if t1[p].parent != me then t1
            else
              var t2 := t1[p := t1[p].(parent := init)];
              if t2[p].state.ZOMBIE? then Woken(t2, Entry(init)) else t2
  {
    assert ZombieChild(t, me, p) <==> t[p].parent == me && t[p].state.ZOMBIE?;
  }
}
