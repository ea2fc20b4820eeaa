/**
  sleep and wakeup (proc.c:389-444) at the granularity of single lock
  operations and single turns of the wakeup loop, for any number of processes,
  locks and channels.

  A channel has a lock that guards its condition; it may be `ptable.lock`
  itself, as in wait. A process that makes a condition true owes the channel a
  wakeup, and may pay it before or after it releases the lock.
 */
module Sleep {

  datatype Lock = Ptable | Other(id: int)

  datatype Chan = Chan(id: int, lock: Lock)

  /** Where a process is in the code of sleep or wakeup. */
  datatype Pc =
    | Running
    | SleepPtable(c: Chan)             // about to acquire ptable.lock
    | SleepRelease(c: Chan)            // about to release the condition's lock
    | SleepMark(c: Chan)               // about to set chan and SLEEPING
    | Marked(c: Chan)                  // SLEEPING, still holds ptable.lock on the way to the scheduler
    | Asleep(c: Chan)
    | Woken(c: Chan)                   // RUNNABLE again
    | Resumed(c: Chan)                 // scheduled, holds ptable.lock
    | Relock(c: Chan)                  // about to reacquire the condition's lock
    | WakePtable(c: Chan)              // wakeup: about to acquire ptable.lock
    | Waking(c: Chan, i: nat, held: bool) // wakeup1: about to look at process i; `held` if called with the lock held

  datatype Proc = Proc(pc: Pc, owes: set<Chan>)

  datatype State = State(procs: seq<Proc>, owner: map<Lock, nat>, holds: set<Chan>)

  datatype Step =
    | Acquire(p: nat, l: Lock)
    | Release(p: nat, l: Lock)
    | MakeTrue(p: nat, c: Chan)
    | MakeFalse(p: nat, c: Chan)
    | CallSleep(p: nat, c: Chan)
    | CallWakeup(p: nat, c: Chan)
    | Go(p: nat)
    | Kill(p: nat, v: nat)

  predicate Owns(s: State, p: nat, l: Lock) { l in s.owner && s.owner[l] == p }

  function PcOf(s: State, p: nat): Pc { if p < |s.procs| then s.procs[p].pc else Running }

  predicate Enabled(s: State, t: Step) {
    && t.p < |s.procs|
    && var pc := PcOf(s, t.p);
       match t
       case Acquire(p, l) => pc.Running? && l !in s.owner
       case Release(p, l) => pc.Running? && Owns(s, p, l)
       case MakeTrue(p, c) => pc.Running? && Owns(s, p, c.lock)
       case MakeFalse(p, c) => pc.Running? && Owns(s, p, c.lock)
       case CallSleep(p, c) =>
         // tested under the lock; holding any other lock is the "sched locks" panic
         pc.Running? && c !in s.holds && Owns(s, p, c.lock) && forall l | l in s.owner && s.owner[l] == p :: l == c.lock
       case CallWakeup(p, c) => pc.Running?
       case Go(p) =>
         (match pc
          case Running => false
          case Asleep(_) => false
          case SleepPtable(_) => Ptable !in s.owner
          case Woken(_) => Ptable !in s.owner
          case WakePtable(_) => Ptable !in s.owner
          case Relock(c) => c.lock !in s.owner
          case _ => true)
       case Kill(p, v) => pc.Running? && Owns(s, p, Ptable) && v < |s.procs|
  }

  function SetPc(s: State, p: nat, pc: Pc): State
    requires p < |s.procs|
  {
    s.(procs := s.procs[p := s.procs[p].(pc := pc)])
  }

  function Take(s: State, p: nat, l: Lock): State { s.(owner := s.owner[l := p]) }

  function Drop(s: State, l: Lock): State { s.(owner := s.owner - {l}) }

  /** One turn of the loop in wakeup1. */
  function Rouse(s: State, c: Chan, v: nat): State {
    if PcOf(s, v) == Asleep(c) then SetPc(s, v, Woken(c)) else s
  }

  function Advance(s: State, p: nat): State
    requires p < |s.procs|
  {
    match s.procs[p].pc
    case Running => s
    case Asleep(_) => s
    case SleepPtable(c) => SetPc(Take(s, p, Ptable), p, SleepRelease(c))
    case SleepRelease(c) => SetPc(Drop(s, c.lock), p, SleepMark(c))
    case SleepMark(c) => SetPc(s, p, Marked(c))
    case Marked(c) => SetPc(Drop(s, Ptable), p, Asleep(c))
    case Woken(c) => SetPc(Take(s, p, Ptable), p, Resumed(c))
    case Resumed(c) => if c.lock.Ptable? then SetPc(s, p, Running) else SetPc(Drop(s, Ptable), p, Relock(c))
    case Relock(c) => SetPc(Take(s, p, c.lock), p, Running)
    case WakePtable(c) => SetPc(Take(s, p, Ptable), p, Waking(c, 0, false))
    case Waking(c, i, held) =>
      if i < |s.procs| then SetPc(Rouse(s, c, i), p, Waking(c, i + 1, held))
      else
        var s1 := if held then s else Drop(s, Ptable);
        s1.(procs := s1.procs[p := Proc(Running, s1.procs[p].owes - {c})])
  }

  function Next(s: State, t: Step): State {
    if !Enabled(s, t) then s else
    match t
    case Acquire(p, l) => Take(s, p, l)
    case Release(p, l) => Drop(s, l)
    case MakeTrue(p, c) =>
      s.(holds := s.holds + {c}, procs := s.procs[p := s.procs[p].(owes := s.procs[p].owes + {c})])
    case MakeFalse(p, c) => s.(holds := s.holds - {c})
    case CallSleep(p, c) => SetPc(s, p, if c.lock.Ptable? then SleepMark(c) else SleepPtable(c))
    case CallWakeup(p, c) => SetPc(s, p, if Owns(s, p, Ptable) then Waking(c, 0, true) else WakePtable(c))
    case Go(p) => Advance(s, p)
    case Kill(p, v) => if PcOf(s, v).Asleep? then SetPc(s, v, Woken(PcOf(s, v).c)) else s
  }

  // ----- the invariant -----

  /** SLEEPING on `c`, or past the point where it could still see the condition change. */
  predicate Dozing(s: State, p: nat, c: Chan) {
    PcOf(s, p) == SleepMark(c) || PcOf(s, p) == Marked(c) || PcOf(s, p) == Asleep(c)
  }

  /** Process `q` still owes `c` a wakeup that will reach process `p`. */
  predicate Comes(s: State, q: nat, c: Chan, p: nat) {
    && q < |s.procs| && c in s.procs[q].owes
    && (s.procs[q].pc.Waking? && s.procs[q].pc.c == c ==> s.procs[q].pc.i <= p)
  }

  /** A wakeup on `c` is pending for process `p`. */
  ghost predicate Pending(s: State, c: Chan, p: nat) {
    exists q: nat :: q < |s.procs| && Comes(s, q, c, p)
  }

  /** What being at its place in the code means for process `p`. */
  ghost predicate Placed(s: State, p: nat) {
    match PcOf(s, p)
    case SleepPtable(c) => Owns(s, p, c.lock) && !c.lock.Ptable? && c !in s.holds
    case SleepRelease(c) => Owns(s, p, c.lock) && Owns(s, p, Ptable) && !c.lock.Ptable? && c !in s.holds
    case SleepMark(c) => Owns(s, p, Ptable)
    case Marked(c) => Owns(s, p, Ptable)
    case Resumed(c) => Owns(s, p, Ptable)
    case Waking(c, i, _) => Owns(s, p, Ptable) && i <= |s.procs| && forall v: nat | v < i :: !Dozing(s, v, c)
    case _ => true
  }

  /** No sleeper on a true condition without a wakeup on its way. */
  ghost predicate NoLostWakeup(s: State) {
    forall p: nat, c | Dozing(s, p, c) && c in s.holds :: Pending(s, c, p)
  }

  ghost predicate Inv(s: State) {
    NoLostWakeup(s) && forall p: nat | p < |s.procs| :: Placed(s, p)
  }

  /** A process becomes `Dozing` only while it holds `ptable.lock`. */
  lemma DozesUnderLock(s: State, t: Step, v: nat, c: Chan)
    requires Enabled(s, t) && (v < |s.procs| ==> Placed(s, v))
    ensures Dozing(Next(s, t), v, c) ==> Dozing(s, v, c) || Owns(s, v, Ptable)
  {
  }

  /** A process the wakeup loop of `p` has passed does not fall asleep on its channel meanwhile. */
  lemma KeepsAwake(s: State, t: Step, p: nat, v: nat)
    requires Enabled(s, t) && p < |s.procs| && Placed(s, p) && (v < |s.procs| ==> Placed(s, v))
    requires PcOf(Next(s, t), p).Waking? && v < PcOf(Next(s, t), p).i
    ensures !Dozing(Next(s, t), v, PcOf(Next(s, t), p).c)
  {
    var c := PcOf(Next(s, t), p).c;
    assert PcOf(s, p).Waking? && PcOf(s, p).c == c;
    DozesUnderLock(s, t, v, c);
    assert v < PcOf(s, p).i ==> !Dozing(s, v, c);
  }

  /** A lock stays with its owner through the steps of other processes. */
  lemma KeepsLock(s: State, t: Step, p: nat, l: Lock)
    requires Enabled(s, t) && Placed(s, t.p) && p != t.p && Owns(s, p, l)
    ensures Owns(Next(s, t), p, l)
  {
  }

  /** The steps of other processes leave a process where it is, or wake it. */
  lemma OtherStep(s: State, t: Step, q: nat)
    requires Enabled(s, t) && q < |s.procs| && t.p != q
    ensures q < |Next(s, t).procs| && Next(s, t).procs[q].owes == s.procs[q].owes
    ensures PcOf(Next(s, t), q) == PcOf(s, q) || (PcOf(s, q).Asleep? && PcOf(Next(s, t), q).Woken?)
  {
  }

  /** The lock facts of `Placed`, after another process's step. */
  lemma OtherKeepsLocks(s: State, t: Step, p: nat)
    requires Enabled(s, t) && p < |s.procs| && p != t.p && Placed(s, p) && Placed(s, t.p) && !PcOf(Next(s, t), p).Waking?
    ensures Placed(Next(s, t), p)
  {
    OtherStep(s, t, p);
    if Owns(s, p, Ptable) {
      KeepsLock(s, t, p, Ptable);
    }
    if PcOf(s, p).SleepPtable? || PcOf(s, p).SleepRelease? {
      var c := PcOf(s, p).c;
      KeepsLock(s, t, p, c.lock);
      assert c !in Next(s, t).holds;
    }
  }

  /** And after its own. */
  lemma OwnKeepsLocks(s: State, t: Step)
    requires Enabled(s, t) && Placed(s, t.p) && !PcOf(Next(s, t), t.p).Waking?
    ensures Placed(Next(s, t), t.p)
  {
  }

  lemma KeepsPlaced(s: State, t: Step, p: nat)
    requires Inv(s) && Enabled(s, t) && p < |s.procs|
    ensures Placed(Next(s, t), p)
  {
    assert Placed(s, p) && Placed(s, t.p);
    if PcOf(Next(s, t), p).Waking? {
      WakingPlaced(s, t, p);
    } else if p == t.p {
      OwnKeepsLocks(s, t);
    } else {
      OtherKeepsLocks(s, t, p);
    }
  }

  lemma WakingPlaced(s: State, t: Step, p: nat)
    requires Inv(s) && Enabled(s, t) && p < |s.procs| && PcOf(Next(s, t), p).Waking?
    ensures Placed(Next(s, t), p)
  {
    assert Placed(s, p) && Placed(s, t.p);
    if t.p != p {
      OtherStep(s, t, p);
      KeepsLock(s, t, p, Ptable);
    }
    forall v: nat | v < PcOf(Next(s, t), p).i
      ensures !Dozing(Next(s, t), v, PcOf(Next(s, t), p).c)
    {
      assert v < |s.procs| ==> Placed(s, v);
      KeepsAwake(s, t, p, v);
    }
  }

  /** The loop's turn at a sleeper rouses it. */
  lemma LoopReaches(s: State, q: nat, c: Chan, p: nat)
    requires q < |s.procs| && PcOf(s, q).Waking? && PcOf(s, q).c == c && PcOf(s, q).i == p && p < |s.procs|
    requires Placed(s, q) && Placed(s, p)
    ensures !Dozing(Advance(s, q), p, c)
  {
  }

  /** The step of the process that owes the wakeup: its loop does not pass a sleeper by. */
  lemma OwnComes(s: State, t: Step, p: nat, c: Chan)
    requires Enabled(s, t) && Comes(s, t.p, c, p) && Placed(s, t.p) && Placed(s, p)
    requires Dozing(s, p, c) && Dozing(Next(s, t), p, c)
    ensures Comes(Next(s, t), t.p, c, p)
  {
    if t.Go? && PcOf(s, t.p).Waking? && PcOf(s, t.p).c == c && PcOf(s, t.p).i == p {
      LoopReaches(s, t.p, c, p);
    }
  }

  /** A pending wakeup stays pending until it reaches its sleeper. */
  lemma KeepsPending(s: State, t: Step, p: nat, c: Chan)
    requires Inv(s) && Enabled(s, t)
    requires Dozing(Next(s, t), p, c) && c in Next(s, t).holds && Dozing(s, p, c) && c in s.holds
    ensures Pending(Next(s, t), c, p)
  {
    var q: nat :| q < |s.procs| && Comes(s, q, c, p);
    assert Placed(s, p) && Placed(s, t.p);
    if q == t.p {
      OwnComes(s, t, p, c);
    } else {
      OtherStep(s, t, q);
    }
    assert Comes(Next(s, t), q, c, p);
  }

  /** A process goes to sleep only on a condition that does not hold. */
  lemma DozesOnFalse(s: State, t: Step, p: nat, c: Chan)
    requires Enabled(s, t) && (p < |s.procs| ==> Placed(s, p)) && Dozing(Next(s, t), p, c) && !Dozing(s, p, c)
    ensures c !in Next(s, t).holds
  {
  }

  lemma StartsPending(s: State, t: Step, p: nat, c: Chan)
    requires Enabled(s, t) && c !in s.holds && c in Next(s, t).holds && Dozing(s, p, c)
    ensures Pending(Next(s, t), c, p)
  {
    assert Comes(Next(s, t), t.p, c, p);
  }

  lemma StepInv(s: State, t: Step)
    requires Inv(s)
    ensures Inv(Next(s, t))
  {
    if Enabled(s, t) {
      var s' := Next(s, t);
      forall p: nat, c | Dozing(s', p, c) && c in s'.holds
        ensures Pending(s', c, p)
      {
        assert p < |s.procs| ==> Placed(s, p);
        if !Dozing(s, p, c) {
          DozesOnFalse(s, t, p, c);
        } else if c in s.holds {
          KeepsPending(s, t, p, c);
        } else {
          StartsPending(s, t, p, c);
        }
      }
      forall p: nat | p < |s'.procs|
        ensures Placed(s', p)
      {
        KeepsPlaced(s, t, p);
      }
    }
  }

  // ----- whole runs -----

  datatype Run = Start | Then(before: Run, t: Step)

  function After(s: State, run: Run): State {
    match run
    case Start => s
    case Then(before, t) => Next(After(s, before), t)
  }

  predicate Init(s: State) {
    s.owner == map[] && forall p: nat | p < |s.procs| :: s.procs[p] == Proc(Running, {})
  }

  lemma {:induction false} RunInv(s: State, run: Run)
    requires Init(s)
    ensures Inv(After(s, run))
  {
    match run
    case Start =>
    case Then(before, t) =>
      RunInv(s, before);
      StepInv(After(s, before), t);
  }

  /**
    No lost wakeup: in every run, a process asleep on a channel whose
    condition holds has a wakeup on its way that has not passed it yet. Once
    no process owes the channel a wakeup, nobody sleeps there in vain.
   */
  lemma NobodySleepsInVain(s: State, run: Run, p: nat, c: Chan)
    requires Init(s) && Dozing(After(s, run), p, c) && c in After(s, run).holds
    ensures exists q: nat :: q < |After(s, run).procs| && Comes(After(s, run), q, c, p)
  {
    RunInv(s, run);
  }

  // ----- what one wakeup does -----

  /** `k` more steps of process `q`. */
  function Goes(q: nat, k: nat): Run { if k == 0 then Start else Then(Goes(q, k - 1), Go(q)) }

  /** After `i` turns of its loop the wakeup of `q` on `c` has roused the sleepers below `i` and no other. */
  ghost predicate RousedBelow(s: State, s': State, q: nat, c: Chan, i: nat) {
    && |s'.procs| == |s.procs| && s'.holds == s.holds
    && forall v: nat | v < |s.procs| && v != q ::
         s'.procs[v] == if v < i && s.procs[v].pc == Asleep(c) then s.procs[v].(pc := Woken(c)) else s.procs[v]
  }

  ghost predicate LoopState(s: State, s': State, q: nat, c: Chan, held: bool, i: nat) {
    && q < |s.procs| && RousedBelow(s, s', q, c, i) && s'.owner == s.owner
    && s'.procs[q] == Proc(Waking(c, i, held), s.procs[q].owes)
  }

  /** Always true; the verifier looks into a state of the loop only where a proof names it in `Look`. */
  ghost predicate Look(s: State) { true }

  /** The wakeup of `q` that began its loop in `s` is at process `i`. */
  ghost predicate InLoop(s: State, s': State, q: nat, c: Chan, held: bool, i: nat) {
    forall x: State {:trigger Look(x)} | x == s' && Look(x) :: LoopState(s, x, q, c, held, i)
  }

  /** `e` is `s` after `k` more steps of process `q`. */
  ghost predicate Gets(s: State, q: nat, k: nat, e: State) {
    forall x: State {:trigger Look(x)} | x == e && Look(x) :: x == After(s, Goes(q, k))
  }

  lemma LoopTurn(s: State, e: State, q: nat, c: Chan, held: bool, i: nat) returns (e': State)
    requires InLoop(s, e, q, c, held, i) && Gets(s, q, i, e) && i < |s.procs|
    ensures InLoop(s, e', q, c, held, i + 1) && Gets(s, q, i + 1, e')
  {
    e' := Next(e, Go(q));
    assert Look(e);
    LoopStep(s, e, q, c, held, i);
    GoesNext(s, q, i);
  }

  lemma GoesNext(s: State, q: nat, k: nat)
    ensures After(s, Goes(q, k + 1)) == Next(After(s, Goes(q, k)), Go(q))
  {
  }

  lemma LoopStep(s: State, e: State, q: nat, c: Chan, held: bool, i: nat)
    requires LoopState(s, e, q, c, held, i) && i < |s.procs|
    ensures LoopState(s, Next(e, Go(q)), q, c, held, i + 1)
  {
  }

  lemma {:induction false} LoopTurns(s: State, q: nat, c: Chan, held: bool, i: nat) returns (e: State)
    requires InLoop(s, s, q, c, held, 0) && i <= |s.procs|
    ensures InLoop(s, e, q, c, held, i) && Gets(s, q, i, e)
  {
    if i == 0 {
      e := s;
    } else {
      e := LoopTurns(s, q, c, held, i - 1);
      e := LoopTurn(s, e, q, c, held, i - 1);
    }
  }

  /** A wakeup left to run rouses exactly the processes asleep on its channel, and its debt is paid. */
  lemma WakeupRousesAll(s: State, q: nat, c: Chan)
    requires q < |s.procs| && s.procs[q].pc == WakePtable(c) && Ptable !in s.owner
    ensures var s' := After(Next(s, Go(q)), Goes(q, |s.procs| + 1));
            && RousedBelow(s, s', q, c, |s.procs|) && s'.owner == s.owner
            && s'.procs[q] == Proc(Running, s.procs[q].owes - {c})
  {
    var n := |s.procs|;
    var s1 := Next(s, Go(q));
    var s2 := LoopTurns(s1, q, c, false, n);
    assert Look(s2);
    assert After(s1, Goes(q, n + 1)) == Next(s2, Go(q));
    assert s2.owner - {Ptable} == s.owner;
  }
}
