/**
  Delivery of signals on return to user mode (trap.c:41-83) and the way back
  through the trampoline that exec copied to the top of the user stack
  (trapasm.S:4-7, exec.c:96-101).

  Handlers are any code that keeps to its own part of the stack. Further
  signals may be delivered between any two user instructions, also inside
  handlers and inside the trampoline, to any depth. The trampoline is the word
  its two instructions assemble to; it runs only if control is at its address
  and the word is still there, and control is lost otherwise.
 */
module Signals {

  const NUMSIG := 32

  /** A handler that was entered, and the argument it found on the stack. */
  datatype Call = Call(handler: int, arg: int)

  /** `addl $4, %esp` in three bytes, then `ret` in one, as a little-endian word. */
  const TRAMPOLINE := 0xC304C483

  /**
    The user's side: registers, memory by word address, the handlers entered so
    far, and whether control went somewhere nobody meant it to.
   */
  datatype User = User(eip: int, esp: int, mem: map<int, int>, log: seq<Call>, lost: bool)

  function At(u: User, a: int): int { if a in u.mem then u.mem[a] else 0 }

  /** `pushHandlingSig`. */
  function PushFrame(u: User, sig: int, handler: int, sigret: int): User {
    u.(mem := u.mem[u.esp - 4 := u.eip][u.esp - 8 := sig][u.esp - 12 := sigret], esp := u.esp - 12, eip := handler)
  }

  /** The first `k` of the signals `sigs`, pushed in order. */
  function PushFirst(u: User, sigs: seq<int>, h: int -> int, sigret: int, k: nat): User
    requires k <= |sigs|
  {
    if k == 0 then u else PushFrame(PushFirst(u, sigs, h, sigret, k - 1), sigs[k - 1], h(sigs[k - 1]), sigret)
  }

  /** A `ret` instruction. */
  function Ret(u: User): User { u.(eip := At(u, u.esp), esp := u.esp + 4) }

  /** The trampoline's `addl`, if that is what control is at. */
  function TrampolineAdd(u: User, sigret: int): User {
    if u.eip == sigret && At(u, sigret) == TRAMPOLINE then u.(esp := u.esp + 4, eip := sigret + 3)
    else u.(lost := true)
  }

  /** The trampoline's `ret`, if that is what control is at. */
  function TrampolineRet(u: User, sigret: int): User {
    if u.eip == sigret + 3 && At(u, sigret) == TRAMPOLINE then Ret(u) else u.(lost := true)
  }

  // ----- what user code does -----

  /** User code between deliveries, and deliveries. */
  datatype Events = Nothing | More(first: Event, rest: Events)

  datatype Event =
    | Step(eip: int, esp: int, writes: map<int, int>)
    | Nest(d: Delivery)

  /** One handler's run: its body, then deliveries before each of the trampoline's two instructions. */
  datatype Handling = Handling(body: Events, atAdd: Events, atRet: Events)

  /** One return to user mode with signals `sigs` pending for user handlers `h`, and how each handler then runs. */
  datatype Delivery = Delivery(sigs: seq<int>, h: int -> int, runs: seq<Handling>)

  function Play(u: User, es: Events, sigret: int): User
    decreases es
  {
    match es
    case Nothing => u
    case More(Step(eip, esp, writes), rest) => Play(u.(eip := eip, esp := esp, mem := u.mem + writes), rest, sigret)
    case More(Nest(d), rest) => Play(Deliver(u, d, sigret), rest, sigret)
  }

  /** A handler is entered, runs and returns to wherever the stack says; then the trampoline, if that is where. */
  function Handle(u: User, r: Handling, sigret: int): User
    decreases r
  {
    var u1 := u.(log := u.log + [Call(u.eip, At(u, u.esp + 4))]);
    var u2 := Ret(Play(u1, r.body, sigret));
    var u3 := TrampolineAdd(Play(u2, r.atAdd, sigret), sigret);
    TrampolineRet(Play(u3, r.atRet, sigret), sigret)
  }

  /** The handlers of the first `k` frames, the last pushed first. */
  function Unwind(u: User, d: Delivery, k: nat, sigret: int): User
    requires k <= |d.runs|
    decreases d, k
  {
    if k == 0 then u else Unwind(Handle(u, d.runs[k - 1], sigret), d, k - 1, sigret)
  }

  function Deliver(u: User, d: Delivery, sigret: int): User
    decreases d, |d.runs| + 1
  {
    if |d.runs| != |d.sigs| then u
    else Unwind(PushFirst(u, d.sigs, d.h, sigret, |d.sigs|), d, |d.runs|, sigret)
  }

  // ----- well-behaved handlers -----

  /**
    A write to its own part of the stack below `f`, to its argument, or outside
    the stack. The stack goes up to `top` and has the trampoline in it.
   */
  predicate MayWrite(a: int, f: int, top: int) { a < f || a >= top || a == f + 4 }

  /** Code entered with its return address at `f` keeps to its part of the stack; `esp` is where it is now. */
  predicate Behaves(es: Events, f: int, esp: int, top: int)
    decreases es
  {
    match es
    case Nothing => esp == f
    case More(Step(_, esp', writes), rest) =>
      esp' <= f && (forall a | a in writes :: MayWrite(a, f, top)) && Behaves(rest, f, esp', top)
    case More(Nest(d), rest) => GoodDelivery(d, esp, top) && Behaves(rest, f, esp, top)
  }

  /** Nothing but deliveries. */
  predicate OnlyNests(es: Events, esp: int, top: int)
    decreases es
  {
    match es
    case Nothing => true
    case More(Step(_, _, _), _) => false
    case More(Nest(d), rest) => GoodDelivery(d, esp, top) && OnlyNests(rest, esp, top)
  }

  predicate GoodHandling(r: Handling, f: int, top: int)
    decreases r
  {
    Behaves(r.body, f, f, top) && OnlyNests(r.atAdd, f + 4, top) && OnlyNests(r.atRet, f + 8, top)
  }

  predicate GoodDelivery(d: Delivery, esp: int, top: int)
    decreases d
  {
    |d.runs| == |d.sigs| && forall k | 0 <= k < |d.runs| :: GoodHandling(d.runs[k], esp - 12 * (k + 1), top)
  }

  // ----- what should happen -----

  function CallsIn(es: Events): seq<Call>
    decreases es
  {
    match es
    case Nothing => []
    case More(Step(_, _, _), rest) => CallsIn(rest)
    case More(Nest(d), rest) => Calls(d, |d.runs|) + CallsIn(rest)
  }

  /** Each signal's handler once, with its own number, in descending order, nested deliveries inside. */
  function Calls(d: Delivery, k: nat): seq<Call>
    requires k <= |d.runs|
    decreases d, k
  {
    if k == 0 || |d.runs| != |d.sigs| then []
    else
      var r := d.runs[k - 1];
      [Call(d.h(d.sigs[k - 1]), d.sigs[k - 1])] + CallsIn(r.body) + CallsIn(r.atAdd) + CallsIn(r.atRet) + Calls(d, k - 1)
  }

  /** From `esp` up to the top of the stack, memory is the same. */
  ghost predicate SameStack(u: User, u': User, esp: int, top: int) {
    forall a | esp <= a < top :: At(u', a) == At(u, a)
  }

  // ----- it does happen -----

  /** Where control goes when frame `k` is done: the handler below, or the interrupted code. */
  function Back(d: Delivery, eip: int, k: nat): int
    requires k <= |d.sigs|
  {
    if k == 0 then eip else d.h(d.sigs[k - 1])
  }

  /** Frame `j` of a delivery at `esp`: trampoline, signal number, and where to go next. */
  predicate Frame(u: User, d: Delivery, esp: int, eip: int, sigret: int, j: nat)
    requires j < |d.sigs|
  {
    var b := esp - 12 * (j + 1);
    At(u, b) == sigret && At(u, b + 4) == d.sigs[j] && At(u, b + 8) == Back(d, eip, j)
  }

  predicate Frames(u: User, d: Delivery, esp: int, eip: int, sigret: int, k: nat)
    requires k <= |d.sigs|
  {
    forall j: nat | j < k :: Frame(u, d, esp, eip, sigret, j)
  }

  lemma FramePushed(u: User, sig: int, handler: int, sigret: int)
    ensures var p := PushFrame(u, sig, handler, sigret);
            && At(p, u.esp - 12) == sigret && At(p, u.esp - 8) == sig && At(p, u.esp - 4) == u.eip
            && forall a | a >= u.esp :: At(p, a) == At(u, a)
  {
  }

  lemma {:induction false} FramesPushed(u: User, d: Delivery, sigret: int, k: nat)
    requires k <= |d.sigs|
    ensures var p := PushFirst(u, d.sigs, d.h, sigret, k);
            && p.esp == u.esp - 12 * k && p.eip == Back(d, u.eip, k) && p.log == u.log && p.lost == u.lost
            && Frames(p, d, u.esp, u.eip, sigret, k) && forall a | a >= u.esp :: At(p, a) == At(u, a)
  {
    if k > 0 {
      FramesPushed(u, d, sigret, k - 1);
      var p1, p := PushFirst(u, d.sigs, d.h, sigret, k - 1), PushFirst(u, d.sigs, d.h, sigret, k);
      FramePushed(p1, d.sigs[k - 1], d.h(d.sigs[k - 1]), sigret);
      FramesAdded(p1, p, d, u.esp, u.eip, sigret, k);
    }
  }

  /** One frame more below those there are. */
  lemma FramesAdded(p1: User, p: User, d: Delivery, esp: int, eip: int, sigret: int, k: nat)
    requires 0 < k <= |d.sigs| && Frames(p1, d, esp, eip, sigret, k - 1) && Frame(p, d, esp, eip, sigret, k - 1)
    requires forall a | a >= esp - 12 * (k - 1) :: At(p, a) == At(p1, a)
    ensures Frames(p, d, esp, eip, sigret, k)
  {
    forall j: nat | j < k
      ensures Frame(p, d, esp, eip, sigret, j)
    {
      if j < k - 1 {
        assert Frame(p1, d, esp, eip, sigret, j);
      }
    }
  }

  /** Frames above a part of the stack that is kept are kept. */
  lemma FramesKept(u: User, u': User, d: Delivery, esp: int, eip: int, sigret: int, k: nat, top: int)
    requires k <= |d.sigs| && Frames(u, d, esp, eip, sigret, k) && SameStack(u, u', esp - 12 * k, top) && esp <= top
    ensures Frames(u', d, esp, eip, sigret, k)
  {
    forall j: nat | j < k
      ensures Frame(u', d, esp, eip, sigret, j)
    {
      assert Frame(u, d, esp, eip, sigret, j);
    }
  }

  lemma Joined(a: seq<Call>, b: seq<Call>, c: seq<Call>)
    ensures a + b + c == a + (b + c)
  {
  }

  /** The trampoline is on the stack, above `esp`, and intact. */
  predicate Armed(u: User, esp: int, top: int, sigret: int) {
    esp <= sigret && sigret + 4 <= top && At(u, sigret) == TRAMPOLINE
  }

  /** Well-behaved code comes back to its return address with the stack above it, but for its argument, intact. */
  lemma {:induction false} PlayReturns(u: User, es: Events, f: int, top: int, sigret: int)
    requires Behaves(es, f, u.esp, top) && u.esp <= f && Armed(u, f + 8, top, sigret)
    ensures var u' := Play(u, es, sigret);
            && u'.esp == f && u'.lost == u.lost && u'.log == u.log + CallsIn(es)
            && forall a | f <= a < top && a != f + 4 :: At(u', a) == At(u, a)
    decreases es
  {
    match es
    case Nothing =>
    case More(Step(eip, esp, writes), rest) =>
      PlayReturns(u.(eip := eip, esp := esp, mem := u.mem + writes), rest, f, top, sigret);
    case More(Nest(d), rest) =>
      DeliverUnwinds(u, d, top, sigret);
      PlayReturns(Deliver(u, d, sigret), rest, f, top, sigret);
      Joined(u.log, Calls(d, |d.runs|), CallsIn(rest));
  }

  lemma {:induction false} NestsReturn(u: User, es: Events, top: int, sigret: int)
    requires OnlyNests(es, u.esp, top) && Armed(u, u.esp, top, sigret)
    ensures var u' := Play(u, es, sigret);
            && u'.eip == u.eip && u'.esp == u.esp && u'.lost == u.lost
            && SameStack(u, u', u.esp, top) && u'.log == u.log + CallsIn(es)
    decreases es
  {
    match es
    case Nothing =>
    case More(Nest(d), rest) =>
      DeliverUnwinds(u, d, top, sigret);
      NestsReturn(Deliver(u, d, sigret), rest, top, sigret);
      Joined(u.log, Calls(d, |d.runs|), CallsIn(rest));
  }

  /** The handler's own part: it ends in the trampoline, because that is what its frame holds. */
  lemma {:induction false} BodyReturns(u: User, r: Handling, top: int, sigret: int)
    requires Behaves(r.body, u.esp, u.esp, top) && Armed(u, u.esp + 12, top, sigret) && At(u, u.esp) == sigret
    ensures var u' := Ret(Play(u, r.body, sigret));
            && u'.eip == sigret && u'.esp == u.esp + 4 && u'.lost == u.lost && u'.log == u.log + CallsIn(r.body)
            && SameStack(u, u', u.esp + 8, top)
    decreases r, 0
  {
    PlayReturns(u, r.body, u.esp, top, sigret);
  }

  /** The trampoline's part: it ends where the frame says. */
  lemma {:induction false} TrampolineReturns(u: User, r: Handling, top: int, sigret: int)
    requires u.eip == sigret && Armed(u, u.esp + 8, top, sigret)
    requires OnlyNests(r.atAdd, u.esp, top) && OnlyNests(r.atRet, u.esp + 4, top)
    ensures var u' := TrampolineRet(Play(TrampolineAdd(Play(u, r.atAdd, sigret), sigret), r.atRet, sigret), sigret);
            && u'.eip == At(u, u.esp + 4) && u'.esp == u.esp + 8 && u'.lost == u.lost
            && u'.log == u.log + CallsIn(r.atAdd) + CallsIn(r.atRet) && SameStack(u, u', u.esp + 8, top)
    decreases r, 0
  {
    NestsReturn(u, r.atAdd, top, sigret);
    var u1 := Play(u, r.atAdd, sigret);
    var u2 := TrampolineAdd(u1, sigret);
    NestsReturn(u2, r.atRet, top, sigret);
    var u3 := Play(u2, r.atRet, sigret);
    forall a | u.esp + 4 <= a < top
      ensures At(u3, a) == At(u, a)
    {
      assert At(u1, a) == At(u, a) && At(u2, a) == At(u1, a);
    }
  }

  /** A handler entered at its frame runs with its argument and leaves to where the frame says. */
  lemma {:induction false} HandlerReturns(u: User, r: Handling, top: int, sigret: int)
    requires GoodHandling(r, u.esp, top) && Armed(u, u.esp + 12, top, sigret) && At(u, u.esp) == sigret
    ensures var u' := Handle(u, r, sigret);
            && u'.eip == At(u, u.esp + 8) && u'.esp == u.esp + 12 && u'.lost == u.lost
            && SameStack(u, u', u.esp + 12, top)
            && u'.log == u.log + [Call(u.eip, At(u, u.esp + 4))] + CallsIn(r.body) + CallsIn(r.atAdd) + CallsIn(r.atRet)
    decreases r, 1
  {
    var f := u.esp;
    var u1 := u.(log := u.log + [Call(u.eip, At(u, u.esp + 4))]);
    BodyReturns(u1, r, top, sigret);
    var u2 := Ret(Play(u1, r.body, sigret));
    assert At(u2, sigret) == At(u1, sigret) && At(u2, f + 8) == At(u1, f + 8);
    TrampolineReturns(u2, r, top, sigret);
    forall a | f + 12 <= a < top
      ensures At(Handle(u, r, sigret), a) == At(u, a)
    {
      assert At(u2, a) == At(u1, a);
    }
  }

  /** The handler of the last frame returns to what the frame before it is for. */
  lemma {:induction false} UnwindOne(u: User, d: Delivery, k: nat, esp: int, eip: int, top: int, sigret: int)
    requires GoodDelivery(d, esp, top) && 0 < k <= |d.runs| && Armed(u, esp, top, sigret)
    requires u.esp == esp - 12 * k && u.eip == Back(d, eip, k) && Frames(u, d, esp, eip, sigret, k)
    ensures var u1, r := Handle(u, d.runs[k - 1], sigret), d.runs[k - 1];
            && Armed(u1, esp, top, sigret) && u1.lost == u.lost && SameStack(u, u1, esp, top)
            && u1.esp == esp - 12 * (k - 1) && u1.eip == Back(d, eip, k - 1) && Frames(u1, d, esp, eip, sigret, k - 1)
            && u1.log == u.log + [Call(d.h(d.sigs[k - 1]), d.sigs[k - 1])] + CallsIn(r.body) + CallsIn(r.atAdd) + CallsIn(r.atRet)
    decreases d, k, 0
  {
    TopFrame(u, d, k, esp, eip, top, sigret);
    HandlerReturns(u, d.runs[k - 1], top, sigret);
    var u1 := Handle(u, d.runs[k - 1], sigret);
    SameAbove(u, u1, u.esp + 12, esp, top);
    FramesKept(u, u1, d, esp, eip, sigret, k - 1, top);
  }

  lemma TopFrame(u: User, d: Delivery, k: nat, esp: int, eip: int, top: int, sigret: int)
    requires GoodDelivery(d, esp, top) && 0 < k <= |d.runs| && u.esp == esp - 12 * k && Frames(u, d, esp, eip, sigret, k)
    ensures At(u, u.esp) == sigret && At(u, u.esp + 4) == d.sigs[k - 1] && At(u, u.esp + 8) == Back(d, eip, k - 1)
    ensures GoodHandling(d.runs[k - 1], u.esp, top) && Frames(u, d, esp, eip, sigret, k - 1)
  {
    assert Frame(u, d, esp, eip, sigret, k - 1);
    assert GoodHandling(d.runs[k - 1], esp - 12 * (k - 1 + 1), top);
  }

  lemma SameAbove(u: User, u': User, esp: int, esp': int, top: int)
    requires SameStack(u, u', esp, top) && esp <= esp'
    ensures SameStack(u, u', esp', top)
    ensures forall a | esp' <= a < top :: At(u', a) == At(u, a)
  {
  }

  lemma {:induction false} UnwindReturns(u: User, d: Delivery, k: nat, esp: int, eip: int, top: int, sigret: int)
    requires GoodDelivery(d, esp, top) && k <= |d.runs| && Armed(u, esp, top, sigret)
    requires u.esp == esp - 12 * k && u.eip == Back(d, eip, k) && Frames(u, d, esp, eip, sigret, k)
    ensures var u' := Unwind(u, d, k, sigret);
            && u'.eip == eip && u'.esp == esp && u'.lost == u.lost
            && SameStack(u, u', esp, top) && u'.log == u.log + Calls(d, k)
    decreases d, k, 1
  {
    if k > 0 {
      UnwindOne(u, d, k, esp, eip, top, sigret);
      UnwindReturns(Handle(u, d.runs[k - 1], sigret), d, k - 1, esp, eip, top, sigret);
      LogUnwinds(u.log, d, k);
    }
  }

  lemma LogUnwinds(log: seq<Call>, d: Delivery, k: nat)
    requires 0 < k <= |d.runs| == |d.sigs|
    ensures var r := d.runs[k - 1];
            log + [Call(d.h(d.sigs[k - 1]), d.sigs[k - 1])] + CallsIn(r.body) + CallsIn(r.atAdd) + CallsIn(r.atRet) + Calls(d, k - 1)
              == log + Calls(d, k)
  {
  }

  /**
    Delivery unwinds: with well-behaved handlers, and however further deliveries
    nest, each handler runs once with its own number, in descending order,
    control never leaves the handlers and the trampoline, and comes back to the
    same `eip` and `esp` with the stack from `esp` up intact.
   */
  lemma {:induction false} DeliverUnwinds(u: User, d: Delivery, top: int, sigret: int)
    requires GoodDelivery(d, u.esp, top) && Armed(u, u.esp, top, sigret)
    ensures var u' := Deliver(u, d, sigret);
            && u'.eip == u.eip && u'.esp == u.esp && u'.lost == u.lost && SameStack(u, u', u.esp, top)
            && u'.log == u.log + Calls(d, |d.runs|)
    decreases d, |d.runs| + 1
  {
    FramesPushed(u, d, sigret, |d.sigs|);
    UnwindReturns(PushFirst(u, d.sigs, d.h, sigret, |d.sigs|), d, |d.runs|, u.esp, u.eip, top, sigret);
  }

  // ----- and when it does not -----

  /** Control once lost stays lost, whatever runs. */
  lemma {:induction false} PlayLost(u: User, es: Events, sigret: int)
    requires u.lost
    ensures Play(u, es, sigret).lost
    decreases es
  {
    match es
    case Nothing =>
    case More(Step(eip, esp, writes), rest) => PlayLost(u.(eip := eip, esp := esp, mem := u.mem + writes), rest, sigret);
    case More(Nest(d), rest) =>
      DeliverLost(u, d, sigret);
      PlayLost(Deliver(u, d, sigret), rest, sigret);
  }

  lemma {:induction false} HandleLost(u: User, r: Handling, sigret: int)
    requires u.lost
    ensures Handle(u, r, sigret).lost
    decreases r
  {
    var u1 := u.(log := u.log + [Call(u.eip, At(u, u.esp + 4))]);
    PlayLost(u1, r.body, sigret);
    var u2 := Ret(Play(u1, r.body, sigret));
    PlayLost(u2, r.atAdd, sigret);
    AddLost(Play(u2, r.atAdd, sigret), r, sigret);
  }

  /** The trampoline entered with control lost, or nowhere near it. */
  lemma {:induction false} AddLost(u: User, r: Handling, sigret: int)
    requires u.lost || u.eip != sigret || At(u, sigret) != TRAMPOLINE
    ensures TrampolineRet(Play(TrampolineAdd(u, sigret), r.atRet, sigret), sigret).lost
    decreases r, 0
  {
    PlayLost(TrampolineAdd(u, sigret), r.atRet, sigret);
  }

  lemma {:induction false} UnwindLost(u: User, d: Delivery, k: nat, sigret: int)
    requires u.lost && k <= |d.runs|
    ensures Unwind(u, d, k, sigret).lost
    decreases d, k
  {
    if k > 0 {
      HandleLost(u, d.runs[k - 1], sigret);
      UnwindLost(Handle(u, d.runs[k - 1], sigret), d, k - 1, sigret);
    }
  }

  lemma {:induction false} DeliverLost(u: User, d: Delivery, sigret: int)
    requires u.lost
    ensures Deliver(u, d, sigret).lost
    decreases d, |d.runs| + 1
  {
    FramesPushed(u, d, sigret, |d.sigs|);
    if |d.runs| == |d.sigs| {
      UnwindLost(PushFirst(u, d.sigs, d.h, sigret, |d.sigs|), d, |d.runs|, sigret);
    }
  }

  /** The word at `sigret` is on the stack above `esp` and is not the trampoline any more. */
  predicate Broken(u: User, esp: int, top: int, sigret: int) {
    esp <= sigret && sigret + 4 <= top && At(u, sigret) != TRAMPOLINE
  }

  /** A delivery with the trampoline broken: control is lost with the first handler to return. */
  lemma {:induction false} BrokenDelivery(u: User, d: Delivery, top: int, sigret: int)
    requires GoodDelivery(d, u.esp, top) && Broken(u, u.esp, top, sigret)
    ensures if d.runs == [] then Deliver(u, d, sigret) == u else Deliver(u, d, sigret).lost
    decreases d, |d.runs| + 1
  {
    var n := |d.runs|;
    FramesPushed(u, d, sigret, n);
    if n > 0 {
      var p := PushFirst(u, d.sigs, d.h, sigret, n);
      assert At(p, sigret) == At(u, sigret);
      TopFrame(p, d, n, u.esp, u.eip, top, sigret);
      BrokenUnwind(p, d, n, top, sigret);
    }
  }

  lemma {:induction false} BrokenUnwind(p: User, d: Delivery, n: nat, top: int, sigret: int)
    requires 0 < n <= |d.runs| && GoodHandling(d.runs[n - 1], p.esp, top) && Broken(p, p.esp + 12, top, sigret)
    ensures Unwind(p, d, n, sigret).lost
    decreases d, n
  {
    BrokenHandler(p, d.runs[n - 1], top, sigret);
    UnwindLost(Handle(p, d.runs[n - 1], sigret), d, n - 1, sigret);
  }

  /** Well-behaved code cannot repair it. */
  lemma {:induction false} BrokenPlay(u: User, es: Events, f: int, top: int, sigret: int)
    requires Behaves(es, f, u.esp, top) && u.esp <= f && Broken(u, f + 8, top, sigret)
    ensures var u' := Play(u, es, sigret);
            u'.lost || (u'.esp == f && Broken(u', f + 8, top, sigret))
    decreases es
  {
    match es
    case Nothing =>
    case More(Step(eip, esp, writes), rest) =>
      BrokenPlay(u.(eip := eip, esp := esp, mem := u.mem + writes), rest, f, top, sigret);
    case More(Nest(d), rest) =>
      BrokenDelivery(u, d, top, sigret);
      if d.runs == [] {
        BrokenPlay(u, rest, f, top, sigret);
      } else {
        PlayLost(Deliver(u, d, sigret), rest, sigret);
      }
  }

  lemma {:induction false} BrokenNests(u: User, es: Events, top: int, sigret: int)
    requires OnlyNests(es, u.esp, top) && Broken(u, u.esp, top, sigret)
    ensures var u' := Play(u, es, sigret); u'.lost || u' == u
    decreases es
  {
    match es
    case Nothing =>
    case More(Nest(d), rest) =>
      BrokenDelivery(u, d, top, sigret);
      if d.runs == [] {
        BrokenNests(u, rest, top, sigret);
      } else {
        PlayLost(Deliver(u, d, sigret), rest, sigret);
      }
  }

  lemma {:induction false} BrokenHandler(u: User, r: Handling, top: int, sigret: int)
    requires GoodHandling(r, u.esp, top) && Broken(u, u.esp + 12, top, sigret)
    ensures Handle(u, r, sigret).lost
    decreases r, 1
  {
    var u1 := u.(log := u.log + [Call(u.eip, At(u, u.esp + 4))]);
    BrokenPlay(u1, r.body, u.esp, top, sigret);
    var u2 := Ret(Play(u1, r.body, sigret));
    if u2.lost {
      PlayLost(u2, r.atAdd, sigret);
    } else {
      BrokenNests(u2, r.atAdd, top, sigret);
    }
    AddLost(Play(u2, r.atAdd, sigret), r, sigret);
  }

  /** The trampoline is there, but the frame does not lead to it. */
  lemma {:induction false} AstrayHandler(u: User, r: Handling, top: int, sigret: int)
    requires GoodHandling(r, u.esp, top) && Armed(u, u.esp + 12, top, sigret) && At(u, u.esp) != sigret
    ensures Handle(u, r, sigret).lost
    decreases r, 1
  {
    var u1 := u.(log := u.log + [Call(u.eip, At(u, u.esp + 4))]);
    PlayReturns(u1, r.body, u.esp, top, sigret);
    var u2 := Ret(Play(u1, r.body, sigret));
    NestsReturn(u2, r.atAdd, top, sigret);
    AddLost(Play(u2, r.atAdd, sigret), r, sigret);
  }

  /**
    A well-behaved handler, whatever it does and whatever is delivered while it
    runs, loses control exactly if its return address is not the trampoline's
    or the trampoline is not intact when it is entered.
   */
  lemma LostIff(u: User, r: Handling, top: int, sigret: int)
    requires GoodHandling(r, u.esp, top) && u.esp + 12 <= sigret && sigret + 4 <= top && !u.lost
    ensures Handle(u, r, sigret).lost <==> At(u, u.esp) != sigret || At(u, sigret) != TRAMPOLINE
  {
    if At(u, sigret) != TRAMPOLINE {
      BrokenHandler(u, r, top, sigret);
    } else if At(u, u.esp) != sigret {
      AstrayHandler(u, r, top, sigret);
    } else {
      HandlerReturns(u, r, top, sigret);
    }
  }

  // ----- the code -----

  /** Signals below `k` that are pending and have a handler of the user's own, in ascending order. */
  function UserSigs(pending: seq<int>, handlers: seq<int>, def: int, k: nat): seq<int>
    requires k <= |pending| == |handlers|
  {
    if k == 0 then []
    else UserSigs(pending, handlers, def, k - 1) + if pending[k - 1] == 1 && handlers[k - 1] != def then [k - 1] else []
  }

  predicate Ascending(s: seq<int>) { forall i, j | 0 <= i < j < |s| :: s[i] < s[j] }

  lemma AppendAscending(s: seq<int>, x: int)
    requires Ascending(s) && forall y | y in s :: y < x
    ensures Ascending(s + [x])
  {
    assert forall i | 0 <= i < |s| :: s[i] in s;
  }

  lemma {:induction false} UserSigsAre(pending: seq<int>, handlers: seq<int>, def: int, k: nat, sig: int)
    requires k <= |pending| == |handlers|
    ensures sig in UserSigs(pending, handlers, def, k) <==> 0 <= sig < k && pending[sig] == 1 && handlers[sig] != def
  {
    if k > 0 {
      UserSigsAre(pending, handlers, def, k - 1, sig);
    }
  }

  lemma {:induction false} UserSigsAscend(pending: seq<int>, handlers: seq<int>, def: int, k: nat)
    requires k <= |pending| == |handlers|
    ensures Ascending(UserSigs(pending, handlers, def, k))
  {
    if k > 0 {
      UserSigsAscend(pending, handlers, def, k - 1);
      var before := UserSigs(pending, handlers, def, k - 1);
      if pending[k - 1] == 1 && handlers[k - 1] != def {
        forall sig | sig in before
          ensures sig < k - 1
        {
          UserSigsAre(pending, handlers, def, k - 1, sig);
        }
        AppendAscending(before, k - 1);
      }
    }
  }

  /** Exactly those signals, each once, in ascending order. */
  lemma UserSigsExact(pending: seq<int>, handlers: seq<int>, def: int, k: nat)
    requires k <= |pending| == |handlers|
    ensures var sigs := UserSigs(pending, handlers, def, k);
            && (forall sig :: sig in sigs <==> 0 <= sig < k && pending[sig] == 1 && handlers[sig] != def)
            && Ascending(sigs)
  {
    UserSigsAscend(pending, handlers, def, k);
    forall sig
      ensures sig in UserSigs(pending, handlers, def, k) <==> 0 <= sig < k && pending[sig] == 1 && handlers[sig] != def
    {
      UserSigsAre(pending, handlers, def, k, sig);
    }
  }

  lemma {:induction false} PushPrefix(u: User, sigs: seq<int>, more: seq<int>, h: int -> int, sigret: int, k: nat)
    requires k <= |sigs|
    ensures PushFirst(u, sigs + more, h, sigret, k) == PushFirst(u, sigs, h, sigret, k)
  {
    if k > 0 {
      PushPrefix(u, sigs, more, h, sigret, k - 1);
    }
  }

  function Lookup(handlers: seq<int>): int -> int { sig => if 0 <= sig < |handlers| then handlers[sig] else 0 }

  /** A frame for each of the user's signals below `k`. */
  function Pushed(u: User, pending: seq<int>, handlers: seq<int>, def: int, sigret: int, k: nat): User
    requires k <= |pending| == |handlers|
  {
    var sigs := UserSigs(pending, handlers, def, k);
    PushFirst(u, sigs, Lookup(handlers), sigret, |sigs|)
  }

  lemma PushedNext(u: User, pending: seq<int>, handlers: seq<int>, def: int, sigret: int, k: nat)
    requires k < |pending| == |handlers|
    ensures Pushed(u, pending, handlers, def, sigret, k + 1) ==
            if pending[k] == 1 && handlers[k] != def
            then PushFrame(Pushed(u, pending, handlers, def, sigret, k), k, handlers[k], sigret)
            else Pushed(u, pending, handlers, def, sigret, k)
  {
    var sigs := UserSigs(pending, handlers, def, k);
    PushPrefix(u, sigs, [k], Lookup(handlers), sigret, |sigs|);
    assert sigs + [] == sigs;
  }

  /** The part of a process that signals concern. */
  class Process {
    const pending: array<int>
    const sighandlers: array<int>
    var eip: int
    var esp: int
    var mem: map<int, int>
    const sigretAdd: int

    /**
      What exec leaves: the trampoline in the top word of a stack that ends at
      `sz`, and `esp` below it after the argument strings.
     */
    constructor (eip: int, esp: int, mem: map<int, int>, sz: int, def: int)
      requires esp <= sz - 4
      ensures Shape() && fresh(pending) && fresh(sighandlers)
      ensures this.eip == eip && this.esp == esp && Armed(Value(), esp, sz, sigretAdd)
      ensures forall a | a in mem && a != sigretAdd :: a in this.mem && this.mem[a] == mem[a]
      ensures forall i | 0 <= i < NUMSIG :: pending[i] == 0 && sighandlers[i] == def
    {
      this.eip, this.esp, this.sigretAdd := eip, esp, sz - 4;
      this.mem := mem[sz - 4 := TRAMPOLINE];
      pending := new int[NUMSIG](i => 0);
      sighandlers := new int[NUMSIG](i => def);
    }

    predicate Shape()
      reads this
    {
      pending.Length == NUMSIG && sighandlers.Length == NUMSIG && pending != sighandlers
    }

    ghost function Value(): User
      reads this
    {
      User(eip, esp, mem, [], false)
    }

    method PushHandlingSig(sigIdx: int)
      requires Shape() && 0 <= sigIdx < NUMSIG
      modifies pending, `eip, `esp, `mem
      ensures Value() == PushFrame(old(Value()), sigIdx, sighandlers[sigIdx], sigretAdd)
      ensures pending[..] == old(pending[..])[sigIdx := 0]
    {
      pending[sigIdx] := 0;
      esp := esp - 4;
      mem := mem[esp := eip];
      esp := esp - 4;
      mem := mem[esp := sigIdx];
      esp := esp - 4;
      mem := mem[esp := sigretAdd];
      eip := sighandlers[sigIdx];
    }

    /** On the way out of the kernel: a frame for each pending signal with a handler; none stays pending. */
    method HandlingSignal(def: int)
      requires Shape()
      modifies pending, `eip, `esp, `mem
      ensures Value() == Pushed(old(Value()), old(pending[..]), sighandlers[..], def, sigretAdd, NUMSIG)
      ensures forall i | 0 <= i < NUMSIG :: pending[i] == if old(pending[i]) == 1 then 0 else old(pending[i])
    {
      ghost var was, hs := pending[..], sighandlers[..];
      var sigIdx := 0;
      while sigIdx < NUMSIG
        invariant 0 <= sigIdx <= NUMSIG
        invariant Value() == Pushed(old(Value()), was, hs, def, sigretAdd, sigIdx)
        invariant forall i | 0 <= i < sigIdx :: pending[i] == if was[i] == 1 then 0 else was[i]
        invariant forall i | sigIdx <= i < NUMSIG :: pending[i] == was[i]
      {
        PushedNext(old(Value()), was, hs, def, sigretAdd, sigIdx);
        if pending[sigIdx] == 1 {
          pending[sigIdx] := 0;
          if sighandlers[sigIdx] == def {
            pending[sigIdx] := 0;
          } else {
            PushHandlingSig(sigIdx);
          }
        }
        sigIdx := sigIdx + 1;
      }
    }
  }
}
