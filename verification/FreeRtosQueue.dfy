/** The FreeRTOS queue: a deque behind one mutex and two condition variables.
    Tasks interleave at every lock acquisition, wait, wakeup, unlock and
    notification; notify_one is issued after the mutex is released. */
module FreeRtosQueue {
  import opened Common

  type Item = seq<bv8>

  datatype Op =
    | Send(item: Item, front: bool, wait: Wait)
    | Receive(wait: Wait)
    | Peek(wait: Wait)
    | Reset
    | MessagesWaiting
    | SpacesAvailable

  datatype Result = Fail | Pass | Got(item: Item) | Number(n: int)

  datatype Cv = NotFull | NotEmpty

  // ---- The code that runs while the mutex is held -------------------------

  /** What the holder of the mutex does next: unlock and finish, or wait. */
  datatype Verdict = Finish(r: Result) | Sleep

  predicate Ready(items: seq<Item>, capacity: nat, op: Op) {
    match op
    case Send(_, _, _) => |items| < capacity
    case Receive(_) => items != []
    case Peek(_) => items != []
    case _ => true
  }

  predicate GivesUp(op: Op, timedOut: bool) {
    (op.Send? || op.Receive? || op.Peek?) && (op.wait.NoWait? || timedOut)
  }

  /** The verdict and the items the section leaves behind. */
  function Section(items: seq<Item>, capacity: nat, op: Op, timedOut: bool): (Verdict, seq<Item>) {
    if !Ready(items, capacity, op) then
      (if GivesUp(op, timedOut) then Finish(Fail) else Sleep, items)
    else match op
      case Send(item, front, _) => (Finish(Pass), if front then [item] + items else items + [item])
      case Receive(_) => (Finish(Got(items[0])), items[1..])
      case Peek(_) => (Finish(Got(items[0])), items)
      case Reset => (Finish(Pass), [])
      case MessagesWaiting => (Finish(Number(|items|)), items)
      case SpacesAvailable => (Finish(Number(capacity - |items|)), items)
  }

  class Queue {
    var items: seq<Item>
    const capacity: nat

    constructor (length: nat)
      ensures items == [] && capacity == length
    {
      items := [];
      capacity := length;
    }

    /** One stay inside the mutex: evaluate the predicate, then act, give up
        or go to sleep. */
    method Locked(op: Op, timedOut: bool) returns (v: Verdict)
      modifies this`items
      ensures (v, items) == Section(old(items), capacity, op, timedOut)
      ensures old(|items|) <= capacity ==> |items| <= capacity
    {
      match op {
        case Send(item, front, wait) =>
          if |items| >= capacity {
            if wait.NoWait? || timedOut { return Finish(Fail); }
            return Sleep;
          }
          if front { items := [item] + items; } else { items := items + [item]; }
          v := Finish(Pass);
        case Receive(wait) =>
          if items == [] {
            if wait.NoWait? || timedOut { return Finish(Fail); }
            return Sleep;
          }
          v := Finish(Got(items[0]));
          items := items[1..];
        case Peek(wait) =>
          if items == [] {
            if wait.NoWait? || timedOut { return Finish(Fail); }
            return Sleep;
          }
          v := Finish(Got(items[0]));
        case Reset =>
          items := [];
          v := Finish(Pass);
        case MessagesWaiting =>
          v := Finish(Number(|items|));
        case SpacesAvailable =>
          v := Finish(Number(capacity - |items|));
      }
    }
  }

  // ---- Tasks, the mutex and the condition variables -----------------------

  /** Why a task wants the mutex: it has just called, was notified, its wait is
      over, or it woke for no reason. */
  datatype Why = Fresh | Notified | TimedOut | NoReason

  datatype Pc =
    | Idle
    | Entering(op: Op)              // called, wants the mutex
    | Holding(op: Op, why: Why)     // owns the mutex
    | Asleep(op: Op)                // on its condition variable
    | Woken(op: Op, why: Why)       // off it, wants the mutex again
    | Notifying(cv: Cv, r: Result)  // unlocked, notify_one to come
    | Done(r: Result)

  datatype Event =
    | Called(t: nat, op: Op)
    | Acted(t: nat, op: Op, r: Result)    // the moment the mutex was released for good
    | Returned(t: nat, r: Result)

  datatype State = State(
    capacity: nat,
    items: seq<Item>,
    lock: Option<nat>,
    pcs: seq<Pc>,
    peeked: nat,          // notifications that went to a peek, since the queue was empty
    history: seq<Event>)

  function Init(capacity: nat, tasks: nat): State {
    State(capacity, [], None, seq(tasks, i => Idle), 0, [])
  }

  predicate WaitsOn(op: Op, cv: Cv) {
    match cv
    case NotFull => op.Send?
    case NotEmpty => op.Receive? || op.Peek?
  }

  predicate AsleepOn(pc: Pc, cv: Cv) { pc.Asleep? && WaitsOn(pc.op, cv) }

  predicate AsleepFull(pc: Pc) { AsleepOn(pc, NotFull) }
  predicate AsleepEmpty(pc: Pc) { AsleepOn(pc, NotEmpty) }
  predicate WokenFull(pc: Pc) {
    (pc.Woken? || pc.Holding?) && pc.why.Notified? && WaitsOn(pc.op, NotFull)
  }
  predicate WokenEmpty(pc: Pc) {
    (pc.Woken? || pc.Holding?) && pc.why.Notified? && WaitsOn(pc.op, NotEmpty)
  }
  predicate PendingFull(pc: Pc) { pc.Notifying? && pc.cv == NotFull }
  predicate PendingEmpty(pc: Pc) { pc.Notifying? && pc.cv == NotEmpty }

  function Wake(pc: Pc, cv: Cv): Pc {
    if AsleepOn(pc, cv) then Woken(pc.op, Notified) else pc
  }

  /** notify_all. */
  function WakeAll(pcs: seq<Pc>, cv: Cv): (r: seq<Pc>)
    ensures |r| == |pcs|
    ensures forall i :: 0 <= i < |pcs| ==> r[i] == Wake(pcs[i], cv)
  {
    seq(|pcs|, i requires 0 <= i < |pcs| => Wake(pcs[i], cv))
  }

  /** One atomic step of one task; the label carries what the scheduler chose. */
  datatype Label =
    | Call(t: nat, op: Op)
    | Acquire(t: nat)
    | Decide(t: nat)
    | Notify(t: nat, waiter: Option<nat>)
    | TimeOut(t: nat)
    | Spurious(t: nat)
    | Return(t: nat)

  function AfterFinish(op: Op, r: Result): Pc {
    if op.Send? && r.Pass? then Notifying(NotEmpty, r)
    else if op.Receive? && r.Got? then Notifying(NotFull, r)
    else Done(r)
  }

  function DecideStep(s: State, t: nat): State
    requires t < |s.pcs| && s.pcs[t].Holding?
  {
    var Holding(op, why) := s.pcs[t];
    var (verdict, items) := Section(s.items, s.capacity, op, why.TimedOut?);
    match verdict
    case Sleep => s.(lock := None, pcs := s.pcs[t := Asleep(op)])
    case Finish(r) =>
      var pcs := if op.Reset? then WakeAll(s.pcs, NotFull) else s.pcs;
      s.(lock := None, items := items, pcs := pcs[t := AfterFinish(op, r)],
         peeked := if items == [] then 0 else s.peeked + Unit(op.Peek? && why.Notified?),
         history := s.history + [Acted(t, op, r)])
  }

  function Step(s: State, l: Label): Option<State> {
    if l.t >= |s.pcs| then None
    else
      var pc := s.pcs[l.t];
      match l
      case Call(t, op) =>
        if !pc.Idle? then None
        else Some(s.(pcs := s.pcs[t := Entering(op)], history := s.history + [Called(t, op)]))
      case Acquire(t) =>
        if s.lock.Some? then None
        else if pc.Entering? then Some(s.(lock := Some(t), pcs := s.pcs[t := Holding(pc.op, Fresh)]))
        else if pc.Woken? then Some(s.(lock := Some(t), pcs := s.pcs[t := Holding(pc.op, pc.why)]))
        else None
      case Decide(t) =>
        if pc.Holding? then Some(DecideStep(s, t)) else None
      case Notify(t, waiter) =>
        if !pc.Notifying? then None
        else if waiter.None? then
          (if exists i :: 0 <= i < |s.pcs| && AsleepOn(s.pcs[i], pc.cv) then None
           else Some(s.(pcs := s.pcs[t := Done(pc.r)])))
        else if waiter.value < |s.pcs| && AsleepOn(s.pcs[waiter.value], pc.cv) then
          Some(s.(pcs := s.pcs[t := Done(pc.r)][waiter.value := Woken(s.pcs[waiter.value].op, Notified)]))
        else None
      case TimeOut(t) =>
        if pc.Asleep? && (pc.op.Send? || pc.op.Receive? || pc.op.Peek?) && pc.op.wait.Bounded?
        then Some(s.(pcs := s.pcs[t := Woken(pc.op, TimedOut)])) else None
      case Spurious(t) =>
        if pc.Asleep? then Some(s.(pcs := s.pcs[t := Woken(pc.op, NoReason)])) else None
      case Return(t) =>
        if pc.Done? then Some(s.(pcs := s.pcs[t := Idle], history := s.history + [Returned(t, pc.r)])) else None
  }

  // ---- What every step keeps ----------------------------------------------

  predicate Locking(s: State) {
    && (forall i :: 0 <= i < |s.pcs| ==> (s.pcs[i].Holding? <==> s.lock == Some(i)))
    && (s.lock.Some? ==> s.lock.value < |s.pcs|)
  }

  /** While a receiver or a peek sleeps, every item has a notification to come or a
      notified waiter, or its notification went to a peek. */
  predicate Covered(s: State) {
    && (Count(s.pcs, AsleepEmpty) > 0 ==>
          Count(s.pcs, PendingEmpty) + Count(s.pcs, WokenEmpty) + s.peeked >= |s.items|)
    && (Count(s.pcs, AsleepFull) > 0 ==>
          Count(s.pcs, PendingFull) + Count(s.pcs, WokenFull) >= s.capacity - |s.items|)
  }

  predicate Inv(s: State) {
    && |s.items| <= s.capacity
    && Locking(s)
    && Covered(s)
  }

  /** What moving one task from pc to pc' does to all six counts. */
  lemma Moved(pcs: seq<Pc>, t: nat, pc: Pc)
    requires t < |pcs|
    ensures Count(pcs[t := pc], AsleepEmpty) == Count(pcs, AsleepEmpty) - Unit(AsleepEmpty(pcs[t])) + Unit(AsleepEmpty(pc))
    ensures Count(pcs[t := pc], AsleepFull) == Count(pcs, AsleepFull) - Unit(AsleepFull(pcs[t])) + Unit(AsleepFull(pc))
    ensures Count(pcs[t := pc], WokenEmpty) == Count(pcs, WokenEmpty) - Unit(WokenEmpty(pcs[t])) + Unit(WokenEmpty(pc))
    ensures Count(pcs[t := pc], WokenFull) == Count(pcs, WokenFull) - Unit(WokenFull(pcs[t])) + Unit(WokenFull(pc))
    ensures Count(pcs[t := pc], PendingEmpty) == Count(pcs, PendingEmpty) - Unit(PendingEmpty(pcs[t])) + Unit(PendingEmpty(pc))
    ensures Count(pcs[t := pc], PendingFull) == Count(pcs, PendingFull) - Unit(PendingFull(pcs[t])) + Unit(PendingFull(pc))
  {
    CountUpdate(pcs, t, pc, AsleepEmpty);
    CountUpdate(pcs, t, pc, AsleepFull);
    CountUpdate(pcs, t, pc, WokenEmpty);
    CountUpdate(pcs, t, pc, WokenFull);
    CountUpdate(pcs, t, pc, PendingEmpty);
    CountUpdate(pcs, t, pc, PendingFull);
  }

  /** notify_all(not_full) leaves no sender asleep and the receivers alone. */
  lemma AllSendersWoken(pcs: seq<Pc>)
    ensures Count(WakeAll(pcs, NotFull), AsleepFull) == 0
    ensures Count(WakeAll(pcs, NotFull), AsleepEmpty) == Count(pcs, AsleepEmpty)
    ensures Count(WakeAll(pcs, NotFull), WokenEmpty) == Count(pcs, WokenEmpty)
    ensures Count(WakeAll(pcs, NotFull), PendingEmpty) == Count(pcs, PendingEmpty)
  {
    var after := WakeAll(pcs, NotFull);
    CountPositive(after, AsleepFull);
    CountPointwise(pcs, after, AsleepEmpty);
    CountPointwise(pcs, after, WokenEmpty);
    CountPointwise(pcs, after, PendingEmpty);
  }

  lemma StepKeepsLocking(s: State, l: Label)
    requires Locking(s) && Step(s, l).Some?
    ensures Locking(Step(s, l).value)
  {
  }

  lemma SleepKeepsCovered(s: State, t: nat)
    requires |s.items| <= s.capacity && Covered(s) && t < |s.pcs| && s.pcs[t].Holding?
    requires Section(s.items, s.capacity, s.pcs[t].op, s.pcs[t].why.TimedOut?).0.Sleep?
    ensures Covered(DecideStep(s, t)) && DecideStep(s, t).items == s.items
  {
    Moved(s.pcs, t, Asleep(s.pcs[t].op));
  }

  lemma ResetKeepsCovered(s: State, t: nat)
    requires t < |s.pcs| && s.pcs[t].Holding? && s.pcs[t].op.Reset?
    ensures Covered(DecideStep(s, t)) && DecideStep(s, t).items == []
  {
    AllSendersWoken(s.pcs);
    Moved(WakeAll(s.pcs, NotFull), t, Done(Pass));
  }

  lemma FinishKeepsCovered(s: State, t: nat)
    requires |s.items| <= s.capacity && Covered(s) && t < |s.pcs| && s.pcs[t].Holding? && !s.pcs[t].op.Reset?
    requires Section(s.items, s.capacity, s.pcs[t].op, s.pcs[t].why.TimedOut?).0.Finish?
    ensures Covered(DecideStep(s, t)) && |DecideStep(s, t).items| <= s.capacity
  {
    var op := s.pcs[t].op;
    var (verdict, items) := Section(s.items, s.capacity, op, s.pcs[t].why.TimedOut?);
    Moved(s.pcs, t, AfterFinish(op, verdict.r));
    match op
    case Send(_, _, _) => assert |items| == |s.items| + Unit(verdict.r.Pass?);
    case Receive(_) => assert |items| == |s.items| - Unit(verdict.r.Got?);
    case _ =>
  }

  lemma DecideKeepsCovered(s: State, t: nat)
    requires |s.items| <= s.capacity && Covered(s) && t < |s.pcs| && s.pcs[t].Holding?
    ensures |DecideStep(s, t).items| <= s.capacity && Covered(DecideStep(s, t))
  {
    var op := s.pcs[t].op;
    if op.Reset? {
      ResetKeepsCovered(s, t);
    } else if Section(s.items, s.capacity, op, s.pcs[t].why.TimedOut?).0.Sleep? {
      SleepKeepsCovered(s, t);
    } else {
      FinishKeepsCovered(s, t);
    }
  }

  lemma NotifyKeepsCovered(s: State, t: nat, waiter: Option<nat>)
    requires Covered(s) && Step(s, Notify(t, waiter)).Some?
    ensures Covered(Step(s, Notify(t, waiter)).value)
  {
    var pc := s.pcs[t];
    var mid := s.pcs[t := Done(pc.r)];
    Moved(s.pcs, t, Done(pc.r));
    if waiter.None? {
      CountPositive(s.pcs, AsleepEmpty);
      CountPositive(s.pcs, AsleepFull);
    } else {
      Moved(mid, waiter.value, Woken(s.pcs[waiter.value].op, Notified));
    }
  }

  lemma OtherStepsKeepCovered(s: State, l: Label)
    requires Covered(s) && Step(s, l).Some? && !l.Decide? && !l.Notify?
    ensures Covered(Step(s, l).value) && Step(s, l).value.items == s.items
  {
    Moved(s.pcs, l.t, Step(s, l).value.pcs[l.t]);
  }

  lemma StepKeepsInv(s: State, l: Label)
    requires Inv(s) && Step(s, l).Some?
    ensures Inv(Step(s, l).value)
  {
    StepKeepsLocking(s, l);
    match l
    case Decide(t) => DecideKeepsCovered(s, t);
    case Notify(t, waiter) => NotifyKeepsCovered(s, t, waiter);
    case _ => OtherStepsKeepCovered(s, l);
  }

  lemma {:induction false} RunKeepsInv(s: State, ls: seq<Label>)
    requires Inv(s) && Run(Step, s, ls).Some?
    ensures Inv(Run(Step, s, ls).value)
    decreases |ls|
  {
    if ls != [] {
      StepKeepsInv(s, ls[0]);
      RunKeepsInv(Step(s, ls[0]).value, ls[1..]);
    }
  }

  lemma InitInv(capacity: nat, tasks: nat)
    ensures Inv(Init(capacity, tasks))
  {
    CountPositive(Init(capacity, tasks).pcs, AsleepEmpty);
    CountPositive(Init(capacity, tasks).pcs, AsleepFull);
  }

  // ---- No lost wakeups ----------------------------------------------------

  /** In every state of every run: while a receiver sleeps, the items with neither a
      notification to come nor a notified waiter are no more than the notifications
      that went to peeks since the queue was last empty; while a sender sleeps every
      free slot has one. */
  lemma NoLostWakeups(capacity: nat, tasks: nat, ls: seq<Label>, s: State)
    requires Run(Step, Init(capacity, tasks), ls) == Some(s)
    ensures |s.items| <= capacity
    ensures (exists i :: 0 <= i < |s.pcs| && AsleepEmpty(s.pcs[i])) ==>
              |s.items| <= Count(s.pcs, PendingEmpty) + Count(s.pcs, WokenEmpty) + s.peeked
    ensures (exists i :: 0 <= i < |s.pcs| && AsleepFull(s.pcs[i])) ==>
              capacity - |s.items| <= Count(s.pcs, PendingFull) + Count(s.pcs, WokenFull)
  {
    InitInv(capacity, tasks);
    RunKeepsInv(Init(capacity, tasks), ls);
    CapacityFixed(Init(capacity, tasks), ls);
    CountPositive(s.pcs, AsleepEmpty);
    CountPositive(s.pcs, AsleepFull);
  }

  lemma {:induction false} CapacityFixed(s: State, ls: seq<Label>)
    requires Run(Step, s, ls).Some?
    ensures Run(Step, s, ls).value.capacity == s.capacity && |Run(Step, s, ls).value.pcs| == |s.pcs|
    decreases |ls|
  {
    if ls != [] {
      CapacityFixed(Step(s, ls[0]).value, ls[1..]);
    }
  }

  // ---- Without peeks that wait --------------------------------------------

  /** A peek that is called with no ticks to wait never sleeps. */
  predicate PeekFree(ls: seq<Label>) {
    forall l :: l in ls && l.Call? && l.op.Peek? ==> l.op.wait.NoWait?
  }

  /** No peek waits or has waited, so none was ever notified. */
  predicate NoPeekWaits(s: State) {
    && s.peeked == 0
    && forall i :: 0 <= i < |s.pcs| ==>
         match s.pcs[i]
         case Entering(op) => op.Peek? ==> op.wait.NoWait?
         case Holding(op, why) => op.Peek? ==> op.wait.NoWait? && why.Fresh?
         case Asleep(op) => !op.Peek?
         case Woken(op, why) => !op.Peek?
         case _ => true
  }

  lemma StepKeepsPeeksOut(s: State, l: Label)
    requires NoPeekWaits(s) && Step(s, l).Some? && PeekFree([l])
    ensures NoPeekWaits(Step(s, l).value)
  {
    assert l in [l];
  }

  lemma {:induction false} RunKeepsPeeksOut(s: State, ls: seq<Label>)
    requires NoPeekWaits(s) && PeekFree(ls) && Run(Step, s, ls).Some?
    ensures NoPeekWaits(Run(Step, s, ls).value)
    decreases |ls|
  {
    if ls != [] {
      StepKeepsPeeksOut(s, ls[0]);
      RunKeepsPeeksOut(Step(s, ls[0]).value, ls[1..]);
    }
  }

  /** When every peek is called with no ticks to wait no wakeup is lost: while a
      receiver sleeps, each item has a notification to come or a notified waiter. */
  lemma NoLostWakeupsWithoutWaitingPeeks(capacity: nat, tasks: nat, ls: seq<Label>, s: State)
    requires Run(Step, Init(capacity, tasks), ls) == Some(s) && PeekFree(ls)
    ensures (exists i :: 0 <= i < |s.pcs| && AsleepEmpty(s.pcs[i])) ==>
              |s.items| <= Count(s.pcs, PendingEmpty) + Count(s.pcs, WokenEmpty)
  {
    NoLostWakeups(capacity, tasks, ls, s);
    RunKeepsPeeksOut(Init(capacity, tasks), ls);
  }

  /** Every task is outside, asleep, or has only its return left. */
  predicate Quiet(s: State) {
    forall i :: 0 <= i < |s.pcs| ==> s.pcs[i].Idle? || s.pcs[i].Asleep? || s.pcs[i].Done?
  }

  /** Once the queue is quiet nobody sleeps on something it could have: a sleeping
      sender means a full queue, a sleeping receiver an empty one when no peek
      waited, and never both unless the capacity is 0. */
  lemma QuietMeansServed(capacity: nat, tasks: nat, ls: seq<Label>, s: State, i: nat)
    requires Run(Step, Init(capacity, tasks), ls) == Some(s) && Quiet(s)
    requires i < |s.pcs|
    ensures AsleepFull(s.pcs[i]) ==> |s.items| == capacity
    ensures AsleepEmpty(s.pcs[i]) ==> |s.items| <= s.peeked
    ensures AsleepEmpty(s.pcs[i]) && PeekFree(ls) ==> s.items == []
    ensures forall j :: 0 <= j < |s.pcs| && AsleepFull(s.pcs[i]) && AsleepEmpty(s.pcs[j]) && PeekFree(ls) ==> capacity == 0
  {
    NoLostWakeups(capacity, tasks, ls, s);
    if PeekFree(ls) {
      NoLostWakeupsWithoutWaitingPeeks(capacity, tasks, ls, s);
    }
    CountPositive(s.pcs, PendingEmpty);
    CountPositive(s.pcs, WokenEmpty);
    CountPositive(s.pcs, PendingFull);
    CountPositive(s.pcs, WokenFull);
  }
}
