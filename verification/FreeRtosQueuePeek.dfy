/** Why a peek that waits costs the queue its wakeups: from every reachable state
    with a receiver, a peeker and a free third task, some continuation comes to rest
    with the receiver asleep next to an item. */
module FreeRtosQueuePeek {
  import opened Common
  import opened FreeRtosQueue

  // ---- Coming to rest without new calls -----------------------------------

  predicate Internal(l: Label) { l.Acquire? || l.Decide? || l.Notify? }

  predicate Unfinished(pc: Pc) { pc.Entering? || pc.Holding? || pc.Asleep? || pc.Woken? }
  predicate IsNotifying(pc: Pc) { pc.Notifying? }
  predicate IsQueued(pc: Pc) { pc.Entering? || pc.Woken? }
  predicate IsHolding(pc: Pc) { pc.Holding? }
  predicate SendOpen(pc: Pc) { Unfinished(pc) && pc.op.Send? }

  /** Where a task may be later when it neither returned nor called. */
  predicate Continues(a: Pc, b: Pc) {
    match a
    case Idle => b.Idle?
    case Done(_) => b.Done?
    case Notifying(_, _) => b.Notifying? || b.Done?
    case _ => (Unfinished(b) && b.op == a.op) || b.Notifying? || b.Done?
  }

  predicate AllContinue(s: State, s': State) {
    |s'.pcs| == |s.pcs| && forall i :: 0 <= i < |s.pcs| ==> Continues(s.pcs[i], s'.pcs[i])
  }

  /** Items there are and items still to be sent. */
  function Potential(s: State): nat { |s.items| + Count(s.pcs, SendOpen) }

  function Weight(s: State): nat { 2 * Count(s.pcs, IsQueued) + Count(s.pcs, IsHolding) }

  lemma Moves(pcs: seq<Pc>, t: nat, pc: Pc)
    requires t < |pcs|
    ensures Count(pcs[t := pc], Unfinished) == Count(pcs, Unfinished) - Unit(Unfinished(pcs[t])) + Unit(Unfinished(pc))
    ensures Count(pcs[t := pc], IsNotifying) == Count(pcs, IsNotifying) - Unit(IsNotifying(pcs[t])) + Unit(IsNotifying(pc))
    ensures Count(pcs[t := pc], IsQueued) == Count(pcs, IsQueued) - Unit(IsQueued(pcs[t])) + Unit(IsQueued(pc))
    ensures Count(pcs[t := pc], IsHolding) == Count(pcs, IsHolding) - Unit(IsHolding(pcs[t])) + Unit(IsHolding(pc))
    ensures Count(pcs[t := pc], SendOpen) == Count(pcs, SendOpen) - Unit(SendOpen(pcs[t])) + Unit(SendOpen(pc))
  {
    CountUpdate(pcs, t, pc, Unfinished);
    CountUpdate(pcs, t, pc, IsNotifying);
    CountUpdate(pcs, t, pc, IsQueued);
    CountUpdate(pcs, t, pc, IsHolding);
    CountUpdate(pcs, t, pc, SendOpen);
  }

  /** Fewer calls in progress, or as many and fewer notifications to come, or as many
      of both and nearer to a decision. */
  predicate Nearer(s: State, s': State) {
    var u, u' := Count(s.pcs, Unfinished), Count(s'.pcs, Unfinished);
    var n, n' := Count(s.pcs, IsNotifying), Count(s'.pcs, IsNotifying);
    u' < u || (u' == u && (n' < n || (n' == n && Weight(s') < Weight(s))))
  }

  lemma ResetApproaches(s: State, t: nat)
    requires t < |s.pcs| && s.pcs[t].Holding? && s.pcs[t].op.Reset?
    ensures Nearer(s, DecideStep(s, t)) && Potential(DecideStep(s, t)) <= Potential(s)
  {
    var woken := WakeAll(s.pcs, NotFull);
    CountPointwise(s.pcs, woken, Unfinished);
    CountPointwise(s.pcs, woken, SendOpen);
    Moves(woken, t, Done(Pass));
  }

  lemma DecideApproaches(s: State, t: nat)
    requires t < |s.pcs| && s.pcs[t].Holding? && !s.pcs[t].op.Reset?
    ensures Nearer(s, DecideStep(s, t)) && Potential(DecideStep(s, t)) <= Potential(s)
  {
    Moves(s.pcs, t, DecideStep(s, t).pcs[t]);
  }

  lemma NotifyApproaches(s: State, t: nat, waiter: Option<nat>)
    requires Step(s, Notify(t, waiter)).Some?
    ensures Nearer(s, Step(s, Notify(t, waiter)).value)
    ensures Potential(Step(s, Notify(t, waiter)).value) <= Potential(s)
  {
    Moves(s.pcs, t, Done(s.pcs[t].r));
    if waiter.Some? {
      Moves(s.pcs[t := Done(s.pcs[t].r)], waiter.value, Woken(s.pcs[waiter.value].op, Notified));
    }
  }

  lemma StepApproaches(s: State, l: Label)
    requires Internal(l) && Step(s, l).Some?
    ensures Nearer(s, Step(s, l).value) && Potential(Step(s, l).value) <= Potential(s)
  {
    match l
    case Acquire(t) => Moves(s.pcs, t, Step(s, l).value.pcs[t]);
    case Notify(t, waiter) => NotifyApproaches(s, t, waiter);
    case Decide(t) =>
      if s.pcs[t].op.Reset? {
        ResetApproaches(s, t);
      } else {
        DecideApproaches(s, t);
      }
  }

  lemma StepContinues(s: State, l: Label)
    requires Internal(l) && Step(s, l).Some?
    ensures AllContinue(s, Step(s, l).value) && Step(s, l).value.capacity == s.capacity
  {
  }

  lemma StillContinue(a: State, b: State, c: State)
    requires AllContinue(a, b) && AllContinue(b, c)
    ensures AllContinue(a, c)
  {
    forall i | 0 <= i < |a.pcs| ensures Continues(a.pcs[i], c.pcs[i]) {
      assert Continues(a.pcs[i], b.pcs[i]) && Continues(b.pcs[i], c.pcs[i]);
    }
  }

  /** Somebody can move without a call as long as the queue is not quiet. */
  lemma SomeoneCanMove(s: State) returns (l: Label)
    requires Locking(s) && !Quiet(s)
    ensures Internal(l) && Step(s, l).Some?
  {
    var i :| 0 <= i < |s.pcs| && !(s.pcs[i].Idle? || s.pcs[i].Asleep? || s.pcs[i].Done?);
    if s.lock.Some? {
      l := Decide(s.lock.value);
    } else if s.pcs[i].Notifying? {
      if j :| 0 <= j < |s.pcs| && AsleepOn(s.pcs[j], s.pcs[i].cv) {
        l := Notify(i, Some(j));
      } else {
        l := Notify(i, None);
      }
    } else {
      l := Acquire(i);
    }
  }

  /** From every state the queue can come to rest with no new call: no deadlock and
      no endless handing on of wakeups. */
  lemma {:induction false} ComesToRest(s: State) returns (ls: seq<Label>, s': State)
    requires Inv(s)
    ensures Run(Step, s, ls) == Some(s') && Inv(s') && Quiet(s') && s'.capacity == s.capacity
    ensures AllContinue(s, s') && Potential(s') <= Potential(s)
    decreases Count(s.pcs, Unfinished), Count(s.pcs, IsNotifying), Weight(s)
  {
    if Quiet(s) {
      ls, s' := [], s;
    } else {
      var l := SomeoneCanMove(s);
      StepKeepsInv(s, l);
      StepApproaches(s, l);
      StepContinues(s, l);
      var more, end := ComesToRest(Step(s, l).value);
      ls, s' := [l] + more, end;
      RunFirst(Step, s, l, Step(s, l).value, more, s');
      StillContinue(s, Step(s, l).value, s');
    }
  }

  // ---- One call at a time -------------------------------------------------

  lemma QuietIsUnlocked(s: State)
    requires Locking(s) && Quiet(s)
    ensures s.lock.None?
  {
  }

  /** A call that finds the mutex free reaches its verdict in three steps. */
  lemma Invoke(s: State, t: nat, op: Op) returns (s': State)
    requires Inv(s) && s.lock.None? && t < |s.pcs| && s.pcs[t].Idle? && !op.Reset?
    ensures Run(Step, s, [Call(t, op), Acquire(t), Decide(t)]) == Some(s') && Inv(s')
    ensures s'.capacity == s.capacity && s'.lock.None?
    ensures var (v, items) := Section(s.items, s.capacity, op, false);
            && s'.items == items
            && s'.pcs == s.pcs[t := if v.Sleep? then Asleep(op) else AfterFinish(op, v.r)]
  {
    var a := Step(s, Call(t, op)).value;
    var b := Step(a, Acquire(t)).value;
    s' := Step(b, Decide(t)).value;
    RunThree(Step, s, Call(t, op), a, Acquire(t), b, Decide(t), s');
    StepKeepsInv(s, Call(t, op));
    StepKeepsInv(a, Acquire(t));
    StepKeepsInv(b, Decide(t));
  }

  /** A task that is done returns; one that is idle is left alone. */
  lemma MakeIdle(s: State, t: nat) returns (ls: seq<Label>, s': State)
    requires Inv(s) && t < |s.pcs| && (s.pcs[t].Idle? || s.pcs[t].Done?)
    ensures Run(Step, s, ls) == Some(s') && Inv(s')
    ensures s'.pcs == s.pcs[t := Idle] && s'.items == s.items && s'.capacity == s.capacity && s'.lock == s.lock
  {
    if s.pcs[t].Idle? {
      ls, s' := [], s;
      assert s.pcs[t := Idle] == s.pcs;
    } else {
      ls, s' := [Return(t)], Step(s, Return(t)).value;
      RunOne(Step, s, Return(t));
      StepKeepsInv(s, Return(t));
    }
  }

  // ---- Stealing a wakeup --------------------------------------------------

  predicate SleepsReceiving(pc: Pc) { pc.Asleep? && pc.op.Receive? }
  predicate SleepsPeeking(pc: Pc) { pc.Asleep? && pc.op.Peek? }

  /** A send's notification goes to a sleeping peek, which finds an item and is done. */
  lemma PeekIsNotified(s: State, p: nat, d: nat) returns (ls: seq<Label>, s': State)
    requires Inv(s) && s.lock.None? && s.items != [] && p < |s.pcs| && d < |s.pcs| && p != d
    requires SleepsPeeking(s.pcs[p]) && s.pcs[d] == Notifying(NotEmpty, Pass)
    ensures Run(Step, s, ls) == Some(s') && Inv(s')
    ensures s'.items == s.items && s'.capacity == s.capacity
    ensures s'.pcs == s.pcs[d := Done(Pass)][p := Done(Got(s.items[0]))]
  {
    var a := Step(s, Notify(d, Some(p))).value;
    var b := Step(a, Acquire(p)).value;
    s' := Step(b, Decide(p)).value;
    ls := [Notify(d, Some(p)), Acquire(p), Decide(p)];
    RunThree(Step, s, Notify(d, Some(p)), a, Acquire(p), b, Decide(p), s');
    StepKeepsInv(s, Notify(d, Some(p)));
    StepKeepsInv(a, Acquire(p));
    StepKeepsInv(b, Decide(p));
  }

  /** Whenever a receiver and a peek sleep and a send finds the mutex free and room,
      its notification may go to the peek: the item is there, the receiver sleeps on,
      and no other task has moved. */
  lemma PeekSteals(s: State, r: nat, p: nat, d: nat, item: Item) returns (ls: seq<Label>, s': State)
    requires Inv(s) && s.lock.None? && |s.items| < s.capacity
    requires r < |s.pcs| && p < |s.pcs| && d < |s.pcs| && r != d && p != d && r != p
    requires SleepsReceiving(s.pcs[r]) && SleepsPeeking(s.pcs[p]) && s.pcs[d].Idle?
    ensures Run(Step, s, ls) == Some(s') && Inv(s')
    ensures s'.items == s.items + [item] && s'.capacity == s.capacity
    ensures s'.pcs == s.pcs[d := Done(Pass)][p := Done(Got(s'.items[0]))]
  {
    var send := Send(item, false, NoWait);
    var a := Invoke(s, d, send);
    var more, end := PeekIsNotified(a, p, d);
    ls, s' := [Call(d, send), Acquire(d), Decide(d)] + more, end;
    RunJoin(Step, s, [Call(d, send), Acquire(d), Decide(d)], a, more, s');
    assert s.pcs[d := Notifying(NotEmpty, Pass)][d := Done(Pass)] == s.pcs[d := Done(Pass)];
  }

  /** At rest, with a receiver asleep next to an item. */
  predicate WakeupLost(s: State) {
    Quiet(s) && s.items != [] && exists i :: 0 <= i < |s.pcs| && SleepsReceiving(s.pcs[i])
  }

  predicate MayReceive(pc: Pc) { pc.Idle? || pc.Done? || (pc.Notifying? && pc.cv.NotFull?) || (Unfinished(pc) && pc.op.Receive?) }
  predicate MayPeek(pc: Pc) { pc.Idle? || pc.Done? || (Unfinished(pc) && pc.op.Peek?) }

  /** Three tasks to play the receiver, the peeker and the sender, at rest. */
  predicate Cast(s: State, r: nat, p: nat, d: nat) {
    && Inv(s) && Quiet(s) && s.capacity > 0
    && r < |s.pcs| && p < |s.pcs| && d < |s.pcs| && r != d && p != d && r != p
    && (s.pcs[r].Idle? || s.pcs[r].Done? || SleepsReceiving(s.pcs[r]))
    && (s.pcs[p].Idle? || s.pcs[p].Done? || SleepsPeeking(s.pcs[p]))
    && (s.pcs[d].Idle? || s.pcs[d].Done?)
  }

  /** On an empty queue a task at rest can be put to sleep. */
  lemma FallsAsleep(s: State, t: nat, op: Op) returns (ls: seq<Label>, s': State)
    requires Inv(s) && Quiet(s) && s.items == [] && t < |s.pcs| && (s.pcs[t].Idle? || s.pcs[t].Done?)
    requires (op.Receive? || op.Peek?) && op.wait.Forever?
    ensures Run(Step, s, ls) == Some(s') && Inv(s') && Quiet(s')
    ensures s'.items == [] && s'.capacity == s.capacity && s'.pcs == s.pcs[t := Asleep(op)]
  {
    QuietIsUnlocked(s);
    var back, a := MakeIdle(s, t);
    s' := Invoke(a, t, op);
    ls := back + [Call(t, op), Acquire(t), Decide(t)];
    RunJoin(Step, s, back, a, [Call(t, op), Acquire(t), Decide(t)], s');
    assert s.pcs[t := Idle][t := Asleep(op)] == s.pcs[t := Asleep(op)];
  }

  lemma ReceiverSleeps(s: State, r: nat, p: nat, d: nat) returns (ls: seq<Label>, s': State)
    requires Cast(s, r, p, d) && s.items == []
    ensures Run(Step, s, ls) == Some(s') && Cast(s', r, p, d) && s'.items == [] && SleepsReceiving(s'.pcs[r])
  {
    if SleepsReceiving(s.pcs[r]) {
      ls, s' := [], s;
    } else {
      ls, s' := FallsAsleep(s, r, Receive(Forever));
    }
  }

  lemma PeekerSleeps(s: State, r: nat, p: nat, d: nat) returns (ls: seq<Label>, s': State)
    requires Cast(s, r, p, d) && s.items == [] && SleepsReceiving(s.pcs[r])
    ensures Run(Step, s, ls) == Some(s') && Cast(s', r, p, d) && s'.items == []
    ensures SleepsReceiving(s'.pcs[r]) && SleepsPeeking(s'.pcs[p])
  {
    if SleepsPeeking(s.pcs[p]) {
      ls, s' := [], s;
    } else {
      ls, s' := FallsAsleep(s, p, Peek(Forever));
    }
  }

  lemma LostWhenBothSleep(s: State, r: nat, p: nat, d: nat) returns (ls: seq<Label>, s': State)
    requires Cast(s, r, p, d) && s.items == [] && SleepsReceiving(s.pcs[r]) && SleepsPeeking(s.pcs[p])
    ensures Run(Step, s, ls) == Some(s') && WakeupLost(s')
  {
    QuietIsUnlocked(s);
    var l0, s0 := MakeIdle(s, d);
    var l1, s1 := PeekSteals(s0, r, p, d, []);
    ls, s' := l0 + l1, s1;
    RunJoin(Step, s, l0, s0, l1, s1);
    assert SleepsReceiving(s'.pcs[r]);
  }

  lemma LostWhenEmpty(s: State, r: nat, p: nat, d: nat) returns (ls: seq<Label>, s': State)
    requires Cast(s, r, p, d) && s.items == []
    ensures Run(Step, s, ls) == Some(s') && WakeupLost(s')
  {
    var l0, s0 := ReceiverSleeps(s, r, p, d);
    var l1, s1 := PeekerSleeps(s0, r, p, d);
    var l2, s2 := LostWhenBothSleep(s1, r, p, d);
    ls, s' := l0 + (l1 + l2), s2;
    RunJoin(Step, s0, l1, s1, l2, s2);
    RunJoin(Step, s, l0, s0, l1 + l2, s2);
  }

  lemma ReceiverTakes(s: State, r: nat) returns (ls: seq<Label>, s': State)
    requires Inv(s) && Quiet(s) && s.items != [] && r < |s.pcs| && (s.pcs[r].Idle? || s.pcs[r].Done?)
    ensures Run(Step, s, ls) == Some(s') && Inv(s') && s'.capacity == s.capacity
    ensures s'.pcs == s.pcs[r := Notifying(NotFull, Got(s.items[0]))] && Potential(s') < Potential(s)
  {
    QuietIsUnlocked(s);
    var op := Receive(NoWait);
    var l0, s0 := MakeIdle(s, r);
    s' := Invoke(s0, r, op);
    ls := l0 + [Call(r, op), Acquire(r), Decide(r)];
    RunJoin(Step, s, l0, s0, [Call(r, op), Acquire(r), Decide(r)], s');
    Moves(s.pcs, r, Notifying(NotFull, Got(s.items[0])));
    assert s.pcs[r := Idle][r := Notifying(NotFull, Got(s.items[0]))] == s'.pcs;
  }

  /** The receiver takes one item and everybody comes to rest again. */
  lemma TakesOne(s: State, r: nat, p: nat, d: nat) returns (ls: seq<Label>, s': State)
    requires Cast(s, r, p, d) && s.items != [] && !SleepsReceiving(s.pcs[r])
    ensures Run(Step, s, ls) == Some(s') && Cast(s', r, p, d) && Potential(s') < Potential(s)
  {
    var l0, s0 := ReceiverTakes(s, r);
    var l1, s1 := ComesToRest(s0);
    ls, s' := l0 + l1, s1;
    RunJoin(Step, s, l0, s0, l1, s1);
    StillCast(s0, s1, r, p, d);
  }

  /** Coming to rest leaves the cast able to play. */
  lemma StillCast(s: State, s': State, r: nat, p: nat, d: nat)
    requires AllContinue(s, s') && Inv(s') && Quiet(s') && s'.capacity > 0
    requires r < |s.pcs| && p < |s.pcs| && d < |s.pcs| && r != d && p != d && r != p
    requires MayReceive(s.pcs[r]) && MayPeek(s.pcs[p]) && (s.pcs[d].Idle? || s.pcs[d].Done?)
    ensures Cast(s', r, p, d)
  {
    assert Continues(s.pcs[r], s'.pcs[r]) && Continues(s.pcs[p], s'.pcs[p]) && Continues(s.pcs[d], s'.pcs[d]);
  }

  lemma {:induction false} LostFromRest(s: State, r: nat, p: nat, d: nat) returns (ls: seq<Label>, s': State)
    requires Cast(s, r, p, d)
    ensures Run(Step, s, ls) == Some(s') && WakeupLost(s')
    decreases Potential(s)
  {
    if s.items == [] {
      ls, s' := LostWhenEmpty(s, r, p, d);
    } else if SleepsReceiving(s.pcs[r]) {
      ls, s' := [], s;
    } else {
      var l0, s0 := TakesOne(s, r, p, d);
      var l1, s1 := LostFromRest(s0, r, p, d);
      ls, s' := l0 + l1, s1;
      RunJoin(Step, s, l0, s0, l1, s1);
    }
  }

  /** In a run whose peeks do not wait no wakeup is ever lost. */
  lemma NothingLostWithoutWaitingPeeks(capacity: nat, tasks: nat, ls: seq<Label>, s: State)
    requires Run(Step, Init(capacity, tasks), ls) == Some(s) && PeekFree(ls)
    ensures !WakeupLost(s)
  {
    if Quiet(s) {
      forall i | 0 <= i < |s.pcs| && SleepsReceiving(s.pcs[i]) ensures s.items == [] {
        QuietMeansServed(capacity, tasks, ls, s, i);
      }
    }
  }

  /** However far a run has come: with one task that is receiving or free, one that is
      peeking or free and a third that is free, it has a continuation that comes to rest
      with a receiver asleep next to an item. */
  lemma PeekLosesAWakeup(capacity: nat, tasks: nat, ls: seq<Label>, s: State, r: nat, p: nat, d: nat)
    returns (more: seq<Label>, s': State)
    requires Run(Step, Init(capacity, tasks), ls) == Some(s) && capacity > 0
    requires r < |s.pcs| && p < |s.pcs| && d < |s.pcs| && r != d && p != d && r != p
    requires MayReceive(s.pcs[r]) && MayPeek(s.pcs[p]) && (s.pcs[d].Idle? || s.pcs[d].Done?)
    ensures Run(Step, Init(capacity, tasks), ls + more) == Some(s') && WakeupLost(s')
  {
    InitInv(capacity, tasks);
    RunKeepsInv(Init(capacity, tasks), ls);
    CapacityFixed(Init(capacity, tasks), ls);
    var l0, s0 := ComesToRest(s);
    StillCast(s, s0, r, p, d);
    var l1, s1 := LostFromRest(s0, r, p, d);
    more, s' := l0 + l1, s1;
    RunJoin(Step, s, l0, s0, l1, s1);
    RunJoin(Step, Init(capacity, tasks), ls, s, more, s');
  }
}
