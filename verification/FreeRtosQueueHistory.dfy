/** Linearization of the queue: the calls of any interleaved run, taken at the
    moment each released the mutex for good, are a run of an atomic bounded
    deque; and what that says about the items that went through. */
module FreeRtosQueueHistory {
  import opened Common
  import opened FreeRtosQueue

  // ---- The atomic bounded deque -------------------------------------------

  /** The deque after `op` answered `r`, None when an atomic deque holding `d`
      could not have answered so. A failure is legal only on a full deque for a
      send and on an empty one for a receive or a peek. */
  function Atomic(capacity: nat, d: seq<Item>, op: Op, r: Result): Option<seq<Item>> {
    match (op, r)
    case (Send(x, front, _), Pass) =>
      if |d| >= capacity then None else Some(if front then [x] + d else d + [x])
    case (Send(_, _, _), Fail) => if |d| == capacity then Some(d) else None
    case (Receive(_), Got(x)) => if d != [] && d[0] == x then Some(d[1..]) else None
    case (Receive(_), Fail) => if d == [] then Some(d) else None
    case (Peek(_), Got(x)) => if d != [] && d[0] == x then Some(d) else None
    case (Peek(_), Fail) => if d == [] then Some(d) else None
    case (Reset, Pass) => Some([])
    case (MessagesWaiting, Number(n)) => if n == |d| then Some(d) else None
    case (SpacesAvailable, Number(n)) => if n == capacity - |d| then Some(d) else None
    case _ => None
  }

  /** The deque the history leads to when its actions are taken as atomic. */
  function Replay(capacity: nat, h: seq<Event>): Option<seq<Item>> {
    if h == [] then Some([])
    else
      var d := Replay(capacity, h[..|h| - 1]);
      var e := h[|h| - 1];
      if d.None? then None
      else if e.Acted? then Atomic(capacity, d.value, e.op, e.r)
      else d
  }

  /** Where task t is within its current call, None if its part of the history
      is not a repetition of call, action, return with the action's result. */
  datatype Phase = Outside | Started(op: Op) | Finished(r: Result)

  function Advance(p: Phase, e: Event): Option<Phase> {
    match e
    case Called(_, op) => if p.Outside? then Some(Started(op)) else None
    case Acted(_, op, r) => if p == Started(op) then Some(Finished(r)) else None
    case Returned(_, r) => if p == Finished(r) then Some(Outside) else None
  }

  function PhaseOf(h: seq<Event>, t: nat): Option<Phase> {
    if h == [] then Some(Outside)
    else
      var p := PhaseOf(h[..|h| - 1], t);
      var e := h[|h| - 1];
      if p.None? || e.t != t then p else Advance(p.value, e)
  }

  function PhaseAt(pc: Pc): Phase {
    match pc
    case Idle => Outside
    case Notifying(_, r) => Finished(r)
    case Done(r) => Finished(r)
    case _ => Started(pc.op)
  }

  predicate Linear(s: State) {
    && |s.items| <= s.capacity
    && Replay(s.capacity, s.history) == Some(s.items)
    && forall t: nat :: t < |s.pcs| ==> PhaseOf(s.history, t) == Some(PhaseAt(s.pcs[t]))
  }

  lemma Appended(capacity: nat, h: seq<Event>, e: Event, t: nat)
    ensures Replay(capacity, h + [e]) ==
              match Replay(capacity, h)
              case None => None
              case Some(d) => if e.Acted? then Atomic(capacity, d, e.op, e.r) else Some(d)
    ensures PhaseOf(h + [e], t) ==
              match PhaseOf(h, t)
              case None => None
              case Some(p) => if e.t == t then Advance(p, e) else Some(p)
  {
    assert (h + [e])[..|h + [e]| - 1] == h;
  }

  lemma SectionIsAtomic(items: seq<Item>, capacity: nat, op: Op, timedOut: bool)
    requires |items| <= capacity
    requires Section(items, capacity, op, timedOut).0.Finish?
    ensures |Section(items, capacity, op, timedOut).1| <= capacity
    ensures Atomic(capacity, items, op, Section(items, capacity, op, timedOut).0.r)
         == Some(Section(items, capacity, op, timedOut).1)
  {
  }

  /** What a step adds to the history. */
  function Emitted(s: State, l: Label): Option<Event>
    requires Step(s, l).Some?
  {
    match l
    case Call(t, op) => Some(Called(t, op))
    case Decide(t) =>
      var verdict := Section(s.items, s.capacity, s.pcs[t].op, s.pcs[t].why.TimedOut?).0;
      if verdict.Finish? then Some(Acted(t, s.pcs[t].op, verdict.r)) else None
    case Return(t) => Some(Returned(t, s.pcs[t].r))
    case _ => None
  }

  lemma StepEmits(s: State, l: Label)
    requires Step(s, l).Some?
    ensures var s' := Step(s, l).value;
            && s'.capacity == s.capacity && |s'.pcs| == |s.pcs|
            && s'.history == (match Emitted(s, l) case None => s.history case Some(e) => s.history + [e])
            && (!l.Decide? ==> s'.items == s.items)
            && (l.Decide? ==> s'.items == Section(s.items, s.capacity, s.pcs[l.t].op, s.pcs[l.t].why.TimedOut?).1)
  {
  }

  lemma DecideKeepsReplay(s: State, t: nat)
    requires |s.items| <= s.capacity && Replay(s.capacity, s.history) == Some(s.items)
    requires Step(s, Decide(t)).Some? && Emitted(s, Decide(t)).Some?
    ensures var items := Section(s.items, s.capacity, s.pcs[t].op, s.pcs[t].why.TimedOut?).1;
            |items| <= s.capacity && Replay(s.capacity, s.history + [Emitted(s, Decide(t)).value]) == Some(items)
  {
    Appended(s.capacity, s.history, Emitted(s, Decide(t)).value, t);
    SectionIsAtomic(s.items, s.capacity, s.pcs[t].op, s.pcs[t].why.TimedOut?);
  }

  lemma StepKeepsReplay(s: State, l: Label)
    requires |s.items| <= s.capacity && Replay(s.capacity, s.history) == Some(s.items)
    requires Step(s, l).Some?
    ensures var s' := Step(s, l).value;
            |s'.items| <= s'.capacity && Replay(s'.capacity, s'.history) == Some(s'.items)
  {
    StepEmits(s, l);
    if Emitted(s, l).Some? {
      if l.Decide? {
        DecideKeepsReplay(s, l.t);
      } else {
        Appended(s.capacity, s.history, Emitted(s, l).value, l.t);
      }
    }
  }

  /** A task's place in its call moves with its own events and no others. */
  lemma StepMovesPhase(s: State, l: Label, t: nat)
    requires t < |s.pcs| && Step(s, l).Some?
    ensures match Emitted(s, l)
            case Some(e) =>
              if e.t == t then Advance(PhaseAt(s.pcs[t]), e) == Some(PhaseAt(Step(s, l).value.pcs[t]))
              else PhaseAt(Step(s, l).value.pcs[t]) == PhaseAt(s.pcs[t])
            case None => PhaseAt(Step(s, l).value.pcs[t]) == PhaseAt(s.pcs[t])
  {
  }

  lemma StepKeepsPhase(s: State, l: Label, t: nat)
    requires t < |s.pcs| && PhaseOf(s.history, t) == Some(PhaseAt(s.pcs[t]))
    requires Step(s, l).Some?
    ensures PhaseOf(Step(s, l).value.history, t) == Some(PhaseAt(Step(s, l).value.pcs[t]))
  {
    StepEmits(s, l);
    StepMovesPhase(s, l, t);
    if Emitted(s, l).Some? {
      Appended(s.capacity, s.history, Emitted(s, l).value, t);
    }
  }

  lemma {:induction false} RunKeepsLinear(s: State, ls: seq<Label>)
    requires Linear(s) && Run(Step, s, ls).Some?
    ensures Linear(Run(Step, s, ls).value)
    decreases |ls|
  {
    if ls != [] {
      var s' := Step(s, ls[0]).value;
      StepKeepsReplay(s, ls[0]);
      forall t: nat | t < |s.pcs| ensures PhaseOf(s'.history, t) == Some(PhaseAt(s'.pcs[t])) {
        StepKeepsPhase(s, ls[0], t);
      }
      RunKeepsLinear(s', ls[1..]);
    }
  }

  /** Linearizability: in every run the actions, in the order they happened,
      are legal for one atomic bounded deque that ends with the queue's own
      items, and each task's calls, actions and returns alternate, the action
      lying between its call and its return and carrying the same result. */
  lemma Linearizes(capacity: nat, tasks: nat, ls: seq<Label>, s: State)
    requires Run(Step, Init(capacity, tasks), ls) == Some(s)
    ensures Replay(capacity, s.history) == Some(s.items) && |s.items| <= capacity
    ensures |s.pcs| == tasks
    ensures forall t: nat :: t < tasks ==> PhaseOf(s.history, t) == Some(PhaseAt(s.pcs[t]))
  {
    RunKeepsLinear(Init(capacity, tasks), ls);
    CapacityFixed(Init(capacity, tasks), ls);
  }

  // ---- What goes in, comes out --------------------------------------------

  function In(e: Event): seq<Item> {
    if e.Acted? && e.op.Send? && e.r.Pass? then [e.op.item] else []
  }

  function Out(e: Event): seq<Item> {
    if e.Acted? && e.op.Receive? && e.r.Got? then [e.r.item] else []
  }

  function Sent(h: seq<Event>): seq<Item> {
    if h == [] then [] else Sent(h[..|h| - 1]) + In(h[|h| - 1])
  }

  function Received(h: seq<Event>): seq<Item> {
    if h == [] then [] else Received(h[..|h| - 1]) + Out(h[|h| - 1])
  }

  /** The items the resets of the history threw away. */
  function Discarded(capacity: nat, h: seq<Event>): seq<Item> {
    if h == [] then []
    else
      var e := h[|h| - 1];
      var d := Replay(capacity, h[..|h| - 1]);
      Discarded(capacity, h[..|h| - 1]) + if e.Acted? && e.op.Reset? && d.Some? then d.value else []
  }

  lemma AtomicConserves(capacity: nat, d: seq<Item>, e: Event)
    requires e.Acted? && Atomic(capacity, d, e.op, e.r).Some?
    ensures multiset(d) + multiset(In(e))
         == multiset(Out(e)) + multiset(Atomic(capacity, d, e.op, e.r).value)
            + multiset(if e.op.Reset? then d else [])
  {
    if e.op.Receive? && e.r.Got? {
      assert d == [d[0]] + d[1..];
    }
  }

  lemma AtomicKeepsOrder(capacity: nat, d: seq<Item>, e: Event)
    requires e.Acted? && Atomic(capacity, d, e.op, e.r).Some?
    requires !e.op.Reset? && (e.op.Send? ==> !e.op.front)
    ensures d + In(e) == Out(e) + Atomic(capacity, d, e.op, e.r).value
  {
  }

  lemma Balance(sent: seq<Item>, received: seq<Item>, gone: seq<Item>, d: seq<Item>,
                more: seq<Item>, taken: seq<Item>, thrown: seq<Item>, d': seq<Item>)
    requires multiset(sent) == multiset(received) + multiset(d) + multiset(gone)
    requires multiset(d) + multiset(more) == multiset(taken) + multiset(d') + multiset(thrown)
    ensures multiset(sent + more) == multiset(received + taken) + multiset(d') + multiset(gone + thrown)
  {
    assert multiset(sent) + multiset(more)
        == (multiset(received) + multiset(gone)) + (multiset(d) + multiset(more));
  }

  /** Nothing is lost or made up: sent = received + still queued + discarded. */
  lemma {:induction false} Conserved(capacity: nat, h: seq<Event>)
    requires Replay(capacity, h).Some?
    ensures multiset(Sent(h))
         == multiset(Received(h)) + multiset(Replay(capacity, h).value) + multiset(Discarded(capacity, h))
  {
    if h != [] {
      var e := h[|h| - 1];
      var before := h[..|h| - 1];
      Conserved(capacity, before);
      if e.Acted? {
        var d := Replay(capacity, before).value;
        AtomicConserves(capacity, d, e);
        var thrown := if e.op.Reset? then d else [];
        assert Discarded(capacity, h) == Discarded(capacity, before) + thrown;
        Balance(Sent(before), Received(before), Discarded(capacity, before), d,
                In(e), Out(e), thrown, Replay(capacity, h).value);
      }
    }
  }

  predicate BackOnlyNoReset(h: seq<Event>) {
    forall i :: 0 <= i < |h| && h[i].Acted? ==> !h[i].op.Reset? && (h[i].op.Send? ==> !h[i].op.front)
  }

  lemma ActionKeepsOrder(capacity: nat, d: seq<Item>, e: Event, sent: seq<Item>, received: seq<Item>)
    requires e.Acted? && Atomic(capacity, d, e.op, e.r).Some?
    requires !e.op.Reset? && (e.op.Send? ==> !e.op.front)
    requires sent == received + d
    ensures sent + In(e) == (received + Out(e)) + Atomic(capacity, d, e.op, e.r).value
  {
    AtomicKeepsOrder(capacity, d, e);
    assert (received + d) + In(e) == received + (d + In(e));
  }

  lemma PassedAppend(h: seq<Event>, e: Event)
    ensures Sent(h + [e]) == Sent(h) + In(e) && Received(h + [e]) == Received(h) + Out(e)
  {
    assert (h + [e])[..|h + [e]| - 1] == h;
  }

  /** With sends to the back only and no reset, the items come out in the order
      they went in, none skipped. */
  lemma {:induction false} FirstInFirstOut(capacity: nat, h: seq<Event>)
    requires Replay(capacity, h).Some? && BackOnlyNoReset(h)
    ensures Sent(h) == Received(h) + Replay(capacity, h).value
  {
    if h != [] {
      var e := h[|h| - 1];
      var before := h[..|h| - 1];
      FirstInFirstOut(capacity, before);
      assert h == before + [e];
      PassedAppend(before, e);
      Appended(capacity, before, e, 0);
      if e.Acted? {
        ActionKeepsOrder(capacity, Replay(capacity, before).value, e, Sent(before), Received(before));
      }
    }
  }

  /** The three together, for any number of tasks and any interleaving. */
  lemma RunsConserveItems(capacity: nat, tasks: nat, ls: seq<Label>, s: State)
    requires Run(Step, Init(capacity, tasks), ls) == Some(s)
    ensures multiset(Sent(s.history))
         == multiset(Received(s.history)) + multiset(s.items) + multiset(Discarded(capacity, s.history))
    ensures BackOnlyNoReset(s.history) ==> Sent(s.history) == Received(s.history) + s.items
  {
    Linearizes(capacity, tasks, ls, s);
    Conserved(capacity, s.history);
    if BackOnlyNoReset(s.history) {
      FirstInFirstOut(capacity, s.history);
    }
  }
}
