/** Direct-to-task notifications: a 32-bit counter in the task's slot, raised by
    any task and taken, with a wait, by the task itself only. */
module FreeRtosNotify {
  import opened Common

  datatype Verdict = Return(value: Word) | Sleep

  // ---- The code that runs while notify_mutex is held ----------------------

  /** What a take leaves and returns; a wait that is over returns even at 0. */
  function Taken(value: Word, clear: bool, mayWait: bool): (Verdict, Word) {
    if value == 0 then (if mayWait then Sleep else Return(0), 0)
    else (Return(value), if clear then 0 else value - 1)
  }

  class TaskSlot {
    var notifyValue: Word

    constructor ()
      ensures notifyValue == 0
    {
      notifyValue := 0;
    }

    method GiveLocked()
      modifies this
      ensures notifyValue == Incremented(old(notifyValue))
    {
      notifyValue := (notifyValue + 1) % UINT32;
    }

    method TakeLocked(clear: bool, wait: Wait, timedOut: bool) returns (v: Verdict)
      modifies this
      ensures (v, notifyValue) == Taken(old(notifyValue), clear, !wait.NoWait? && !timedOut)
    {
      if notifyValue == 0 && !wait.NoWait? && !timedOut {
        return Sleep;
      }
      var value := notifyValue;
      if value == 0 {
        return Return(0);
      }
      if clear {
        notifyValue := 0;
      } else {
        notifyValue := notifyValue - 1;
      }
      return Return(value);
    }
  }

  // ---- The owner of the slot and the tasks that give to it ----------------

  datatype Taker =
    | Running
    | Entering(clear: bool, wait: Wait)
    | Holding(clear: bool, wait: Wait, timedOut: bool)
    | Asleep(clear: bool, wait: Wait)
    | Woken(clear: bool, wait: Wait, timedOut: bool)

  datatype Giver = Free | Arriving | Inside | Notifying

  datatype Holder = Nobody | Owner | Other(t: nat)

  datatype Event = Gave | Took(clear: bool, wait: Wait, value: Word)

  /** given counts the gives, consumed what the takes took off the counter. */
  datatype State = State(value: Word, lock: Holder, taker: Taker, givers: seq<Giver>,
                         given: nat, consumed: nat, history: seq<Event>)

  function Init(givers: nat): State {
    State(0, Nobody, Running, seq(givers, i => Free), 0, 0, [])
  }

  datatype Label =
    | Take(clear: bool, wait: Wait) | TakerLocks | TakerDecides | TimeOut | Spurious
    | Give(t: nat) | GiverLocks(t: nat) | GiverAdds(t: nat) | NotifyAll(t: nat)

  predicate IsNotifying(g: Giver) { g.Notifying? }

  function Wake(taker: Taker, timedOut: bool): Taker {
    if taker.Asleep? then Woken(taker.clear, taker.wait, timedOut) else taker
  }

  function TakerDecide(s: State): State
    requires s.taker.Holding?
  {
    var Holding(clear, wait, timedOut) := s.taker;
    var (v, value) := Taken(s.value, clear, !wait.NoWait? && !timedOut);
    if v.Sleep? then s.(lock := Nobody, taker := Asleep(clear, wait))
    else s.(value := value, lock := Nobody, taker := Running, consumed := s.consumed + (s.value - value),
            history := s.history + [Took(clear, wait, v.value)])
  }

  function Step(s: State, l: Label): Option<State> {
    match l
    case Take(clear, wait) => if s.taker.Running? then Some(s.(taker := Entering(clear, wait))) else None
    case TakerLocks =>
      if !s.lock.Nobody? then None
      else if s.taker.Entering? then Some(s.(lock := Owner, taker := Holding(s.taker.clear, s.taker.wait, false)))
      else if s.taker.Woken? then Some(s.(lock := Owner, taker := Holding(s.taker.clear, s.taker.wait, s.taker.timedOut)))
      else None
    case TakerDecides => if s.taker.Holding? then Some(TakerDecide(s)) else None
    case TimeOut => if s.taker.Asleep? && s.taker.wait.Bounded? then Some(s.(taker := Wake(s.taker, true))) else None
    case Spurious => if s.taker.Asleep? then Some(s.(taker := Wake(s.taker, false))) else None
    case Give(t) =>
      if t < |s.givers| && s.givers[t].Free? then Some(s.(givers := s.givers[t := Arriving])) else None
    case GiverLocks(t) =>
      if t < |s.givers| && s.givers[t].Arriving? && s.lock.Nobody? then
        Some(s.(givers := s.givers[t := Inside], lock := Other(t)))
      else None
    case GiverAdds(t) =>
      if t < |s.givers| && s.givers[t].Inside? then
        Some(s.(givers := s.givers[t := Notifying], lock := Nobody, value := Incremented(s.value), given := s.given + 1,
                history := s.history + [Gave]))
      else None
    case NotifyAll(t) =>
      if t < |s.givers| && s.givers[t].Notifying? then
        Some(s.(givers := s.givers[t := Free], taker := Wake(s.taker, false)))
      else None
  }

  predicate Inv(s: State) {
    && (s.taker.Holding? <==> s.lock.Owner?)
    && (forall t :: 0 <= t < |s.givers| ==> (s.givers[t].Inside? <==> s.lock == Other(t)))
    && (s.taker.Asleep? && s.value > 0 ==> Count(s.givers, IsNotifying) > 0)
    && s.value < UINT32
  }

  predicate Balanced(consumed: nat, value: nat, given: nat) {
    (consumed + value) % UINT32 == given % UINT32 && consumed + value <= given
  }

  lemma NextRemainder(x: nat, y: nat)
    requires x % UINT32 == y % UINT32
    ensures (x + 1) % UINT32 == (y + 1) % UINT32
  {
  }

  lemma TurnLess(x: nat)
    requires x >= UINT32
    ensures (x - UINT32) % UINT32 == x % UINT32
  {
  }

  lemma GiveBalances(consumed: nat, value: Word, given: nat)
    requires Balanced(consumed, value, given)
    ensures Balanced(consumed, Incremented(value), given + 1)
  {
    NextRemainder(consumed + value, given);
    if value == UINT32 - 1 {
      TurnLess(consumed + value + 1);
    }
  }

  lemma StepKeepsInv(s: State, l: Label)
    requires Inv(s) && Step(s, l).Some?
    ensures Inv(Step(s, l).value)
  {
    if l.Give? || l.GiverLocks? || l.GiverAdds? || l.NotifyAll? {
      CountUpdate(s.givers, l.t, Step(s, l).value.givers[l.t], IsNotifying);
    }
  }

  lemma StepBalances(s: State, l: Label)
    requires Inv(s) && Step(s, l).Some? && Balanced(s.consumed, s.value, s.given)
    ensures var s' := Step(s, l).value; Balanced(s'.consumed, s'.value, s'.given)
  {
    if l.GiverAdds? {
      GiveBalances(s.consumed, s.value, s.given);
    }
  }

  lemma {:induction false} RunKeepsInv(s: State, ls: seq<Label>)
    requires Inv(s) && Run(Step, s, ls).Some? && Balanced(s.consumed, s.value, s.given)
    ensures var s' := Run(Step, s, ls).value; Inv(s') && Balanced(s'.consumed, s'.value, s'.given)
    decreases |ls|
  {
    if ls != [] {
      StepKeepsInv(s, ls[0]);
      StepBalances(s, ls[0]);
      RunKeepsInv(Step(s, ls[0]).value, ls[1..]);
    }
  }

  /** The task never sleeps on a pending notification unless one of the gives has
      its notify_all still to make. */
  lemma NoLostNotification(givers: nat, ls: seq<Label>, s: State)
    requires Run(Step, Init(givers), ls) == Some(s) && s.taker.Asleep? && s.value > 0
    ensures exists t :: 0 <= t < |s.givers| && s.givers[t].Notifying?
  {
    RunKeepsInv(Init(givers), ls);
    CountPositive(s.givers, IsNotifying);
  }

  /** No give is taken twice, and none is lost but by the counter's wrap: what is
      left is gives minus takes mod 2^32, and exactly gives minus takes if and only
      if fewer than 2^32 gives are outstanding. */
  lemma GivesAreConserved(givers: nat, ls: seq<Label>, s: State)
    requires Run(Step, Init(givers), ls) == Some(s)
    ensures s.consumed <= s.given && s.value == (s.given - s.consumed) % UINT32
    ensures s.value == s.given - s.consumed <==> s.given - s.consumed < UINT32
  {
    RunKeepsInv(Init(givers), ls);
    Outstanding(s.consumed, s.value, s.given);
  }

  lemma Outstanding(consumed: nat, value: Word, given: nat)
    requires Balanced(consumed, value, given)
    ensures value == (given - consumed) % UINT32
  {
  }

  // ---- What the takes answer, against a counter of their own --------------

  /** The pending gives after the event, None when it could not have happened so: a take
      answers all that is pending, and leaves nothing or one less. */
  function Atomic(pending: nat, e: Event): Option<nat> {
    match e
    case Gave => Some((pending + 1) % UINT32)
    case Took(clear, _, value) =>
      if value != pending then None else Some(if clear || value == 0 then 0 else value - 1)
  }

  function Replay(h: seq<Event>): Option<nat> {
    if h == [] then Some(0)
    else
      var n := Replay(h[..|h| - 1]);
      if n.None? then None else Atomic(n.value, h[|h| - 1])
  }

  lemma ReplayAppend(h: seq<Event>, e: Event)
    ensures Replay(h + [e]) == match Replay(h) case None => None case Some(n) => Atomic(n, e)
  {
    assert (h + [e])[..|h + [e]| - 1] == h;
  }

  /** The wait of the take in progress has run out. */
  predicate Expired(ls: seq<Label>) {
    ls != [] &&
    var last := ls[|ls| - 1];
    if last.TimeOut? then true else if last.Take? then false else Expired(ls[..|ls| - 1])
  }

  lemma ExpiredAppend(ls: seq<Label>, l: Label)
    ensures Expired(ls + [l]) == (l.TimeOut? || (!l.Take? && Expired(ls)))
  {
    assert (ls + [l])[..|ls + [l]| - 1] == ls;
  }

  predicate WaitFits(taker: Taker, expired: bool) {
    match taker
    case Running => true
    case Entering(_, _) => !expired
    case Asleep(_, wait) => !wait.NoWait? && !expired
    case Woken(_, wait, timedOut) => !wait.NoWait? && timedOut == expired && (expired ==> wait.Bounded?)
    case Holding(_, wait, timedOut) => timedOut == expired && (expired ==> wait.Bounded?)
  }

  predicate EmptyTakesFit(h: seq<Event>) {
    forall i :: 0 <= i < |h| && h[i].Took? && h[i].value == 0 ==> !h[i].wait.Forever?
  }

  predicate Answered(s: State, ls: seq<Label>) {
    Replay(s.history) == Some(s.value) && EmptyTakesFit(s.history) && WaitFits(s.taker, Expired(ls))
  }

  lemma TakerAnswers(s: State, expired: bool)
    requires s.taker.Holding? && WaitFits(s.taker, expired) && Replay(s.history) == Some(s.value)
    ensures var s' := TakerDecide(s);
            && Replay(s'.history) == Some(s'.value) && WaitFits(s'.taker, expired)
            && (expired ==> s'.taker.Running?)
            && (s'.taker.Running? ==>
                  s'.history == s.history + [Took(s.taker.clear, s.taker.wait, s.value)]
                  && (s.value == 0 ==> !s.taker.wait.Forever? && (s.taker.wait.Bounded? ==> expired)))
            && (!s'.taker.Running? ==> s'.history == s.history)
  {
    ReplayAppend(s.history, Took(s.taker.clear, s.taker.wait, s.value));
  }

  lemma StepAnswers(s: State, ls: seq<Label>, l: Label)
    requires Answered(s, ls) && Step(s, l).Some?
    ensures Answered(Step(s, l).value, ls + [l])
  {
    ExpiredAppend(ls, l);
    if l.TakerDecides? {
      TakerAnswers(s, Expired(ls));
    } else if l.GiverAdds? {
      ReplayAppend(s.history, Gave);
    }
  }

  lemma {:induction false} RunAnswers(s: State, past: seq<Label>, ls: seq<Label>)
    requires Answered(s, past) && Run(Step, s, ls).Some?
    ensures Answered(Run(Step, s, ls).value, past + ls)
    decreases |ls|
  {
    if ls == [] {
      assert past + ls == past;
    } else {
      StepAnswers(s, past, ls[0]);
      RunAnswers(Step(s, ls[0]).value, past + [ls[0]], ls[1..]);
      assert (past + [ls[0]]) + ls[1..] == past + ls;
    }
  }

  /** In every run each take answers exactly what is pending and leaves nothing, or one
      less when it was not to clear; one that waits for ever never answers 0; and nobody
      sleeps in a take with no ticks to wait or whose wait has run out. */
  lemma TakesAnswerPending(givers: nat, ls: seq<Label>, s: State)
    requires Run(Step, Init(givers), ls) == Some(s)
    ensures Replay(s.history) == Some(s.value)
    ensures forall i :: 0 <= i < |s.history| && s.history[i].Took? && s.history[i].value == 0 ==>
              !s.history[i].wait.Forever?
    ensures s.taker.Asleep? ==> !s.taker.wait.NoWait? && !Expired(ls)
  {
    RunAnswers(Init(givers), [], ls);
    assert [] + ls == ls;
  }

  /** A take with a bounded wait answers 0 only once that wait has run out, and then it
      does not sleep again. */
  lemma BoundedTakesGiveUpLate(givers: nat, ls: seq<Label>, s: State, clear: bool, wait: Wait, s': State)
    requires Run(Step, Init(givers), ls) == Some(s) && Step(s, TakerDecides) == Some(s')
    ensures s'.history == s.history + [Took(clear, wait, 0)] ==> !wait.Forever? && (wait.Bounded? ==> Expired(ls))
    ensures Expired(ls) ==> s'.taker.Running?
  {
    RunAnswers(Init(givers), [], ls);
    assert [] + ls == ls;
    TakerAnswers(s, Expired(ls));
  }
}
