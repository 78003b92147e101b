/** What the ticks to wait promise: which calls may fail, which may sleep, and when.
    The labels of a run tell what happened to a call; nothing here refers to the code
    that runs while the mutex is held. */
module FreeRtosQueueWaits {
  import opened Common
  import opened FreeRtosQueue

  predicate Blocks(op: Op) { op.Send? || op.Receive? || op.Peek? }

  /** The wait of task t has run out since its last call. */
  predicate Expired(ls: seq<Label>, t: nat) {
    ls != [] &&
    var last := ls[|ls| - 1];
    if last == TimeOut(t) then true
    else if last.Call? && last.t == t then false
    else Expired(ls[..|ls| - 1], t)
  }

  lemma ExpiredAppend(ls: seq<Label>, l: Label, t: nat)
    ensures Expired(ls + [l], t) == (l == TimeOut(t) || (!(l.Call? && l.t == t) && Expired(ls, t)))
  {
    assert (ls + [l])[..|ls + [l]| - 1] == ls;
  }

  predicate MayWait(op: Op, expired: bool) {
    Blocks(op) && !op.wait.NoWait? && (expired ==> op.wait.Bounded?)
  }

  predicate WaitFits(pc: Pc, expired: bool) {
    match pc
    case Entering(_) => !expired
    case Asleep(op) => MayWait(op, expired) && !expired
    case Woken(op, why) => MayWait(op, expired) && !why.Fresh? && (why.TimedOut? <==> expired)
    case Holding(op, why) => (why.TimedOut? <==> expired) && (why.Fresh? || MayWait(op, expired))
    case _ => true
  }

  predicate WaitsFit(s: State, ls: seq<Label>) {
    forall t :: 0 <= t < |s.pcs| ==> WaitFits(s.pcs[t], Expired(ls, t))
  }

  /** Every failure in the history is one of a call that could fail. */
  predicate FailuresFit(h: seq<Event>) {
    forall i :: 0 <= i < |h| && h[i].Acted? && h[i].r.Fail? ==> Blocks(h[i].op) && !h[i].op.wait.Forever?
  }

  lemma DecideFits(s: State, t: nat, expired: bool)
    requires t < |s.pcs| && s.pcs[t].Holding? && WaitFits(s.pcs[t], expired)
    ensures WaitFits(DecideStep(s, t).pcs[t], expired)
    ensures expired ==> !DecideStep(s, t).pcs[t].Asleep?
    ensures var h := DecideStep(s, t).history;
            if DecideStep(s, t).pcs[t].Asleep? then h == s.history
            else
              && |h| == |s.history| + 1 && s.history <= h && h[|s.history|].Acted? && h[|s.history|].t == t
              && (h[|s.history|].r.Fail? ==>
                    var op := h[|s.history|].op;
                    Blocks(op) && !op.wait.Forever? && (op.wait.Bounded? ==> expired))
  {
  }

  lemma StepFits(s: State, ls: seq<Label>, l: Label, t: nat)
    requires WaitsFit(s, ls) && Step(s, l).Some? && t < |s.pcs|
    ensures WaitFits(Step(s, l).value.pcs[t], Expired(ls + [l], t))
  {
    ExpiredAppend(ls, l, t);
    assert WaitFits(s.pcs[t], Expired(ls, t));
    if l == Decide(t) {
      DecideFits(s, t, Expired(ls, t));
    }
  }

  lemma StepFailsFitly(s: State, ls: seq<Label>, l: Label)
    requires WaitsFit(s, ls) && FailuresFit(s.history) && Step(s, l).Some?
    ensures FailuresFit(Step(s, l).value.history)
  {
    if l.Decide? {
      DecideFits(s, l.t, Expired(ls, l.t));
    }
  }

  lemma {:induction false} RunFits(s: State, past: seq<Label>, ls: seq<Label>)
    requires WaitsFit(s, past) && FailuresFit(s.history) && Run(Step, s, ls).Some?
    ensures WaitsFit(Run(Step, s, ls).value, past + ls) && FailuresFit(Run(Step, s, ls).value.history)
    decreases |ls|
  {
    if ls == [] {
      assert past + ls == past;
    } else {
      var s' := Step(s, ls[0]).value;
      forall t | 0 <= t < |s'.pcs| ensures WaitFits(s'.pcs[t], Expired(past + [ls[0]], t)) {
        StepFits(s, past, ls[0], t);
      }
      StepFailsFitly(s, past, ls[0]);
      RunFits(s', past + [ls[0]], ls[1..]);
      assert (past + [ls[0]]) + ls[1..] == past + ls;
    }
  }

  /** In every run: no task sleeps in a call with no ticks to wait, or in one whose
      wait has run out; and no call that waits for ever has failed. */
  lemma WaitsAreRespected(capacity: nat, tasks: nat, ls: seq<Label>, s: State)
    requires Run(Step, Init(capacity, tasks), ls) == Some(s)
    ensures forall t :: 0 <= t < |s.pcs| && s.pcs[t].Asleep? ==>
              Blocks(s.pcs[t].op) && !s.pcs[t].op.wait.NoWait? && !Expired(ls, t)
    ensures forall i :: 0 <= i < |s.history| && s.history[i].Acted? && s.history[i].r.Fail? ==>
              Blocks(s.history[i].op) && !s.history[i].op.wait.Forever?
  {
    RunFits(Init(capacity, tasks), [], ls);
    assert [] + ls == ls;
    forall t | 0 <= t < |s.pcs| && s.pcs[t].Asleep?
      ensures Blocks(s.pcs[t].op) && !s.pcs[t].op.wait.NoWait? && !Expired(ls, t)
    {
      assert WaitFits(s.pcs[t], Expired(ls, t));
    }
  }

  /** A call with a bounded wait fails only once that wait has run out, and then the
      decision is the end of it: after its wait has run out a call never sleeps again. */
  lemma BoundedCallsFailLate(capacity: nat, tasks: nat, ls: seq<Label>, s: State, t: nat, op: Op, s': State)
    requires Run(Step, Init(capacity, tasks), ls) == Some(s)
    requires Step(s, Decide(t)) == Some(s')
    ensures s'.history == s.history + [Acted(t, op, Fail)] ==>
              Blocks(op) && !op.wait.Forever? && (op.wait.Bounded? ==> Expired(ls, t))
    ensures Expired(ls, t) ==> !s'.pcs[t].Asleep? && |s'.history| == |s.history| + 1
  {
    RunFits(Init(capacity, tasks), [], ls);
    assert [] + ls == ls;
    assert WaitFits(s.pcs[t], Expired(ls, t));
    DecideFits(s, t, Expired(ls, t));
  }
}
