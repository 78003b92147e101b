/** What the takes and gives of a semaphore answer, against an atomic counter of its
    own; and what the ticks to wait promise. Nothing here refers to the code that runs
    while the mutex is held. */
module FreeRtosSemaphoreHistory {
  import opened Common
  import opened FreeRtosSemaphore

  // ---- The atomic semaphore -----------------------------------------------

  /** What is left to take; who holds a mutex, and how many times. */
  datatype Ledger = Ledger(left: nat, holder: Option<nat>, depth: nat)

  datatype Kind = Counting(max: nat) | PlainMutex | RecursiveMutex

  function Max(k: Kind): nat { if k.Counting? then k.max else 1 }

  /** A recursive mutex its holder takes again, and gives back but for the last time;
      a give asks only how deep it is held, not by whom. */
  predicate Deepens(k: Kind, a: Ledger, t: nat) { k.RecursiveMutex? && a.holder == Some(t) && a.depth > 0 }
  predicate Shallows(k: Kind, a: Ledger) { k.RecursiveMutex? && a.depth > 1 }

  /** The ledger after the event, None when an atomic semaphore could not have answered
      so: a take passes and leaves one less, or there is nothing left; a give passes and
      leaves one more, or the maximum is reached. */
  function Atomic(k: Kind, a: Ledger, e: Event): Option<Ledger> {
    match (e.op, e.passed)
    case (Take(_), true) =>
      if Deepens(k, a, e.t) then Some(a.(depth := (a.depth + 1) % UINT32))
      else if a.left == 0 then None
      else Some(if k.Counting? then a.(left := a.left - 1) else Ledger(0, Some(e.t), 1))
    case (Take(_), false) =>
      if Deepens(k, a, e.t) || a.left > 0 then None else Some(a)
    case (Give, true) =>
      if Shallows(k, a) then Some(a.(depth := a.depth - 1))
      else if a.left >= Max(k) then None
      else Some(if k.Counting? then a.(left := a.left + 1) else Ledger(1, None, 0))
    case (Give, false) =>
      if Shallows(k, a) || a.left < Max(k) then None else Some(a)
  }

  function Replay(k: Kind, start: Ledger, h: seq<Event>): Option<Ledger> {
    if h == [] then Some(start)
    else
      var a := Replay(k, start, h[..|h| - 1]);
      if a.None? then None else Atomic(k, a.value, h[|h| - 1])
  }

  lemma ReplayAppend(k: Kind, start: Ledger, h: seq<Event>, e: Event)
    ensures Replay(k, start, h + [e]) ==
              match Replay(k, start, h) case None => None case Some(a) => Atomic(k, a, e)
  {
    assert (h + [e])[..|h + [e]| - 1] == h;
  }

  // ---- Every run keeps to it ----------------------------------------------

  /** The semaphore of that kind that the ledger describes. */
  predicate Reads(f: Fields, k: Kind, a: Ledger) {
    && f.count == a.left && f.maxCount == Max(k) && f.isMutex == !k.Counting? && f.isRecursive == k.RecursiveMutex?
    && (f.isMutex ==> f.owner == a.holder && f.recursion == a.depth && f.count <= 1)
  }

  /** A sleeper does not hold the recursive mutex it waits for. */
  predicate SleeperFits(f: Fields, t: nat, pc: Pc) {
    f.isRecursive && (pc.Asleep? || IsWoken(pc)) ==> !(f.owner == Some(t) && f.recursion > 0)
  }

  predicate Faithful(s: State, k: Kind, start: Ledger) {
    && (var a := Replay(k, start, s.history); a.Some? && Reads(s.f, k, a.value))
    && forall t: nat :: t < |s.pcs| ==> SleeperFits(s.f, t, s.pcs[t])
  }

  lemma SectionIsAtomic(f: Fields, k: Kind, a: Ledger, t: nat, pc: Pc)
    requires Reads(f, k, a) && pc.Holding? && SleeperFits(f, t, pc) && (pc.woken ==> pc.op.Take?)
    ensures var (v, f') := Section(f, t, pc.op, pc.woken, pc.timedOut);
            if v.Sleep? then f' == f && pc.op.Take? && SleeperFits(f, t, Asleep(pc.op.wait))
            else
              var next := Atomic(k, a, Acted(t, pc.op, v.Pass?));
              next.Some? && Reads(f', k, next.value)
  {
  }

  /** Whoever else sleeps still does not hold the mutex. */
  lemma SectionLeavesSleepers(f: Fields, t: nat, op: Op, woken: bool, timedOut: bool, u: nat, pc: Pc)
    requires u != t && SleeperFits(f, u, pc)
    ensures SleeperFits(Section(f, t, op, woken, timedOut).1, u, pc)
  {
  }

  lemma DecideIsFaithful(s: State, t: nat, k: Kind, start: Ledger)
    requires Faithful(s, k, start) && Step(s, Decide(t)).Some?
    ensures Faithful(DecideStep(s, t), k, start)
  {
    var s', pc := DecideStep(s, t), s.pcs[t];
    var (v, f) := Section(s.f, t, pc.op, pc.woken, pc.timedOut);
    SectionIsAtomic(s.f, k, Replay(k, start, s.history).value, t, pc);
    ReplayAppend(k, start, s.history, Acted(t, pc.op, v.Pass?));
    forall u: nat | u < |s'.pcs| ensures SleeperFits(s'.f, u, s'.pcs[u]) {
      if u != t {
        SectionLeavesSleepers(s.f, t, pc.op, pc.woken, pc.timedOut, u, s.pcs[u]);
      }
    }
  }

  lemma OthersAreFaithful(s: State, l: Label, k: Kind, start: Ledger)
    requires Faithful(s, k, start) && Step(s, l).Some? && !l.Decide?
    ensures Faithful(Step(s, l).value, k, start)
  {
    var s' := Step(s, l).value;
    OnlyDecisionsAct(s, l);
    forall u: nat | u < |s'.pcs| ensures SleeperFits(s'.f, u, s'.pcs[u]) {
      assert SleeperFits(s.f, u, s.pcs[u]);
    }
  }

  lemma {:induction false} RunIsFaithful(s: State, ls: seq<Label>, k: Kind, start: Ledger)
    requires Faithful(s, k, start) && Run(Step, s, ls).Some?
    ensures Faithful(Run(Step, s, ls).value, k, start)
    decreases |ls|
  {
    if ls != [] {
      match ls[0] {
        case Decide(t) => DecideIsFaithful(s, t, k, start);
        case _ => OthersAreFaithful(s, ls[0], k, start);
      }
      RunIsFaithful(Step(s, ls[0]).value, ls[1..], k, start);
    }
  }

  function Created(k: Kind, initial: nat): Fields {
    match k
    case Counting(max) => Counter(max, initial)
    case PlainMutex => Mutex(false)
    case RecursiveMutex => Mutex(true)
  }

  /** In every run of every semaphore, however it was created, the answers in the order
      the mutex was held are those of one atomic counter: a take passes iff something is
      left, a give passes iff the maximum is not reached, a recursive mutex counts its
      holder's takes; and the fields are what that counter says. */
  lemma AnswersAreAtomic(k: Kind, initial: nat, tasks: nat, ls: seq<Label>, s: State)
    requires Run(Step, Init(Created(k, initial), tasks), ls) == Some(s)
    ensures var a := Replay(k, Ledger(if k.Counting? then initial else 1, None, 0), s.history);
            && a.Some? && s.f.count == a.value.left && s.f.maxCount == Max(k)
            && (!k.Counting? ==> s.f.owner == a.value.holder && s.f.recursion == a.value.depth)
  {
    RunIsFaithful(Init(Created(k, initial), tasks), ls, k, Ledger(if k.Counting? then initial else 1, None, 0));
  }

  // ---- Which takes may fail, and which may sleep --------------------------

  /** The wait of task t has run out since its last call. */
  predicate Expired(ls: seq<Label>, t: nat) {
    ls != [] &&
    var last := ls[|ls| - 1];
    if last == TimeOut(t) then true
    else if last.Call? && last.t == t then false
    else Expired(ls[..|ls| - 1], t)
  }

  lemma ExpiredAppend(ls: seq<Label>, l: Label, t: nat)
    ensures Expired(ls + [l], t) == (l == TimeOut(t) || (!(l.Call? && l.t == t) && Expired(ls, t)))
  {
    assert (ls + [l])[..|ls + [l]| - 1] == ls;
  }

  predicate WaitFits(pc: Pc, expired: bool) {
    match pc
    case Entering(_) => !expired
    case Asleep(wait) => !wait.NoWait? && !expired
    case Woken(wait, timedOut) => !wait.NoWait? && timedOut == expired && (expired ==> wait.Bounded?)
    case Holding(op, woken, timedOut) =>
      timedOut == expired && (expired ==> woken) && (woken && op.Take? ==> !op.wait.NoWait?)
      && (expired ==> op.Take? && op.wait.Bounded?)
    case _ => true
  }

  predicate WaitsFit(s: State, ls: seq<Label>) {
    forall t :: 0 <= t < |s.pcs| ==> WaitFits(s.pcs[t], Expired(ls, t))
  }

  predicate FailuresFit(h: seq<Event>) {
    forall i :: 0 <= i < |h| && h[i].op.Take? && !h[i].passed ==> !h[i].op.wait.Forever?
  }

  lemma DecideFitsWait(s: State, t: nat, expired: bool)
    requires t < |s.pcs| && s.pcs[t].Holding? && WaitFits(s.pcs[t], expired)
    ensures WaitFits(DecideStep(s, t).pcs[t], expired)
    ensures expired ==> !DecideStep(s, t).pcs[t].Asleep?
    ensures var h := DecideStep(s, t).history;
            if DecideStep(s, t).pcs[t].Asleep? then h == s.history
            else
              && |h| == |s.history| + 1 && s.history <= h && h[|s.history|].t == t
              && (h[|s.history|].op.Take? && !h[|s.history|].passed ==>
                    !h[|s.history|].op.wait.Forever? && (h[|s.history|].op.wait.Bounded? ==> expired))
  {
  }

  lemma StepFitsWait(s: State, ls: seq<Label>, l: Label, t: nat)
    requires WaitsFit(s, ls) && Step(s, l).Some? && t < |s.pcs|
    ensures WaitFits(Step(s, l).value.pcs[t], Expired(ls + [l], t))
  {
    ExpiredAppend(ls, l, t);
    assert WaitFits(s.pcs[t], Expired(ls, t));
    if l == Decide(t) {
      DecideFitsWait(s, t, Expired(ls, t));
    }
  }

  lemma StepFailsFitly(s: State, ls: seq<Label>, l: Label)
    requires WaitsFit(s, ls) && FailuresFit(s.history) && Step(s, l).Some?
    ensures FailuresFit(Step(s, l).value.history)
  {
    if l.Decide? {
      DecideFitsWait(s, l.t, Expired(ls, l.t));
    } else {
      OnlyDecisionsAct(s, l);
    }
  }

  lemma {:induction false} RunFitsWaits(s: State, past: seq<Label>, ls: seq<Label>)
    requires WaitsFit(s, past) && FailuresFit(s.history) && Run(Step, s, ls).Some?
    ensures WaitsFit(Run(Step, s, ls).value, past + ls) && FailuresFit(Run(Step, s, ls).value.history)
    decreases |ls|
  {
    if ls == [] {
      assert past + ls == past;
    } else {
      var s' := Step(s, ls[0]).value;
      forall t | 0 <= t < |s'.pcs| ensures WaitFits(s'.pcs[t], Expired(past + [ls[0]], t)) {
        StepFitsWait(s, past, ls[0], t);
      }
      StepFailsFitly(s, past, ls[0]);
      RunFitsWaits(s', past + [ls[0]], ls[1..]);
      assert (past + [ls[0]]) + ls[1..] == past + ls;
    }
  }

  /** In every run: no task sleeps in a take with no ticks to wait, or in one whose wait
      has run out; and no take that waits for ever has failed. */
  lemma WaitsAreRespected(f: Fields, tasks: nat, ls: seq<Label>, s: State)
    requires Run(Step, Init(f, tasks), ls) == Some(s)
    ensures forall t :: 0 <= t < |s.pcs| && s.pcs[t].Asleep? ==> !s.pcs[t].wait.NoWait? && !Expired(ls, t)
    ensures forall i :: 0 <= i < |s.history| && s.history[i].op.Take? && !s.history[i].passed ==>
              !s.history[i].op.wait.Forever?
  {
    RunFitsWaits(Init(f, tasks), [], ls);
    assert [] + ls == ls;
    forall t | 0 <= t < |s.pcs| && s.pcs[t].Asleep? ensures !s.pcs[t].wait.NoWait? && !Expired(ls, t) {
      assert WaitFits(s.pcs[t], Expired(ls, t));
    }
  }

  /** A take with a bounded wait fails only once that wait has run out, and after that
      it never sleeps again. */
  lemma BoundedTakesFailLate(f: Fields, tasks: nat, ls: seq<Label>, s: State, t: nat, wait: Wait, s': State)
    requires Run(Step, Init(f, tasks), ls) == Some(s)
    requires Step(s, Decide(t)) == Some(s')
    ensures s'.history == s.history + [Acted(t, Take(wait), false)] ==>
              !wait.Forever? && (wait.Bounded? ==> Expired(ls, t))
    ensures Expired(ls, t) ==> !s'.pcs[t].Asleep? && |s'.history| == |s.history| + 1
  {
    RunFitsWaits(Init(f, tasks), [], ls);
    assert [] + ls == ls;
    assert WaitFits(s.pcs[t], Expired(ls, t));
    DecideFitsWait(s, t, Expired(ls, t));
  }
}
