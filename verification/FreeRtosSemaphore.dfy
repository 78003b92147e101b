/** FreeRTOS semaphores, mutexes and recursive mutexes: one counter behind a
    mutex and one condition variable, taken and given by interleaved tasks. */
module FreeRtosSemaphore {
  import opened Common

  datatype Op = Take(wait: Wait) | Give

  datatype Verdict = Pass | Fail | Sleep

  /** The fields of the semaphore; a thread id is the number of a task. */
  datatype Fields = Fields(
    count: nat, maxCount: nat, isMutex: bool, isRecursive: bool,
    owner: Option<nat>, recursion: Word)

  /** xSemaphoreCreateCounting; the binary one is Counter(1, 0). */
  function Counter(maxCount: nat, initial: nat): Fields {
    Fields(initial, maxCount, false, false, None, 0)
  }

  function Mutex(recursive: bool): Fields {
    Fields(1, 1, true, recursive, None, 0)
  }

  // ---- The code that runs while the internal mutex is held ----------------

  /** A task that was asleep resumes after the recursion test. */
  function Section(f: Fields, self: nat, op: Op, woken: bool, timedOut: bool): (Verdict, Fields) {
    match op
    case Take(wait) =>
      if !woken && f.isRecursive && f.owner == Some(self) && f.recursion > 0 then
        (Pass, f.(recursion := Incremented(f.recursion)))
      else if f.count == 0 then
        (if wait.NoWait? || timedOut then Fail else Sleep, f)
      else
        (Pass, if f.isMutex then f.(count := f.count - 1, owner := Some(self), recursion := 1)
               else f.(count := f.count - 1))
    case Give =>
      if f.isRecursive && f.recursion > 1 then (Pass, f.(recursion := f.recursion - 1))
      else if f.count >= f.maxCount then (Fail, f)
      else (Pass, if f.isMutex then f.(count := f.count + 1, owner := None, recursion := 0)
                  else f.(count := f.count + 1))
  }

  class Semaphore {
    var count: nat
    const maxCount: nat
    const isMutex: bool
    const isRecursive: bool
    var owner: Option<nat>
    var recursion: Word

    function State(): Fields
      reads this
    {
      Fields(count, maxCount, isMutex, isRecursive, owner, recursion)
    }

    constructor (f: Fields)
      ensures State() == f
    {
      count, maxCount, isMutex, isRecursive := f.count, f.maxCount, f.isMutex, f.isRecursive;
      owner, recursion := f.owner, f.recursion;
    }

    method TakeLocked(self: nat, wait: Wait, woken: bool, timedOut: bool) returns (v: Verdict)
      modifies this
      ensures (v, State()) == Section(old(State()), self, Take(wait), woken, timedOut)
      ensures v != Pass ==> State() == old(State())
    {
      if !woken {
        if isRecursive && owner == Some(self) && recursion > 0 {
          recursion := Incremented(recursion);
          return Pass;
        }
      }
      if count == 0 {
        return if wait.NoWait? || timedOut then Fail else Sleep;
      }
      count := count - 1;
      if isMutex {
        owner := Some(self);
        recursion := 1;
      }
      return Pass;
    }

    method GiveLocked(self: nat) returns (v: Verdict)
      modifies this
      ensures (v, State()) == Section(old(State()), self, Give, false, false)
      ensures old(count) <= maxCount ==> count <= maxCount
    {
      if isRecursive && recursion > 1 {
        recursion := recursion - 1;
        return Pass;
      }
      if count >= maxCount {
        return Fail;
      }
      count := count + 1;
      if isMutex {
        owner := None;
        recursion := 0;
      }
      return Pass;
    }
  }

  // ---- Tasks --------------------------------------------------------------

  datatype Pc =
    | Idle
    | Entering(op: Op)
    | Holding(op: Op, woken: bool, timedOut: bool)
    | Asleep(wait: Wait)
    | Woken(wait: Wait, timedOut: bool)
    | Notifying

  datatype Event = Acted(t: nat, op: Op, passed: bool)

  datatype State = State(f: Fields, lock: Option<nat>, pcs: seq<Pc>, history: seq<Event>)

  function Init(f: Fields, tasks: nat): State {
    State(f, None, seq(tasks, i => Idle), [])
  }

  predicate IsAsleep(pc: Pc) { pc.Asleep? }
  predicate IsWoken(pc: Pc) { pc.Woken? || (pc.Holding? && pc.woken) }
  predicate IsNotifying(pc: Pc) { pc.Notifying? }

  datatype Label =
    | Call(t: nat, op: Op)
    | Acquire(t: nat)
    | Decide(t: nat)
    | Notify(t: nat, waiter: Option<nat>)
    | TimeOut(t: nat)
    | Spurious(t: nat)

  /** Only a give that raised the count notifies. */
  function DecideStep(s: State, t: nat): State
    requires t < |s.pcs| && s.pcs[t].Holding?
  {
    var Holding(op, woken, timedOut) := s.pcs[t];
    var (verdict, f) := Section(s.f, t, op, woken, timedOut);
    if verdict.Sleep? then
      s.(lock := None, pcs := s.pcs[t := Asleep(op.wait)])
    else
      s.(f := f, lock := None,
         pcs := s.pcs[t := if op.Give? && f.count > s.f.count then Notifying else Idle],
         history := s.history + [Acted(t, op, verdict.Pass?)])
  }

  function Step(s: State, l: Label): Option<State> {
    if l.t >= |s.pcs| then None
    else
      var pc := s.pcs[l.t];
      match l
      case Call(t, op) =>
        if pc.Idle? then Some(s.(pcs := s.pcs[t := Entering(op)])) else None
      case Acquire(t) =>
        if s.lock.Some? then None
        else if pc.Entering? then Some(s.(lock := Some(t), pcs := s.pcs[t := Holding(pc.op, false, false)]))
        else if pc.Woken? then Some(s.(lock := Some(t), pcs := s.pcs[t := Holding(Take(pc.wait), true, pc.timedOut)]))
        else None
      case Decide(t) =>
        if pc.Holding? && (pc.woken ==> pc.op.Take?) then Some(DecideStep(s, t)) else None
      case Notify(t, waiter) =>
        if !pc.Notifying? then None
        else if waiter.None? then
          (if exists i :: 0 <= i < |s.pcs| && s.pcs[i].Asleep? then None else Some(s.(pcs := s.pcs[t := Idle])))
        else if waiter.value < |s.pcs| && s.pcs[waiter.value].Asleep? then
          Some(s.(pcs := s.pcs[t := Idle][waiter.value := Woken(s.pcs[waiter.value].wait, false)]))
        else None
      case TimeOut(t) =>
        if pc.Asleep? && pc.wait.Bounded? then Some(s.(pcs := s.pcs[t := Woken(pc.wait, true)])) else None
      case Spurious(t) =>
        if pc.Asleep? then Some(s.(pcs := s.pcs[t := Woken(pc.wait, false)])) else None
  }

  // ---- No lost wakeups, for semaphores of every kind ----------------------

  predicate Covered(s: State) {
    && (forall i :: 0 <= i < |s.pcs| ==> (s.pcs[i].Holding? <==> s.lock == Some(i)))
    && (Count(s.pcs, IsAsleep) > 0 ==> Count(s.pcs, IsNotifying) + Count(s.pcs, IsWoken) >= s.f.count)
  }

  lemma Moved(pcs: seq<Pc>, t: nat, pc: Pc)
    requires t < |pcs|
    ensures Count(pcs[t := pc], IsAsleep) == Count(pcs, IsAsleep) - Unit(IsAsleep(pcs[t])) + Unit(IsAsleep(pc))
    ensures Count(pcs[t := pc], IsWoken) == Count(pcs, IsWoken) - Unit(IsWoken(pcs[t])) + Unit(IsWoken(pc))
    ensures Count(pcs[t := pc], IsNotifying) == Count(pcs, IsNotifying) - Unit(IsNotifying(pcs[t])) + Unit(IsNotifying(pc))
  {
    CountUpdate(pcs, t, pc, IsAsleep);
    CountUpdate(pcs, t, pc, IsWoken);
    CountUpdate(pcs, t, pc, IsNotifying);
  }

  /** A stay that raises the count notifies; one that puts its task to sleep
      found nothing to take. */
  lemma SectionCovers(f: Fields, self: nat, op: Op, woken: bool, timedOut: bool)
    requires woken ==> op.Take?
    ensures var (v, f') := Section(f, self, op, woken, timedOut);
            && f'.count <= f.count + 1
            && (f'.count > f.count ==> op.Give?)
            && (v.Sleep? ==> f'.count == 0 && op.Take? && f' == f)
            && (woken && !v.Sleep? && f.count > 0 ==> f'.count + 1 == f.count)
  {
  }

  lemma DecideKeepsCovered(s: State, t: nat)
    requires Covered(s) && Step(s, Decide(t)).Some?
    ensures Covered(Step(s, Decide(t)).value)
  {
    var Holding(op, woken, timedOut) := s.pcs[t];
    SectionCovers(s.f, t, op, woken, timedOut);
    Moved(s.pcs, t, DecideStep(s, t).pcs[t]);
  }

  lemma NotifyKeepsCovered(s: State, t: nat, waiter: Option<nat>)
    requires Covered(s) && Step(s, Notify(t, waiter)).Some?
    ensures Covered(Step(s, Notify(t, waiter)).value)
  {
    Moved(s.pcs, t, Idle);
    if waiter.None? {
      CountPositive(s.pcs, IsAsleep);
    } else {
      Moved(s.pcs[t := Idle], waiter.value, Woken(s.pcs[waiter.value].wait, false));
    }
  }

  lemma OtherStepsKeepCovered(s: State, l: Label)
    requires Covered(s) && Step(s, l).Some? && !l.Decide? && !l.Notify?
    ensures Covered(Step(s, l).value)
  {
    Moved(s.pcs, l.t, Step(s, l).value.pcs[l.t]);
  }

  lemma StepKeepsCovered(s: State, l: Label)
    requires Covered(s) && Step(s, l).Some?
    ensures Covered(Step(s, l).value)
  {
    match l
    case Decide(t) => DecideKeepsCovered(s, t);
    case Notify(t, waiter) => NotifyKeepsCovered(s, t, waiter);
    case _ => OtherStepsKeepCovered(s, l);
  }

  lemma {:induction false} RunKeepsCovered(s: State, ls: seq<Label>)
    requires Covered(s) && Run(Step, s, ls).Some?
    ensures Covered(Run(Step, s, ls).value)
    decreases |ls|
  {
    if ls != [] {
      StepKeepsCovered(s, ls[0]);
      RunKeepsCovered(Step(s, ls[0]).value, ls[1..]);
    }
  }

  /** In every run of every kind of semaphore: while a taker sleeps, each unit
      of the count has a notification to come or a woken taker for it. */
  lemma NoLostWakeups(f: Fields, tasks: nat, ls: seq<Label>, s: State)
    requires Run(Step, Init(f, tasks), ls) == Some(s)
    ensures (exists i :: 0 <= i < |s.pcs| && s.pcs[i].Asleep?) ==>
              s.f.count <= Count(s.pcs, IsNotifying) + Count(s.pcs, IsWoken)
  {
    CountPositive(Init(f, tasks).pcs, IsAsleep);
    RunKeepsCovered(Init(f, tasks), ls);
    CountPositive(s.pcs, IsAsleep);
  }

  // ---- The count is what went in minus what came out ----------------------

  function Passed(h: seq<Event>, take: bool): nat {
    if h == [] then 0
    else Passed(h[..|h| - 1], take) + Unit(h[|h| - 1].passed && h[|h| - 1].op.Take? == take)
  }

  lemma PassedAppend(h: seq<Event>, e: Event, take: bool)
    ensures Passed(h + [e], take) == Passed(h, take) + Unit(e.passed && e.op.Take? == take)
  {
    assert (h + [e])[..|h + [e]| - 1] == h;
  }

  /** One stay inside the mutex moves the count by what it reports. */
  lemma SectionCounts(f: Fields, self: nat, op: Op, woken: bool, timedOut: bool)
    requires !f.isRecursive && f.count <= f.maxCount
    ensures var (v, f') := Section(f, self, op, woken, timedOut);
            && f'.count + Unit(v.Pass? && op.Take?) == f.count + Unit(v.Pass? && op.Give?)
            && f'.count <= f'.maxCount && f'.maxCount == f.maxCount && !f'.isRecursive
  {
  }

  predicate Tallied(s: State, initial: nat) {
    && !s.f.isRecursive && s.f.count <= s.f.maxCount
    && s.f.count + Passed(s.history, true) == initial + Passed(s.history, false)
  }

  lemma DecideCounts(s: State, t: nat, initial: nat)
    requires Step(s, Decide(t)).Some? && Tallied(s, initial)
    ensures Tallied(DecideStep(s, t), initial) && DecideStep(s, t).f.maxCount == s.f.maxCount
  {
    var Holding(op, woken, timedOut) := s.pcs[t];
    var v := Section(s.f, t, op, woken, timedOut).0;
    SectionCounts(s.f, t, op, woken, timedOut);
    PassedAppend(s.history, Acted(t, op, v.Pass?), true);
    PassedAppend(s.history, Acted(t, op, v.Pass?), false);
  }

  /** Only a decision touches the fields or the history. */
  lemma OnlyDecisionsAct(s: State, l: Label)
    requires Step(s, l).Some? && !l.Decide?
    ensures Step(s, l).value.f == s.f && Step(s, l).value.history == s.history
  {
  }

  lemma CountStep(s: State, l: Label, initial: nat)
    requires Step(s, l).Some? && Tallied(s, initial)
    ensures Tallied(Step(s, l).value, initial) && Step(s, l).value.f.maxCount == s.f.maxCount
  {
    if l.Decide? {
      DecideCounts(s, l.t, initial);
    } else {
      OnlyDecisionsAct(s, l);
    }
  }

  lemma {:induction false} CountRun(s: State, ls: seq<Label>, initial: nat)
    requires Run(Step, s, ls).Some? && Tallied(s, initial)
    ensures Tallied(Run(Step, s, ls).value, initial) && Run(Step, s, ls).value.f.maxCount == s.f.maxCount
    decreases |ls|
  {
    if ls != [] {
      CountStep(s, ls[0], initial);
      CountRun(Step(s, ls[0]).value, ls[1..], initial);
    }
  }

  /** A counting semaphore created with initial <= max: count = initial + gives
      - takes, never above max (and, being a nat, never below 0). */
  lemma CountingConserves(maxCount: nat, initial: nat, tasks: nat, ls: seq<Label>, s: State)
    requires initial <= maxCount
    requires Run(Step, Init(Counter(maxCount, initial), tasks), ls) == Some(s)
    ensures s.f.count == initial + Passed(s.history, false) - Passed(s.history, true)
    ensures s.f.count <= maxCount
  {
    CountRun(Init(Counter(maxCount, initial), tasks), ls, initial);
  }

  // ---- Mutual exclusion ---------------------------------------------------

  /** How many takes of task t have no matching give yet. */
  function Depth(h: seq<Event>, t: nat): nat {
    if h == [] then 0
    else
      var e := h[|h| - 1];
      var d := Depth(h[..|h| - 1], t);
      if e.t != t || !e.passed then d
      else if e.op.Take? then d + 1
      else if d > 0 then d - 1 else 0
  }

  lemma DepthAppend(h: seq<Event>, e: Event, t: nat)
    ensures Depth(h + [e], t) ==
              var d := Depth(h, t);
              if e.t != t || !e.passed then d
              else if e.op.Take? then d + 1
              else if d > 0 then d - 1 else 0
  {
    assert (h + [e])[..|h + [e]| - 1] == h;
  }

  /** Only a task that holds the mutex gives it, and no task nests so deep that
      the 32-bit recursion counter wraps. The code checks neither. */
  predicate Disciplined(s: State, l: Label) {
    l.Call? ==>
      && (l.op.Give? ==> Depth(s.history, l.t) > 0)
      && (l.op.Take? ==> Depth(s.history, l.t) < UINT32 - 1)
  }

  predicate DisciplinedRun(s: State, ls: seq<Label>)
    decreases |ls|
  {
    ls == [] || (Disciplined(s, ls[0]) && (Step(s, ls[0]).Some? ==> DisciplinedRun(Step(s, ls[0]).value, ls[1..])))
  }

  predicate Gives(pc: Pc) { (pc.Entering? || pc.Holding?) && pc.op.Give? }
  predicate Takes(pc: Pc) { ((pc.Entering? || pc.Holding?) && pc.op.Take?) || pc.Asleep? || pc.Woken? }

  predicate MutexFields(f: Fields) {
    && f.isMutex && f.maxCount == 1
    && f.count == Unit(f.owner.None?)
    && f.recursion < UINT32
    && (f.recursion > 0 <==> f.owner.Some?)
    && (f.recursion > 1 ==> f.isRecursive)
  }

  function Nesting(f: Fields, t: nat): nat { if f.owner == Some(t) then f.recursion else 0 }

  /** A giving task is the owner; a taking one is not about to wrap the counter;
      a sleeper is not the owner of a recursive mutex, or it would not sleep. */
  predicate TaskFits(f: Fields, t: nat, pc: Pc) {
    && (Gives(pc) ==> f.owner == Some(t))
    && (Takes(pc) ==> Nesting(f, t) < UINT32 - 1)
    && (f.isRecursive && (pc.Asleep? || IsWoken(pc)) ==> f.owner != Some(t))
  }

  ghost predicate Exclusive(s: State) {
    && MutexFields(s.f)
    && (forall t: nat :: Depth(s.history, t) == Nesting(s.f, t))
    && (forall t: nat :: t < |s.pcs| ==> TaskFits(s.f, t, s.pcs[t]))
  }

  /** One stay inside the mutex, seen by the task itself and by another one. */
  lemma SectionKeepsMutex(f: Fields, t: nat, pc: Pc, u: nat, pc': Pc)
    requires MutexFields(f) && pc.Holding? && TaskFits(f, t, pc)
    requires pc.woken ==> pc.op.Take?
    requires u != t && TaskFits(f, u, pc')
    ensures var (v, f') := Section(f, t, pc.op, pc.woken, pc.timedOut);
            && MutexFields(f')
            && Nesting(f', u) == Nesting(f, u)
            && Nesting(f', t) == (if !v.Pass? then Nesting(f, t)
                                  else if pc.op.Take? then Nesting(f, t) + 1 else Nesting(f, t) - 1)
            && TaskFits(f', u, pc')
            && (v.Sleep? ==> pc.op.Take? && f' == f && TaskFits(f', t, Asleep(pc.op.wait)))
  {
  }

  /** What the decision does to the nesting and the fitness of any task u. */
  lemma DecideFits(s: State, t: nat, u: nat)
    requires MutexFields(s.f) && Step(s, Decide(t)).Some?
    requires TaskFits(s.f, t, s.pcs[t]) && (u < |s.pcs| ==> TaskFits(s.f, u, s.pcs[u]))
    requires Depth(s.history, u) == Nesting(s.f, u)
    ensures MutexFields(DecideStep(s, t).f)
    ensures Depth(DecideStep(s, t).history, u) == Nesting(DecideStep(s, t).f, u)
    ensures u < |s.pcs| ==> TaskFits(DecideStep(s, t).f, u, DecideStep(s, t).pcs[u])
  {
    var pc := s.pcs[t];
    SectionKeepsMutex(s.f, t, pc, if u == t then t + 1 else u, if u == t || u >= |s.pcs| then Idle else s.pcs[u]);
    DepthAppend(s.history, Acted(t, pc.op, Section(s.f, t, pc.op, pc.woken, pc.timedOut).0.Pass?), u);
  }

  lemma DecideKeepsExclusive(s: State, t: nat)
    requires Exclusive(s) && Step(s, Decide(t)).Some?
    ensures Exclusive(DecideStep(s, t))
  {
    var s' := DecideStep(s, t);
    assert Depth(s.history, t) == Nesting(s.f, t);
    DecideFits(s, t, t);
    forall u: nat ensures Depth(s'.history, u) == Nesting(s'.f, u) && (u < |s.pcs| ==> TaskFits(s'.f, u, s'.pcs[u])) {
      assert Depth(s.history, u) == Nesting(s.f, u);
      DecideFits(s, t, u);
    }
  }

  lemma StepKeepsExclusive(s: State, l: Label)
    requires Exclusive(s) && Disciplined(s, l) && Step(s, l).Some?
    ensures Exclusive(Step(s, l).value)
  {
    var s' := Step(s, l).value;
    if l.Decide? {
      DecideKeepsExclusive(s, l.t);
    } else {
      assert s'.f == s.f && s'.history == s.history;
      forall u: nat | u < |s.pcs| ensures TaskFits(s.f, u, s'.pcs[u]) {
        assert TaskFits(s.f, u, s.pcs[u]);
        assert Depth(s.history, u) == Nesting(s.f, u);
      }
    }
  }

  lemma {:induction false} RunKeepsExclusive(s: State, ls: seq<Label>)
    requires Exclusive(s) && DisciplinedRun(s, ls) && Run(Step, s, ls).Some?
    ensures Exclusive(Run(Step, s, ls).value)
    decreases |ls|
  {
    if ls != [] {
      StepKeepsExclusive(s, ls[0]);
      RunKeepsExclusive(Step(s, ls[0]).value, ls[1..]);
    }
  }

  /** When only holders give, at most one task is between a take and its last
      give; the count is 1 exactly when the recursion is 0; and the recursion is
      the number of the owner's unmatched takes. */
  lemma MutualExclusion(recursive: bool, tasks: nat, ls: seq<Label>, s: State)
    requires DisciplinedRun(Init(Mutex(recursive), tasks), ls)
    requires Run(Step, Init(Mutex(recursive), tasks), ls) == Some(s)
    ensures forall t: nat, u: nat :: Depth(s.history, t) > 0 && Depth(s.history, u) > 0 ==> t == u
    ensures s.f.count == 1 <==> s.f.recursion == 0
    ensures s.f.owner.Some? ==> s.f.recursion == Depth(s.history, s.f.owner.value)
    ensures s.f.owner.None? <==> forall t: nat :: Depth(s.history, t) == 0
  {
    RunKeepsExclusive(Init(Mutex(recursive), tasks), ls);
    if s.f.owner.Some? {
      assert Depth(s.history, s.f.owner.value) > 0;
    }
  }

  // ---- Why only holders may give, and how deep they may nest ---------------

  /** A call that finds the mutex free and does not have to wait. */
  lemma Invoke(s: State, t: nat, op: Op) returns (s': State)
    requires t < |s.pcs| && s.pcs[t].Idle? && s.lock.None?
    requires !Section(s.f, t, op, false, false).0.Sleep?
    ensures Run(Step, s, [Call(t, op), Acquire(t), Decide(t)]) == Some(s') && s'.lock.None?
    ensures var (v, f) := Section(s.f, t, op, false, false);
            && s'.f == f && s'.history == s.history + [Acted(t, op, v.Pass?)]
            && s'.pcs == s.pcs[t := if op.Give? && f.count > s.f.count then Notifying else Idle]
  {
    var a := Step(s, Call(t, op)).value;
    var b := Step(a, Acquire(t)).value;
    s' := Step(b, Decide(t)).value;
    RunThree(Step, s, Call(t, op), a, Acquire(t), b, Decide(t), s');
  }

  /** One give by a stranger t to a mutex that h holds more than once. */
  lemma StrangerLowers(s: State, h: nat, t: nat) returns (s': State)
    requires MutexFields(s.f) && s.lock.None? && s.f.owner == Some(h) && s.f.recursion > 1
    requires t < |s.pcs| && h != t && s.pcs[t].Idle?
    ensures Run(Step, s, [Call(t, Give), Acquire(t), Decide(t)]) == Some(s') && s'.lock.None?
    ensures s'.f == s.f.(recursion := s.f.recursion - 1) && s'.pcs == s.pcs
    ensures Depth(s'.history, h) == Depth(s.history, h)
  {
    s' := Invoke(s, t, Give);
    DepthAppend(s.history, Acted(t, Give, true), h);
    assert s.pcs[t := Idle] == s.pcs;
  }

  /** As many gives as the holder's depth, all by a stranger, release the mutex. */
  lemma {:induction false} StrangerReleases(s: State, h: nat, t: nat) returns (ls: seq<Label>, s': State)
    requires MutexFields(s.f) && s.lock.None? && s.f.owner == Some(h)
    requires t < |s.pcs| && h != t && s.pcs[t].Idle?
    ensures Run(Step, s, ls) == Some(s') && s'.lock.None?
    ensures s'.f == s.f.(count := 1, owner := None, recursion := 0)
    ensures s'.pcs == s.pcs[t := Notifying] && Depth(s'.history, h) == Depth(s.history, h)
    decreases s.f.recursion
  {
    var give := [Call(t, Give), Acquire(t), Decide(t)];
    if s.f.recursion > 1 {
      var a := StrangerLowers(s, h, t);
      var more, end := StrangerReleases(a, h, t);
      ls, s' := give + more, end;
      RunJoin(Step, s, give, a, more, s');
    } else {
      ls := give;
      s' := Invoke(s, t, Give);
      DepthAppend(s.history, Acted(t, Give, true), h);
    }
  }

  /** The discipline is needed: whenever a task h holds a mutex, however deep, the
      gives of another task t let a third task k take it too. */
  lemma StrangersGiveBreaksExclusion(s: State, h: nat, t: nat, k: nat) returns (ls: seq<Label>, s': State)
    requires Exclusive(s) && s.lock.None? && s.f.owner == Some(h)
    requires t < |s.pcs| && k < |s.pcs| && h != t && t != k && h != k
    requires s.pcs[t].Idle? && s.pcs[k].Idle?
    ensures Run(Step, s, ls) == Some(s')
    ensures Depth(s'.history, h) > 0 && Depth(s'.history, k) > 0
  {
    assert Depth(s.history, h) == Nesting(s.f, h);
    var l0, s0 := StrangerReleases(s, h, t);
    var s1 := Invoke(s0, k, Take(NoWait));
    var l1 := [Call(k, Take(NoWait)), Acquire(k), Decide(k)];
    ls, s' := l0 + l1, s1;
    RunJoin(Step, s, l0, s0, l1, s1);
    DepthAppend(s0.history, Acted(k, Take(NoWait), true), h);
    DepthAppend(s0.history, Acted(k, Take(NoWait), true), k);
  }

  /** On a recursive mutex one such give is enough to break the count of the
      holder's unmatched takes. */
  lemma StrangersGiveMiscounts(s: State, h: nat, t: nat) returns (s': State)
    requires Exclusive(s) && s.lock.None? && s.f.owner == Some(h) && s.f.recursion > 1
    requires t < |s.pcs| && h != t && s.pcs[t].Idle?
    ensures Run(Step, s, [Call(t, Give), Acquire(t), Decide(t)]) == Some(s')
    ensures s'.f.owner == Some(h) && s'.f.recursion + 1 == Depth(s'.history, h)
  {
    assert Depth(s.history, h) == Nesting(s.f, h);
    s' := StrangerLowers(s, h, t);
  }

  function Nested(n: Word): Fields { Fields(0, 1, true, true, Some(0), n) }

  /** Task 0 takes a recursive mutex n times. */
  lemma {:induction false} TakesNest(tasks: nat, n: Word) returns (ls: seq<Label>, s: State)
    requires tasks > 0 && n > 0
    ensures Run(Step, Init(Mutex(true), tasks), ls) == Some(s) && s.f == Nested(n) && s.lock.None?
    ensures s.pcs == Init(Mutex(true), tasks).pcs && Depth(s.history, 0) == n
    decreases n
  {
    var take := [Call(0, Take(NoWait)), Acquire(0), Decide(0)];
    var start := Init(Mutex(true), tasks);
    if n == 1 {
      ls := take;
      s := Invoke(start, 0, Take(NoWait));
      DepthAppend([], Acted(0, Take(NoWait), true), 0);
    } else {
      var before, a := TakesNest(tasks, n - 1);
      s := Invoke(a, 0, Take(NoWait));
      ls := before + take;
      RunJoin(Step, start, before, a, take, s);
      DepthAppend(a.history, Acted(0, Take(NoWait), true), 0);
    }
    assert s.pcs == start.pcs;
  }

  /** The bound on nesting is needed: the take that makes it 2^32 leaves the mutex
      with count and recursion both 0; a next take by its holder would sleep for ever,
      and a single give would release it with 2^32 - 1 takes unmatched. */
  lemma DeepestTakeWraps(tasks: nat) returns (ls: seq<Label>, s: State)
    requires tasks > 0
    ensures Run(Step, Init(Mutex(true), tasks), ls) == Some(s) && Depth(s.history, 0) == UINT32
    ensures s.f.count == 0 && s.f.recursion == 0 && s.f.owner == Some(0)
    ensures Section(s.f, 0, Take(Forever), false, false).0.Sleep?
    ensures Section(s.f, 0, Give, false, false) == (Pass, Mutex(true))
  {
    var take := [Call(0, Take(NoWait)), Acquire(0), Decide(0)];
    var before, a := TakesNest(tasks, UINT32 - 1);
    s := Invoke(a, 0, Take(NoWait));
    ls := before + take;
    RunJoin(Step, Init(Mutex(true), tasks), before, a, take, s);
    DepthAppend(a.history, Acted(0, Take(NoWait), true), 0);
  }
}
