/** esp_timer: one runner thread per timer that drops its lock around the
    callback, racing with start and stop calls over a monotone clock. */
module EspTimer {
  import opened Common

  const INT64: nat := 0x8000_0000_0000_0000

  type Word64 = n: nat | n < UINT64

  /** static_cast<int64_t> of a uint64_t. */
  function AsInt64(x: Word64): int { if x < INT64 then x else x - UINT64 }

  datatype Fields = Fields(running: bool, periodic: bool, period: Word64, next: Word64)

  // ---- The code that runs while the timer's mutex is held -----------------

  function Started(f: Fields, now: nat, periodic: bool, delay: Word64): Fields {
    Fields(true, periodic, if periodic then delay else 0, (now + delay) % UINT64)
  }

  function Stopped(f: Fields): Fields { f.(running := false) }

  /** After the callback: rearm with the copies taken before it, or stop. */
  function Rearmed(f: Fields, now: nat, periodic: bool, period: Word64): Fields {
    if periodic && f.running then f.(next := (now + period) % UINT64) else f.(running := false)
  }

  class Timer {
    var running: bool
    var periodic: bool
    var period: Word64
    var next: Word64

    function State(): Fields
      reads this
    {
      Fields(running, periodic, period, next)
    }

    constructor ()
      ensures State() == Fields(false, false, 0, 0)
    {
      running, periodic, period, next := false, false, 0, 0;
    }

    method StartOnce(now: nat, timeout: Word64)
      modifies this
      ensures State() == Started(old(State()), now, false, timeout)
    {
      periodic := false;
      period := 0;
      next := (now + timeout) % UINT64;
      running := true;
    }

    method StartPeriodic(now: nat, every: Word64) returns (ok: bool)
      modifies this
      ensures ok <==> every != 0
      ensures State() == if ok then Started(old(State()), now, true, every) else old(State())
    {
      if every == 0 {
        return false;
      }
      periodic := true;
      period := every;
      next := (now + every) % UINT64;
      running := true;
      return true;
    }

    method Stop()
      modifies this`running
      ensures State() == Stopped(old(State())) == Fields(false, old(periodic), old(period), old(next))
    {
      running := false;
    }

    method AfterCallback(now: nat, wasPeriodic: bool, oldPeriod: Word64)
      modifies this
      ensures State() == Rearmed(old(State()), now, wasPeriodic, oldPeriod)
    {
      if wasPeriodic && running {
        next := (now + oldPeriod) % UINT64;
      } else {
        running := false;
      }
    }
  }

  // ---- The runner thread and its callers ----------------------------------

  /** Where the runner resumes once it has the mutex back. */
  datatype Resume =
    | AtTop
    | FromUntimed
    | FromTimed(target: Word64, timedOut: bool)
    | FromCallback(periodic: bool, period: Word64)

  datatype Runner =
    | Absent                                     // thread not created yet
    | Wants(resume: Resume)                      // blocked on the mutex
    | Top | Measuring | Rechecking(target: Word64) | Committing   // holds the mutex
    | Untimed                                    // cv.wait
    | Timed(target: Word64)                         // cv.wait_for
    | Calling(periodic: bool, period: Word64)       // unlocked, callback to begin
    | InCallback(periodic: bool, period: Word64)

  datatype Event =
    | Start(at: nat, periodic: bool, delay: Word64, busy: bool)
    | Stop(at: nat)
    | Commit(at: nat, target: Word64, wasRunning: bool, periodic: bool, period: Word64)
    | Ran(at: nat, periodic: bool, period: Word64)     // the callback begins
    | Back(at: nat, periodic: bool, period: Word64)    // and has ended, the mutex held again

  datatype State = State(now: nat, f: Fields, runner: Runner, pending: nat, history: seq<Event>)

  const INITIAL: State := State(0, Fields(false, false, 0, 0), Absent, 0, [])

  predicate HoldsMutex(r: Runner) { r.Top? || r.Measuring? || r.Rechecking? || r.Committing? }

  /** Between committing to a callback and having the mutex back after it. */
  predicate Busy(r: Runner) {
    r.Calling? || r.InCallback? || (r.Wants? && r.resume.FromCallback?)
  }

  datatype Label =
    | Tick(d: nat)
    | CallStart(periodic: bool, delay: Word64)
    | CallStop
    | NotifyAll
    | Wake         // spurious
    | TimeOut
    | Acquire
    | Proceed(wild: bool)   // the runner's own next action

  function Woken(r: Runner): Runner {
    match r
    case Untimed => Wants(FromUntimed)
    case Timed(target) => Wants(FromTimed(target, false))
    case _ => r
  }

  function AcquireStep(s: State, resume: Resume): State {
    match resume
    case AtTop => s.(runner := Top)
    case FromUntimed => s.(runner := if s.f.running then Measuring else Untimed)
    case FromTimed(target, timedOut) =>
      s.(runner := if timedOut || !s.f.running || s.f.next != target then Rechecking(target) else Timed(target))
    case FromCallback(periodic, period) =>
      s.(f := Rearmed(s.f, s.now, periodic, period), runner := Top,
         history := s.history + [Back(s.now, periodic, period)])
  }

  /** Whether `remain` is positive. The signed subtraction may overflow below; the
      language leaves the result open then, and `wild` is what it turns out to be. */
  function Remains(next: Word64, now: nat, wild: bool): bool {
    var remain := AsInt64(next) - now;
    if remain + INT64 < 0 then wild else remain > 0
  }

  function ProceedStep(s: State, wild: bool): Option<State> {
    match s.runner
    case Top => Some(s.(runner := if s.f.running then Measuring else Untimed))
    case Measuring => Some(s.(runner := if Remains(s.f.next, s.now, wild) then Timed(s.f.next) else Committing))
    case Rechecking(target) =>
      Some(s.(runner := if !s.f.running || s.f.next != target || AsInt64(s.f.next) > s.now then Top else Committing))
    case Committing =>
      Some(s.(runner := Calling(s.f.periodic, s.f.period),
              history := s.history + [Commit(s.now, s.f.next, s.f.running, s.f.periodic, s.f.period)]))
    case Calling(periodic, period) =>
      Some(s.(runner := InCallback(periodic, period), history := s.history + [Ran(s.now, periodic, period)]))
    case InCallback(periodic, period) => Some(s.(runner := Wants(FromCallback(periodic, period))))
    case _ => None
  }

  function Step(s: State, l: Label): Option<State> {
    match l
    case Tick(d) => if s.now + d < INT64 then Some(s.(now := s.now + d)) else None   // the clock is an int64_t
    case CallStart(periodic, delay) =>
      if HoldsMutex(s.runner) || (periodic && delay == 0) then None
      else Some(s.(f := Started(s.f, s.now, periodic, delay),
                   runner := if s.runner.Absent? then Wants(AtTop) else s.runner,
                   pending := s.pending + 1,
                   history := s.history + [Start(s.now, periodic, delay, Busy(s.runner))]))
    case CallStop =>
      if HoldsMutex(s.runner) then None
      else Some(s.(f := Stopped(s.f), pending := s.pending + 1, history := s.history + [Stop(s.now)]))
    case NotifyAll =>
      if s.pending == 0 then None else Some(s.(pending := s.pending - 1, runner := Woken(s.runner)))
    case Wake =>
      if s.runner.Untimed? || s.runner.Timed? then Some(s.(runner := Woken(s.runner))) else None
    case TimeOut =>
      if s.runner.Timed? then Some(s.(runner := Wants(FromTimed(s.runner.target, true)))) else None
    case Acquire =>
      if s.runner.Wants? then Some(AcquireStep(s, s.runner.resume)) else None
    case Proceed(wild) => ProceedStep(s, wild)
  }

  // ---- What the history says ----------------------------------------------

  function Last(h: seq<Event>): Event
    requires h != []
  {
    h[|h| - 1]
  }

  function Before(h: seq<Event>): seq<Event>
    requires h != []
  {
    h[..|h| - 1]
  }

  /** The last start or stop call was a stop. */
  predicate LastCallStops(h: seq<Event>) {
    h != [] && (Last(h).Stop? || (!Last(h).Start? && LastCallStops(Before(h))))
  }

  /** Callbacks begun, and committed to, since the last start or stop call. */
  function RunsSinceCall(h: seq<Event>): nat {
    if h == [] || Last(h).Stop? || Last(h).Start? then 0
    else RunsSinceCall(Before(h)) + Unit(Last(h).Ran?)
  }

  function CommitsSinceCall(h: seq<Event>): nat {
    if h == [] || Last(h).Stop? || Last(h).Start? then 0
    else CommitsSinceCall(Before(h)) + Unit(Last(h).Commit?)
  }

  function Commits(h: seq<Event>): nat {
    if h == [] then 0 else Commits(Before(h)) + Unit(Last(h).Commit?)
  }

  function Starts(h: seq<Event>): nat {
    if h == [] then 0 else Starts(Before(h)) + Unit(Last(h).Start?)
  }

  predicate OnceOnly(h: seq<Event>) {
    h == [] || (OnceOnly(Before(h)) && !(Last(h).Start? && Last(h).periodic))
  }

  function LastStart(h: seq<Event>): Option<Event> {
    if h == [] then None
    else if Last(h).Start? then Some(Last(h))
    else LastStart(Before(h))
  }

  /** The last callback begun, with no start after it; and the end of it. */
  function LastRan(h: seq<Event>): Option<Event> {
    if h == [] || Last(h).Start? then None
    else if Last(h).Ran? then Some(Last(h))
    else LastRan(Before(h))
  }

  function LastBack(h: seq<Event>): Option<Event> {
    if h == [] || Last(h).Start? || Last(h).Ran? then None
    else if Last(h).Back? then Some(Last(h))
    else LastBack(Before(h))
  }

  /** Every commit was due: the timer ran and its target was not in the future
      as a signed 64-bit difference. */
  predicate AllDue(h: seq<Event>) {
    h == [] || (AllDue(Before(h)) && (Last(h).Commit? ==> Last(h).wasRunning && AsInt64(Last(h).target) <= Last(h).at))
  }

  /** Callback u begins a period after callback r ended, at m. The rearm is on time
      when its target is below 2^63. */
  predicate PeriodApart(r: Event, m: Option<Event>, u: Event) {
    && r.Ran? && u.Ran? && m.Some? && m.value.Back?
    && r.periodic && r.at <= m.value.at <= u.at && m.value.period == r.period
    && (m.value.at + r.period < INT64 ==> u.at >= m.value.at + r.period)
  }

  /** Every callback that follows another one, no start between them, follows one of
      a periodic timer by its period. */
  predicate Spaced(h: seq<Event>) {
    h == [] || (Spaced(Before(h)) &&
      (Last(h).Ran? && LastRan(Before(h)).Some? ==>
         PeriodApart(LastRan(Before(h)).value, LastBack(Before(h)), Last(h))))
  }

  /** A start made outside a callback, with an expiry below 2^63. */
  predicate Honest(st: Event) { st.Start? && !st.busy && st.at + st.delay < INT64 }

  /** No commit and no callback precedes the expiry of an honest start. */
  predicate NotEarly(h: seq<Event>) {
    h == [] || (NotEarly(Before(h)) &&
      ((Last(h).Commit? || Last(h).Ran?) && LastStart(Before(h)).Some? && Honest(LastStart(Before(h)).value) ==>
         Last(h).at >= LastStart(Before(h)).value.at + LastStart(Before(h)).value.delay))
  }

  lemma Grown(h: seq<Event>, e: Event)
    ensures h + [e] != [] && Last(h + [e]) == e && Before(h + [e]) == h
  {
  }

  /** What a step adds to the history. */
  function Emitted(s: State, l: Label): Option<Event> {
    match l
    case CallStart(periodic, delay) => Some(Start(s.now, periodic, delay, Busy(s.runner)))
    case CallStop => Some(Stop(s.now))
    case Acquire =>
      if s.runner.Wants? && s.runner.resume.FromCallback? then
        Some(Back(s.now, s.runner.resume.periodic, s.runner.resume.period))
      else None
    case Proceed(_) =>
      if s.runner.Committing? then Some(Commit(s.now, s.f.next, s.f.running, s.f.periodic, s.f.period))
      else if s.runner.Calling? then Some(Ran(s.now, s.runner.periodic, s.runner.period))
      else None
    case _ => None
  }

  lemma StepEmits(s: State, l: Label)
    requires Step(s, l).Some?
    ensures Step(s, l).value.history ==
              match Emitted(s, l) case None => s.history case Some(e) => s.history + [e]
  {
  }

  // ---- Wakeups and due commits: every run ---------------------------------

  predicate Awake(s: State) {
    && (s.runner.Absent? ==> !s.f.running)
    && (s.runner.Untimed? && s.f.running ==> s.pending > 0)
    && (s.runner.Timed? && (!s.f.running || s.f.next != s.runner.target) ==> s.pending > 0)
    && (s.runner.Measuring? || s.runner.Committing? ==> s.f.running)
    && (s.runner.Committing? ==> AsInt64(s.f.next) <= s.now)
    && s.now < INT64
  }

  lemma StepKeepsAwake(s: State, l: Label)
    requires Awake(s) && Step(s, l).Some?
    ensures Awake(Step(s, l).value)
  {
  }

  lemma StepKeepsDue(s: State, l: Label)
    requires Awake(s) && AllDue(s.history) && Step(s, l).Some?
    ensures AllDue(Step(s, l).value.history)
  {
    StepEmits(s, l);
    if Emitted(s, l).Some? {
      Grown(s.history, Emitted(s, l).value);
    }
  }

  // ---- Stop, and one-shot counting: every run -----------------------------

  predicate StopsSoon(s: State, stopped: bool, commits: nat, runs: nat) {
    stopped ==> !s.f.running && commits == 0 && runs + Unit(s.runner.Calling?) <= 1
  }

  lemma StopStep(s: State, l: Label, stopped: bool, commits: nat, runs: nat)
    requires Awake(s) && StopsSoon(s, stopped, commits, runs) && Step(s, l).Some?
    ensures match Emitted(s, l)
            case None => StopsSoon(Step(s, l).value, stopped, commits, runs)
            case Some(Stop(_)) => StopsSoon(Step(s, l).value, true, 0, 0)
            case Some(Start(_, _, _, _)) => StopsSoon(Step(s, l).value, false, 0, 0)
            case Some(Commit(_, _, _, _, _)) => StopsSoon(Step(s, l).value, stopped, commits + 1, runs)
            case Some(Ran(_, _, _)) => StopsSoon(Step(s, l).value, stopped, commits, runs + 1)
            case Some(Back(_, _, _)) => StopsSoon(Step(s, l).value, stopped, commits, runs)
  {
  }

  predicate HistoryStopsSoon(s: State) {
    StopsSoon(s, LastCallStops(s.history), CommitsSinceCall(s.history), RunsSinceCall(s.history))
  }

  lemma StepKeepsStopsSoon(s: State, l: Label)
    requires Awake(s) && HistoryStopsSoon(s) && Step(s, l).Some?
    ensures HistoryStopsSoon(Step(s, l).value)
  {
    StopStep(s, l, LastCallStops(s.history), CommitsSinceCall(s.history), RunsSinceCall(s.history));
    StepEmits(s, l);
    if Emitted(s, l).Some? {
      Grown(s.history, Emitted(s, l).value);
    }
  }

  /** The copies of periodic and period the runner carries through a callback. */
  function Carried(r: Runner): (bool, Word64) {
    match r
    case Calling(periodic, period) => (periodic, period)
    case InCallback(periodic, period) => (periodic, period)
    case Wants(FromCallback(periodic, period)) => (periodic, period)
    case _ => (false, 0)
  }

  predicate Counted(s: State, onceOnly: bool, commits: nat, starts: nat) {
    onceOnly ==>
      && !s.f.periodic && !Carried(s.runner).0
      && commits + Unit(s.f.running && !Busy(s.runner)) <= starts
  }

  lemma CountStep(s: State, l: Label, onceOnly: bool, commits: nat, starts: nat)
    requires Awake(s) && Counted(s, onceOnly, commits, starts) && Step(s, l).Some?
    ensures match Emitted(s, l)
            case Some(Start(_, periodic, _, _)) =>
              Counted(Step(s, l).value, onceOnly && !periodic, commits, starts + 1)
            case Some(Commit(_, _, _, _, _)) => Counted(Step(s, l).value, onceOnly, commits + 1, starts)
            case _ => Counted(Step(s, l).value, onceOnly, commits, starts)
  {
  }

  predicate HistoryCounted(s: State) {
    Counted(s, OnceOnly(s.history), Commits(s.history), Starts(s.history))
  }

  lemma StepKeepsCounted(s: State, l: Label)
    requires Awake(s) && HistoryCounted(s) && Step(s, l).Some?
    ensures HistoryCounted(Step(s, l).value)
  {
    CountStep(s, l, OnceOnly(s.history), Commits(s.history), Starts(s.history));
    StepEmits(s, l);
    if Emitted(s, l).Some? {
      Grown(s.history, Emitted(s, l).value);
    }
  }

  // ---- Spacing: every run -------------------------------------------------

  predicate InOrAfter(r: Runner) { r.InCallback? || (r.Wants? && r.resume.FromCallback?) }

  /** Callback r has begun and no start was made since; m is its end. */
  predicate Gap(s: State, r: Option<Event>, m: Option<Event>) {
    && (m.Some? ==> m.value.Back?)
    && (r.Some? ==>
          && r.value.Ran? && r.value.at <= s.now
          && (m.None? ==> InOrAfter(s.runner) && Carried(s.runner) == (r.value.periodic, r.value.period))
          && (m.Some? ==>
                && r.value.at <= m.value.at <= s.now && m.value.period == r.value.period && !InOrAfter(s.runner)
                && (s.f.running || s.runner.Calling? ==> r.value.periodic)
                && (m.value.at + m.value.period < INT64 ==>
                      && (s.f.running && !s.runner.Calling? ==> s.f.next == m.value.at + m.value.period)
                      && (s.runner.Calling? ==> s.now >= m.value.at + m.value.period))))
  }

  lemma GapStep(s: State, l: Label, r: Option<Event>, m: Option<Event>)
    requires Awake(s) && Gap(s, r, m) && Step(s, l).Some?
    ensures match Emitted(s, l)
            case Some(Start(_, _, _, _)) => Gap(Step(s, l).value, None, None)
            case Some(Ran(_, _, _)) =>
              && Gap(Step(s, l).value, Emitted(s, l), None)
              && (r.Some? ==> PeriodApart(r.value, m, Emitted(s, l).value))
            case Some(Back(_, _, _)) => Gap(Step(s, l).value, r, Emitted(s, l))
            case _ => Gap(Step(s, l).value, r, m)
  {
  }

  lemma SpacingGrown(h: seq<Event>, e: Event)
    ensures LastRan(h + [e]) == if e.Start? then None else if e.Ran? then Some(e) else LastRan(h)
    ensures LastBack(h + [e]) == if e.Start? || e.Ran? then None else if e.Back? then Some(e) else LastBack(h)
    ensures Spaced(h + [e]) <==>
              Spaced(h) && (e.Ran? && LastRan(h).Some? ==> PeriodApart(LastRan(h).value, LastBack(h), e))
  {
    Grown(h, e);
  }

  lemma StepKeepsGap(s: State, l: Label)
    requires Awake(s) && Gap(s, LastRan(s.history), LastBack(s.history)) && Spaced(s.history) && Step(s, l).Some?
    ensures var s' := Step(s, l).value; Gap(s', LastRan(s'.history), LastBack(s'.history)) && Spaced(s'.history)
  {
    GapStep(s, l, LastRan(s.history), LastBack(s.history));
    StepEmits(s, l);
    if Emitted(s, l).Some? {
      SpacingGrown(s.history, Emitted(s, l).value);
    }
  }

  /** Since an honest start: nothing before its expiry. */
  predicate Pledged(s: State, st: Option<Event>) {
    st.Some? && Honest(st.value) ==>
      var expiry := st.value.at + st.value.delay;
      && (Busy(s.runner) ==> s.now >= expiry)
      && (!Busy(s.runner) && s.f.running ==> s.f.next == expiry || s.now >= expiry)
  }

  lemma PledgeStep(s: State, l: Label, st: Option<Event>)
    requires Awake(s) && Pledged(s, st) && Step(s, l).Some?
    ensures match Emitted(s, l)
            case Some(Start(_, _, _, _)) => Pledged(Step(s, l).value, Emitted(s, l))
            case Some(e) =>
              && Pledged(Step(s, l).value, st)
              && (st.Some? && Honest(st.value) && (e.Commit? || e.Ran?) ==> e.at >= st.value.at + st.value.delay)
            case None => Pledged(Step(s, l).value, st)
  {
  }

  lemma PledgeGrown(h: seq<Event>, e: Event)
    ensures LastStart(h + [e]) == if e.Start? then Some(e) else LastStart(h)
    ensures NotEarly(h + [e]) <==>
              NotEarly(h) && ((e.Commit? || e.Ran?) && LastStart(h).Some? && Honest(LastStart(h).value) ==>
                                e.at >= LastStart(h).value.at + LastStart(h).value.delay)
  {
    Grown(h, e);
  }

  lemma StepKeepsPledge(s: State, l: Label)
    requires Awake(s) && Pledged(s, LastStart(s.history)) && NotEarly(s.history) && Step(s, l).Some?
    ensures var s' := Step(s, l).value; Pledged(s', LastStart(s'.history)) && NotEarly(s'.history)
  {
    PledgeStep(s, l, LastStart(s.history));
    StepEmits(s, l);
    if Emitted(s, l).Some? {
      PledgeGrown(s.history, Emitted(s, l).value);
    }
  }

  // ---- What becomes of a start: every run ---------------------------------

  /** How far the last call has got, when it was a start: it stands, fired once the
      runner has committed to a callback for it; then the runner has had the mutex
      back after a callback, again once it has committed once more. */
  datatype Progress =
    | NoStart
    | Standing(st: Event, fired: bool)
    | Settled(st: Event, fired: bool, back: Event, again: bool)

  function After(p: Progress, e: Event): Progress {
    match e
    case Start(_, _, _, _) => Standing(e, false)
    case Stop(_) => NoStart
    case Commit(_, _, _, _, _) => (
      match p
      case NoStart => NoStart
      case Standing(st, _) => Standing(st, true)
      case Settled(st, fired, back, _) => Settled(st, fired, back, true))
    case Back(_, _, _) => if p.Standing? then Settled(p.st, p.fired, e, false) else p
    case Ran(_, _, _) => p
  }

  function ProgressOf(h: seq<Event>): Progress {
    if h == [] then NoStart else After(ProgressOf(Before(h)), Last(h))
  }

  function PeriodOf(st: Event): Word64
    requires st.Start?
  {
    if st.periodic then st.delay else 0
  }

  /** The fields as start st set them. */
  predicate InForce(f: Fields, st: Event) {
    st.Start? && f == Fields(true, st.periodic, PeriodOf(st), (st.at + st.delay) % UINT64)
  }

  /** A start stands, its fields untouched, until the runner has the mutex back after a
      callback; that callback is its own exactly when the start was not made during one.
      From then on the fields are what the callback's copies made of them. */
  predicate Stands(s: State, p: Progress) {
    match p
    case NoStart => true
    case Standing(st, fired) =>
      && InForce(s.f, st)
      && (if st.busy then Busy(s.runner) && !fired else fired == Busy(s.runner))
      && (fired ==> Carried(s.runner) == (st.periodic, PeriodOf(st)))
    case Settled(st, fired, back, again) =>
      && st.Start? && back.Back? && fired == !st.busy
      && (fired ==> (back.periodic, back.period) == (st.periodic, PeriodOf(st)))
      && (!back.periodic ==> !s.f.running && !again && !Busy(s.runner))
      && (back.periodic && !again ==>
            s.f.running && s.f.next == (back.at + back.period) % UINT64 && !Busy(s.runner))
  }

  /** What is committed to while a start stands is its own target. */
  predicate Fires(p: Progress, e: Event) {
    p.Standing? && e.Commit? ==>
      p.st.Start? && e.target == (p.st.at + p.st.delay) % UINT64
      && e.periodic == p.st.periodic && e.period == PeriodOf(p.st)
  }

  predicate AllFire(h: seq<Event>) {
    h == [] || (AllFire(Before(h)) && Fires(ProgressOf(Before(h)), Last(h)))
  }

  lemma StandStep(s: State, l: Label, p: Progress)
    requires Awake(s) && Stands(s, p) && Step(s, l).Some?
    ensures match Emitted(s, l)
            case None => Stands(Step(s, l).value, p)
            case Some(e) => Stands(Step(s, l).value, After(p, e)) && Fires(p, e)
  {
  }

  lemma StepKeepsStands(s: State, l: Label)
    requires Awake(s) && Stands(s, ProgressOf(s.history)) && AllFire(s.history) && Step(s, l).Some?
    ensures var s' := Step(s, l).value; Stands(s', ProgressOf(s'.history)) && AllFire(s'.history)
  {
    StandStep(s, l, ProgressOf(s.history));
    StepEmits(s, l);
    if Emitted(s, l).Some? {
      Grown(s.history, Emitted(s, l).value);
    }
  }

  // ---- The theorems -------------------------------------------------------

  lemma {:induction false} RunKeepsAll(s: State, ls: seq<Label>)
    requires Awake(s) && AllDue(s.history) && HistoryStopsSoon(s) && HistoryCounted(s) && Run(Step, s, ls).Some?
    ensures var s' := Run(Step, s, ls).value;
            Awake(s') && AllDue(s'.history) && HistoryStopsSoon(s') && HistoryCounted(s')
    decreases |ls|
  {
    if ls != [] {
      StepKeepsAwake(s, ls[0]);
      StepKeepsDue(s, ls[0]);
      StepKeepsStopsSoon(s, ls[0]);
      StepKeepsCounted(s, ls[0]);
      RunKeepsAll(Step(s, ls[0]).value, ls[1..]);
    }
  }

  /** In every interleaving: a callback is committed to only while the timer is
      running and its target, as a signed number, has been reached; the runner
      never sleeps past a change it was not told of without a notification still
      to come; after a stop and before the next start nothing new is committed
      to and at most one callback begins; and without periodic starts callbacks
      never outnumber starts. */
  lemma TimerSafety(ls: seq<Label>, s: State)
    requires Run(Step, INITIAL, ls) == Some(s)
    ensures AllDue(s.history)
    ensures s.runner.Untimed? && s.f.running ==> s.pending > 0
    ensures s.runner.Timed? && (!s.f.running || s.f.next != s.runner.target) ==> s.pending > 0
    ensures LastCallStops(s.history) ==> CommitsSinceCall(s.history) == 0 && RunsSinceCall(s.history) <= 1
    ensures OnceOnly(s.history) ==> Commits(s.history) <= Starts(s.history)
  {
    RunKeepsAll(INITIAL, ls);
  }

  predicate Timely(s: State) {
    && Gap(s, LastRan(s.history), LastBack(s.history)) && Spaced(s.history)
    && Pledged(s, LastStart(s.history)) && NotEarly(s.history)
  }

  lemma {:induction false} RunKeepsTimely(s: State, ls: seq<Label>)
    requires Awake(s) && Timely(s) && Run(Step, s, ls).Some?
    ensures Timely(Run(Step, s, ls).value)
    decreases |ls|
  {
    if ls != [] {
      StepKeepsAwake(s, ls[0]);
      StepKeepsGap(s, ls[0]);
      StepKeepsPledge(s, ls[0]);
      RunKeepsTimely(Step(s, ls[0]).value, ls[1..]);
    }
  }

  /** In every run: callbacks with no start between them begin a period after the one
      before has ended, and nothing begins before the start it follows has expired,
      when that start was not made during a callback; both as long as the target is
      below 2^63. */
  lemma CallbacksAreSpaced(ls: seq<Label>, s: State)
    requires Run(Step, INITIAL, ls) == Some(s)
    ensures Spaced(s.history) && NotEarly(s.history)
  {
    RunKeepsTimely(INITIAL, ls);
  }

  lemma {:induction false} RunKeepsStands(s: State, ls: seq<Label>)
    requires Awake(s) && Stands(s, ProgressOf(s.history)) && AllFire(s.history) && Run(Step, s, ls).Some?
    ensures var s' := Run(Step, s, ls).value; Stands(s', ProgressOf(s'.history)) && AllFire(s'.history)
    decreases |ls|
  {
    if ls != [] {
      StepKeepsAwake(s, ls[0]);
      StepKeepsStands(s, ls[0]);
      RunKeepsStands(Step(s, ls[0]).value, ls[1..]);
    }
  }

  /** What becomes of the last call when it is a start, in every run. Until the runner
      has the mutex back after a callback the fields are as the start set them. When it
      has, the start has been served if and only if it was not made during a callback:
      a start made during one is overwritten, the timer stopping for good if that
      callback was a one-shot's and firing a period after it if it was periodic. */
  lemma StartIsServedIffIdle(ls: seq<Label>, s: State)
    requires Run(Step, INITIAL, ls) == Some(s)
    ensures AllFire(s.history)
    ensures var p := ProgressOf(s.history);
            && (p.Standing? ==> InForce(s.f, p.st) && (p.fired ==> !p.st.busy))
            && (p.Settled? ==>
                  && p.st.Start? && p.back.Back?
                  && (p.fired <==> !p.st.busy)
                  && (!p.back.periodic ==> !s.f.running && !p.again)
                  && (p.back.periodic && !p.again ==>
                        s.f.running && s.f.next == (p.back.at + p.back.period) % UINT64))
  {
    RunKeepsStands(INITIAL, ls);
  }

  // ---- Spaced, position by position ---------------------------------------

  predicate NoStartBetween(h: seq<Event>, i: nat, j: nat) {
    forall k :: i < k < j && k < |h| ==> !h[k].Start?
  }

  lemma {:induction false} RanFound(h: seq<Event>, i: nat)
    requires i < |h| && h[i].Ran? && NoStartBetween(h, i, |h|)
    requires forall k :: i < k < |h| ==> !h[k].Ran?
    ensures LastRan(h) == Some(h[i])
    ensures LastBack(h).Some? ==> exists k :: i < k < |h| && h[k] == LastBack(h).value
  {
    if i < |h| - 1 {
      RanFound(Before(h), i);
    }
  }

  /** Two callbacks in a row of a timer nobody restarted in between: the first was
      periodic, it ended in between, and the second begins a period after that. */
  lemma {:induction false} SpacedAt(h: seq<Event>, i: nat, j: nat)
    requires Spaced(h) && i < j < |h| && h[i].Ran? && h[j].Ran?
    requires NoStartBetween(h, i, j) && (forall k :: i < k < j ==> !h[k].Ran?)
    ensures exists k :: i < k < j && h[k].Back? && PeriodApart(h[i], Some(h[k]), h[j])
    decreases |h|
  {
    if j == |h| - 1 {
      RanFound(Before(h), i);
      assert forall k :: 0 <= k < |h| - 1 ==> Before(h)[k] == h[k];
    } else {
      SpacedAt(Before(h), i, j);
    }
  }

  // ---- Past 2^63: the timer fires at once ---------------------------------

  /** Commit and callback, at this very moment. */
  predicate FiredNow(s: State, s': State) {
    s'.history == s.history + [Commit(s.now, s.f.next, true, s.f.periodic, s.f.period),
                               Ran(s.now, s.f.periodic, s.f.period)]
  }

  lemma FiresWhenCommitting(s: State) returns (ls: seq<Label>, s': State)
    requires s.f.running && s.runner.Committing?
    ensures Run(Step, s, ls) == Some(s') && FiredNow(s, s')
  {
    var a := Step(s, Proceed(false)).value;
    s' := Step(a, Proceed(false)).value;
    ls := [Proceed(false)] + [Proceed(false)];
    RunOne(Step, a, Proceed(false));
    RunFirst(Step, s, Proceed(false), a, [Proceed(false)], s');
  }

  lemma FiresWhenMeasuring(s: State) returns (ls: seq<Label>, s': State)
    requires s.f.running && AsInt64(s.f.next) <= s.now && (s.runner.Measuring? || s.runner.Top?)
    ensures Run(Step, s, ls) == Some(s') && FiredNow(s, s')
    decreases s.runner.Top?
  {
    var a := Step(s, Proceed(false)).value;
    var more: seq<Label>;
    if s.runner.Top? {
      more, s' := FiresWhenMeasuring(a);
    } else {
      more, s' := FiresWhenCommitting(a);
    }
    ls := [Proceed(false)] + more;
    RunFirst(Step, s, Proceed(false), a, more, s');
  }

  /** Holding the mutex, due, with the target the runner has slept for or another. */
  lemma FiresWhenRechecking(s: State) returns (ls: seq<Label>, s': State)
    requires s.f.running && AsInt64(s.f.next) <= s.now && s.runner.Rechecking?
    ensures Run(Step, s, ls) == Some(s') && FiredNow(s, s')
  {
    var a := Step(s, Proceed(false)).value;
    var more: seq<Label>;
    if a.runner.Top? {
      more, s' := FiresWhenMeasuring(a);
    } else {
      more, s' := FiresWhenCommitting(a);
    }
    ls := [Proceed(false)] + more;
    RunFirst(Step, s, Proceed(false), a, more, s');
  }

  /** Wherever the runner is outside a callback, some schedule fires a due timer now. */
  lemma FiresNow(s: State) returns (ls: seq<Label>, s': State)
    requires s.f.running && AsInt64(s.f.next) <= s.now
    requires !Busy(s.runner) && !s.runner.Absent? && !s.runner.Committing?
    ensures Run(Step, s, ls) == Some(s') && FiredNow(s, s')
    decreases match s.runner case Wants(FromTimed(_, false)) => 3 case Timed(_) => 2 case Untimed => 2 case Wants(_) => 1 case _ => 0
  {
    match s.runner
    case Top => ls, s' := FiresWhenMeasuring(s);
    case Measuring => ls, s' := FiresWhenMeasuring(s);
    case Rechecking(_) => ls, s' := FiresWhenRechecking(s);
    case Untimed =>
      var a := Step(s, Wake).value;
      var more, end := FiresNow(a);
      ls, s' := [Wake] + more, end;
      RunFirst(Step, s, Wake, a, more, s');
    case Timed(_) =>
      var a := Step(s, TimeOut).value;
      var more, end := FiresNow(a);
      ls, s' := [TimeOut] + more, end;
      RunFirst(Step, s, TimeOut, a, more, s');
    case Wants(_) =>
      var a := Step(s, Acquire).value;
      var more, end := FiresNow(a);
      ls, s' := [Acquire] + more, end;
      RunFirst(Step, s, Acquire, a, more, s');
  }

  /** A target computed at or past 2^63 counts as reached. */
  lemma BeyondIsDue(now: nat, delay: Word64)
    requires now < INT64 && now + delay >= INT64
    ensures AsInt64((now + delay) % UINT64) <= now
  {
  }

  /** A start outside a callback whose expiry is at or past 2^63 has a schedule in
      which the callback begins at once. */
  lemma FarStartFiresAtOnce(s: State, periodic: bool, delay: Word64) returns (ls: seq<Label>, s': State)
    requires s.now < INT64 && !Busy(s.runner) && !HoldsMutex(s.runner) && (periodic ==> delay != 0)
    requires s.now + delay >= INT64
    ensures Run(Step, s, [CallStart(periodic, delay)] + ls) == Some(s')
    ensures s'.history != [] && Last(s'.history).Ran? && Last(s'.history).at == s.now
    ensures LastStart(s'.history) == Some(Start(s.now, periodic, delay, false))
  {
    var a := Step(s, CallStart(periodic, delay)).value;
    BeyondIsDue(s.now, delay);
    var more, end := FiresNow(a);
    ls, s' := more, end;
    RunFirst(Step, s, CallStart(periodic, delay), a, ls, s');
    Grown(s.history, Start(s.now, periodic, delay, false));
    LastStartOfFired(a, s');
  }

  lemma LastStartOfFired(s: State, s': State)
    requires FiredNow(s, s')
    ensures s'.history != [] && Last(s'.history) == Ran(s.now, s.f.periodic, s.f.period)
    ensures LastStart(s'.history) == LastStart(s.history)
  {
    var c := Commit(s.now, s.f.next, true, s.f.periodic, s.f.period);
    var r := Ran(s.now, s.f.periodic, s.f.period);
    Grown(s.history, c);
    Grown(s.history + [c], r);
    assert s'.history == (s.history + [c]) + [r];
  }

  /** Every callback that follows the start, on every schedule, waits for its expiry. */
  ghost predicate OnTime(s: State, periodic: bool, delay: Word64) {
    forall ls: seq<Label>, s': State ::
      Run(Step, s, [CallStart(periodic, delay)] + ls) == Some(s')
      && s'.history != [] && Last(s'.history).Ran?
      && LastStart(s'.history) == Some(Start(s.now, periodic, delay, false))
      ==> Last(s'.history).at >= s.now + delay
  }

  /** A start made outside a callback is never served early, on any schedule, if and
      only if its expiry is below 2^63. */
  lemma StartIsOnTimeIff(before: seq<Label>, s: State, periodic: bool, delay: Word64)
    requires Run(Step, INITIAL, before) == Some(s)
    requires !Busy(s.runner) && !HoldsMutex(s.runner) && (periodic ==> delay != 0)
    ensures OnTime(s, periodic, delay) <==> s.now + delay < INT64
  {
    RunKeepsAll(INITIAL, before);
    if s.now + delay < INT64 {
      forall ls: seq<Label>, s': State |
        Run(Step, s, [CallStart(periodic, delay)] + ls) == Some(s')
        && s'.history != [] && Last(s'.history).Ran?
        && LastStart(s'.history) == Some(Start(s.now, periodic, delay, false))
        ensures Last(s'.history).at >= s.now + delay
      {
        RunJoin(Step, INITIAL, before, s, [CallStart(periodic, delay)] + ls, s');
        CallbacksAreSpaced(before + ([CallStart(periodic, delay)] + ls), s');
      }
    } else {
      var ls, s' := FarStartFiresAtOnce(s, periodic, delay);
    }
  }

  /** A rearm at or past 2^63 likewise: the next callback begins at once. */
  lemma FarRearmFiresAtOnce(s: State, period: Word64) returns (ls: seq<Label>, s': State)
    requires s.now < INT64 && s.runner == Wants(FromCallback(true, period)) && s.f.running
    requires s.now + period >= INT64
    ensures Run(Step, s, ls) == Some(s')
    ensures s'.history == s.history + [Back(s.now, true, period)]
                          + [Commit(s.now, (s.now + period) % UINT64, true, s.f.periodic, s.f.period),
                             Ran(s.now, s.f.periodic, s.f.period)]
  {
    var a := Step(s, Acquire).value;
    BeyondIsDue(s.now, period);
    var more, end := FiresNow(a);
    ls, s' := [Acquire] + more, end;
    RunFirst(Step, s, Acquire, a, more, s');
  }
}
