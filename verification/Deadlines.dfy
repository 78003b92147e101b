/** Waiting on an overridable clock: delay, and the timed looks of a stream whose
    driver may push bytes while the sketch waits.

    The clock port is given by functions of the number of readings and waits made so
    far: how much time passes up to a reading and during a wait, what the driver pushes
    during a wait, and whether the runtime is asked to stop. Deadlines are 64-bit sums
    and wrap; the clock itself does not reach 2^64 microseconds. */
module Deadlines {
  import opened Common

  const SLICE: nat := 1000

  datatype Port = Port(
    drift: nat -> nat,           // up to each reading of the clock
    advance: nat -> nat,         // in each wait
    arrivals: nat -> seq<Octet>, // in each wait
    stopped: nat -> bool)        // after so many waits

  datatype State = State(now: nat, looks: nat, waits: nat, rx: seq<Octet>)

  /** Every wait moves the clock; that it runs on between is allowed. */
  ghost predicate Moves(port: Port) { forall k: nat :: port.advance(k) >= 1 }

  /** Every wait moves it by exactly the millisecond asked for, and nothing else does. */
  ghost predicate Exact(port: Port) {
    (forall k: nat :: port.advance(k) == 1000) && (forall k: nat :: port.drift(k) == 0)
  }

  ghost predicate NeverStopped(port: Port) { forall k: nat :: !port.stopped(k) }

  function Deadline(now: nat, ms: nat): nat { (now + ms * SLICE) % UINT64 }

  /** Milliseconds after now, in 64-bit microseconds. */
  lemma DeadlineIs(now: nat, ms: nat)
    requires now < 18446744073709551616 && ms < 18446744073709551
    ensures now + ms * 1000 < 18446744073709551616 ==> Deadline(now, ms) == now + ms * 1000
    ensures now + ms * 1000 >= 18446744073709551616 ==> Deadline(now, ms) == now + ms * 1000 - 18446744073709551616
  {
  }

  /** A reading of the clock, which is the time it leaves. */
  function Look(port: Port, s: State): State {
    s.(now := s.now + port.drift(s.looks), looks := s.looks + 1)
  }

  /** One call of the port's wait. */
  function Waited(port: Port, s: State): State {
    s.(now := s.now + port.advance(s.waits), waits := s.waits + 1, rx := s.rx + port.arrivals(s.waits))
  }

  // --- delay ---------------------------------------------------------------

  function WaitUntil(port: Port, s: State, deadline: nat): State
    requires Moves(port)
    decreases if s.now < deadline then deadline - s.now else 0
  {
    if port.stopped(s.waits) then s
    else
      var l := Look(port, s);
      if l.now >= deadline then l else WaitUntil(port, Waited(port, l), deadline)
  }

  function Delayed(port: Port, s: State, ms: nat): State
    requires Moves(port)
  {
    var l := Look(port, s);
    WaitUntil(port, l, Deadline(l.now, ms))
  }

  /** On every clock whose waits move it: it ends, at or after the deadline unless
      stopped, every wait having begun before the deadline, and with at most one wait
      for every microsecond. */
  lemma {:induction false} WaitUntilEnds(port: Port, s: State, deadline: nat)
    requires Moves(port)
    ensures var e := WaitUntil(port, s, deadline);
            && (e.now >= deadline || port.stopped(e.waits))
            && (forall k :: s.waits <= k < e.waits ==> !port.stopped(k))
            && s.now <= e.now && s.looks <= e.looks && s.waits <= e.waits
            && e.waits <= s.waits + (if s.now < deadline then deadline - s.now else 0)
            && (e.waits == s.waits ==> e == if port.stopped(s.waits) then s else Look(port, s))
            && (e.waits > s.waits ==>
                  e.looks > 0 &&
                  e.now < deadline + port.advance(e.waits - 1)
                          + if port.stopped(e.waits) then 0 else port.drift(e.looks - 1))
    decreases if s.now < deadline then deadline - s.now else 0
  {
    if !port.stopped(s.waits) && Look(port, s).now < deadline {
      WaitUntilEnds(port, Waited(port, Look(port, s)), deadline);
    }
  }

  /** Waits of one slice each that it takes to cover a stretch of time. */
  function Slices(span: int): nat { if span <= 0 then 0 else (span + SLICE - 1) / SLICE }

  lemma {:induction false} ExactWaits(port: Port, s: State, deadline: nat)
    requires Moves(port) && Exact(port) && NeverStopped(port)
    ensures var e := WaitUntil(port, s, deadline);
            && e.waits == s.waits + Slices(deadline - s.now)
            && e.now == s.now + SLICE * Slices(deadline - s.now)
    decreases if s.now < deadline then deadline - s.now else 0
  {
    if s.now < deadline {
      ExactWaits(port, Waited(port, Look(port, s)), deadline);
    }
  }

  lemma SlicesOfMillis(now: nat, ms: nat)
    requires now < UINT64
    ensures Slices(Deadline(now, ms) - now) == ms <==> ms == 0 || now + ms * SLICE < UINT64
    ensures Slices(Deadline(now, ms) - now) <= ms
  {
    var d := Deadline(now, ms);
    if now + ms * SLICE < UINT64 {
      assert d == now + ms * SLICE;
    } else {
      assert d - now <= ms * SLICE - UINT64;
      assert UINT64 > SLICE;
    }
  }

  /** On an exact clock an unstopped delay(ms) makes ms waits and ends ms
      milliseconds later, exactly when its deadline does not wrap. */
  lemma DelayIsExact(port: Port, s: State, ms: nat)
    requires Moves(port) && Exact(port) && NeverStopped(port) && s.now < UINT64
    ensures var e := Delayed(port, s, ms);
            (e.waits == s.waits + ms && e.now == s.now + ms * 1000) <==> (ms == 0 || s.now + ms * 1000 < UINT64)
  {
    ExactWaits(port, Look(port, s), Deadline(s.now, ms));
    SlicesOfMillis(s.now, ms);
  }

  // --- timed looks ---------------------------------------------------------

  /** do { read, else wait } while the deadline is ahead; -1 on failure. */
  function PollUntil(port: Port, s: State, deadline: nat): (r: (State, int))
    requires Moves(port)
    ensures -1 <= r.1 < 256
    decreases if s.now < deadline then deadline - s.now else 0
  {
    if s.rx != [] then (s.(rx := s.rx[1..]), s.rx[0])
    else
      var w := Look(port, Waited(port, s));
      if w.now < deadline then PollUntil(port, w, deadline) else (w, -1)
  }

  function TimedRead(port: Port, s: State, timeout: nat): (r: (State, int))
    requires Moves(port)
    ensures -1 <= r.1 < 256
  {
    var l := Look(port, s);
    PollUntil(port, l, Deadline(l.now, timeout))
  }

  /** The bytes pushed in waits lo, lo + 1, ..., hi - 1. */
  function Arrived(port: Port, lo: nat, hi: nat): seq<Octet>
    requires lo <= hi
    decreases hi - lo
  {
    if lo == hi then [] else port.arrivals(lo) + Arrived(port, lo + 1, hi)
  }

  lemma {:induction false} ArrivedSplits(port: Port, lo: nat, mid: nat, hi: nat)
    requires lo <= mid <= hi
    ensures Arrived(port, lo, hi) == Arrived(port, lo, mid) + Arrived(port, mid, hi)
    decreases mid - lo
  {
    if lo < mid {
      ArrivedSplits(port, lo + 1, mid, hi);
      assert port.arrivals(lo) + Arrived(port, lo + 1, mid) + Arrived(port, mid, hi)
          == port.arrivals(lo) + (Arrived(port, lo + 1, mid) + Arrived(port, mid, hi));
    }
  }

  lemma {:induction false} PollIsFifo(port: Port, s: State, deadline: nat)
    requires Moves(port)
    ensures var r := PollUntil(port, s, deadline);
            && s.waits <= r.0.waits && s.now <= r.0.now
            && (r.1 >= 0 ==> [r.1] + r.0.rx == s.rx + Arrived(port, s.waits, r.0.waits))
            && (r.1 < 0 ==> r.0.rx == s.rx + Arrived(port, s.waits, r.0.waits) && s.waits < r.0.waits)
    decreases if s.now < deadline then deadline - s.now else 0
  {
    if s.rx == [] {
      var w := Look(port, Waited(port, s));
      if w.now < deadline {
        PollIsFifo(port, w, deadline);
        var r := PollUntil(port, w, deadline);
        assert w.rx + Arrived(port, w.waits, r.0.waits) == s.rx + Arrived(port, s.waits, r.0.waits);
      } else {
        assert Arrived(port, s.waits, w.waits) == port.arrivals(s.waits) + [];
      }
    }
  }

  /** No byte is lost, made up or reordered, found or not. */
  lemma ReadIsFifo(port: Port, s: State, timeout: nat)
    requires Moves(port)
    ensures var r := TimedRead(port, s, timeout);
            && s.waits <= r.0.waits && s.now <= r.0.now
            && (r.1 >= 0 ==> [r.1] + r.0.rx == s.rx + Arrived(port, s.waits, r.0.waits))
            && (r.1 < 0 ==> r.0.rx == s.rx + Arrived(port, s.waits, r.0.waits) && s.waits < r.0.waits)
  {
    var l := Look(port, s);
    PollIsFifo(port, l, Deadline(l.now, timeout));
  }

  lemma {:induction false} PollFailureIsQuiet(port: Port, s: State, deadline: nat)
    requires Moves(port) && PollUntil(port, s, deadline).1 < 0
    ensures var e := PollUntil(port, s, deadline).0;
            && s.rx == [] && s.waits < e.waits && e.now >= deadline
            && (forall k :: s.waits <= k < e.waits - 1 ==> port.arrivals(k) == [])
            && e.rx == port.arrivals(e.waits - 1)
    decreases if s.now < deadline then deadline - s.now else 0
  {
    var w := Look(port, Waited(port, s));
    if w.now < deadline {
      PollFailureIsQuiet(port, w, deadline);
    }
  }

  /** A failing read has reached its deadline and saw an empty stream at every poll;
      what arrived in the last wait is left for the next call. */
  lemma FailureIsQuiet(port: Port, s: State, timeout: nat)
    requires Moves(port) && TimedRead(port, s, timeout).1 < 0
    ensures var e := TimedRead(port, s, timeout).0;
            && s.rx == [] && s.waits < e.waits && e.now >= Deadline(Look(port, s).now, timeout)
            && (forall k :: s.waits <= k < e.waits - 1 ==> port.arrivals(k) == [])
            && e.rx == port.arrivals(e.waits - 1)
  {
    var l := Look(port, s);
    PollFailureIsQuiet(port, l, Deadline(l.now, timeout));
  }

  lemma {:induction false} PollSuccessIsPrompt(port: Port, s: State, deadline: nat)
    requires Moves(port) && PollUntil(port, s, deadline).1 >= 0
    ensures var e := PollUntil(port, s, deadline).0;
            if s.rx != [] then e.waits == s.waits && e.now == s.now
            else
              && s.waits < e.waits && e.now < deadline && port.arrivals(e.waits - 1) != []
              && forall k :: s.waits <= k < e.waits - 1 ==> port.arrivals(k) == []
    decreases if s.now < deadline then deadline - s.now else 0
  {
    if s.rx == [] {
      var w := Look(port, Waited(port, s));
      PollSuccessIsPrompt(port, w, deadline);
    }
  }

  /** One that succeeds does so at once when there is a byte, and otherwise at the first
      poll after the wait that brought one, before the deadline. */
  lemma SuccessIsPrompt(port: Port, s: State, timeout: nat)
    requires Moves(port) && TimedRead(port, s, timeout).1 >= 0
    ensures var e := TimedRead(port, s, timeout).0;
            if s.rx != [] then e.waits == s.waits
            else
              && s.waits < e.waits && e.now < Deadline(Look(port, s).now, timeout)
              && port.arrivals(e.waits - 1) != []
              && forall k :: s.waits <= k < e.waits - 1 ==> port.arrivals(k) == []
  {
    var l := Look(port, s);
    PollSuccessIsPrompt(port, l, Deadline(l.now, timeout));
  }

  lemma {:induction false} FailureWaits(port: Port, s: State, deadline: nat)
    requires Moves(port) && Exact(port) && PollUntil(port, s, deadline).1 < 0
    ensures PollUntil(port, s, deadline).0.waits
         == s.waits + if Slices(deadline - s.now) == 0 then 1 else Slices(deadline - s.now)
    decreases if s.now < deadline then deadline - s.now else 0
  {
    var w := Look(port, Waited(port, s));
    if w.now < deadline {
      FailureWaits(port, w, deadline);
    }
  }

  function Polls(timeout: nat): nat { if timeout == 0 then 1 else timeout }

  /** On an exact clock a failing timed read makes max(1, timeout) waits, exactly
      when its deadline does not wrap (or one wait is all it asked for). */
  lemma FailureIsExact(port: Port, s: State, timeout: nat)
    requires Moves(port) && Exact(port) && s.now < UINT64
    requires TimedRead(port, s, timeout).1 < 0
    ensures TimedRead(port, s, timeout).0.waits == s.waits + Polls(timeout)
            <==> timeout <= 1 || s.now + timeout * 1000 < UINT64
  {
    FailureWaits(port, Look(port, s), Deadline(s.now, timeout));
    SlicesOfMillis(s.now, timeout);
  }

  function ReadBytes(port: Port, s: State, timeout: nat, length: nat): (State, seq<Octet>)
    requires Moves(port)
    decreases length
  {
    if length == 0 then (s, [])
    else
      var r := TimedRead(port, s, timeout);
      if r.1 < 0 then (r.0, [])
      else
        var rest := ReadBytes(port, r.0, timeout, length - 1);
        (rest.0, [r.1] + rest.1)
  }

  lemma Glued(first: seq<Octet>, more: seq<Octet>, mid: seq<Octet>, end: seq<Octet>,
              start: seq<Octet>, early: seq<Octet>, late: seq<Octet>)
    requires first + mid == start + early && more + end == mid + late
    ensures (first + more) + end == start + (early + late)
  {
    assert (first + more) + end == first + (more + end);
    assert first + (mid + late) == (first + mid) + late;
    assert (start + early) + late == start + (early + late);
  }

  /** The bytes taken are the first of those that were there or arrived. */
  lemma {:induction false} ReadBytesIsFifo(port: Port, s: State, timeout: nat, length: nat)
    requires Moves(port)
    ensures var r := ReadBytes(port, s, timeout, length);
            && |r.1| <= length && s.waits <= r.0.waits && s.now <= r.0.now
            && r.1 + r.0.rx == s.rx + Arrived(port, s.waits, r.0.waits)
    decreases length
  {
    if length > 0 {
      var r := TimedRead(port, s, timeout);
      ReadIsFifo(port, s, timeout);
      if r.1 >= 0 {
        ReadBytesIsFifo(port, r.0, timeout, length - 1);
        var rest := ReadBytes(port, r.0, timeout, length - 1);
        ArrivedSplits(port, s.waits, r.0.waits, rest.0.waits);
        Glued([r.1], rest.1, r.0.rx, rest.0.rx, s.rx, Arrived(port, s.waits, r.0.waits),
              Arrived(port, r.0.waits, rest.0.waits));
      }
    }
  }

  /** It comes back short only after max(1, timeout) consecutive empty polls at the
      very end; bytes that arrived in the last wait stay unread. */
  lemma {:induction false} ShortIsQuiet(port: Port, s: State, timeout: nat, length: nat)
    requires Moves(port) && Exact(port)
    requires ReadBytes(port, s, timeout, length).0.now + timeout * 1000 < UINT64
    requires |ReadBytes(port, s, timeout, length).1| < length
    ensures var e := ReadBytes(port, s, timeout, length).0;
            && e.waits >= s.waits + Polls(timeout)
            && (forall k :: e.waits - Polls(timeout) <= k < e.waits - 1 ==> port.arrivals(k) == [])
            && e.rx == port.arrivals(e.waits - 1)
    decreases length
  {
    var r := TimedRead(port, s, timeout);
    ReadIsFifo(port, s, timeout);
    if r.1 < 0 {
      FailureIsExact(port, s, timeout);
      FailureIsQuiet(port, s, timeout);
    } else {
      ReadBytesIsFifo(port, r.0, timeout, length - 1);
      ShortIsQuiet(port, r.0, timeout, length - 1);
    }
  }

  // --- the object ----------------------------------------------------------

  class Sketch {
    var now: nat
    var looks: nat
    var waits: nat
    var rx: seq<Octet>
    var timeout: nat
    const port: Port

    ghost function View(): State
      reads this
    {
      State(now, looks, waits, rx)
    }

    constructor (p: Port)
      ensures View() == State(0, 0, 0, []) && timeout == 1000 && port == p
    {
      now, looks, waits, rx, timeout, port := 0, 0, 0, [], 1000, p;
    }

    method ClockNow() returns (t: nat)
      modifies this`now, this`looks
      ensures View() == Look(port, old(View())) && t == now
    {
      now, looks := now + port.drift(looks), looks + 1;
      t := now;
    }

    method ClockWait()
      modifies this`now, this`waits, this`rx
      ensures View() == Waited(port, old(View()))
    {
      now, waits, rx := now + port.advance(waits), waits + 1, rx + port.arrivals(waits);
    }

    method Delay(ms: nat)
      requires Moves(port)
      modifies this`now, this`looks, this`waits, this`rx
      ensures View() == Delayed(port, old(View()), ms)
    {
      var start := ClockNow();
      var deadline := Deadline(start, ms);
      while !port.stopped(waits)
        invariant WaitUntil(port, View(), deadline) == Delayed(port, old(View()), ms)
        decreases if now < deadline then deadline - now else 0
      {
        var t := ClockNow();
        if t >= deadline {
          return;
        }
        ClockWait();
      }
    }

    method Read() returns (c: int)
      modifies this`rx
      ensures c == if old(rx) == [] then -1 else old(rx)[0]
      ensures rx == if old(rx) == [] then [] else old(rx)[1..]
    {
      if rx == [] {
        return -1;
      }
      c := rx[0];
      rx := rx[1..];
    }

    method ReadTimed() returns (c: int)
      requires Moves(port)
      modifies this`now, this`looks, this`waits, this`rx
      ensures (View(), c) == TimedRead(port, old(View()), timeout)
    {
      var start := ClockNow();
      var deadline := Deadline(start, timeout);
      var polling := true;
      while polling
        invariant TimedRead(port, old(View()), timeout)
               == if polling then PollUntil(port, View(), deadline) else (View(), -1)
        decreases polling, if now < deadline then deadline - now else 0
      {
        c := Read();
        if c >= 0 {
          return c;
        }
        ClockWait();
        var t := ClockNow();
        polling := t < deadline;
      }
      return -1;
    }

    method FillBytes(length: nat) returns (buffer: seq<Octet>)
      requires Moves(port)
      modifies this`now, this`looks, this`waits, this`rx
      ensures (View(), buffer) == ReadBytes(port, old(View()), timeout, length)
    {
      buffer := [];
      var count := 0;
      ghost var all := ReadBytes(port, View(), timeout, length);
      assert [] + all.1 == all.1;
      while count < length
        invariant count == |buffer| <= length
        invariant all == var rest := ReadBytes(port, View(), timeout, length - count); (rest.0, buffer + rest.1)
      {
        var c := ReadTimed();
        if c < 0 {
          break;
        }
        ghost var rest := ReadBytes(port, View(), timeout, length - count - 1);
        assert buffer + ([c] + rest.1) == (buffer + [c]) + rest.1;
        buffer := buffer + [c];
        count := count + 1;
      }
      assert buffer + [] == buffer;
    }
  }
}
