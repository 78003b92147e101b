/** A device-facing UART: two bounded queues, sticky overflow flags, running
    totals, and an activity hook that is told of what the sketch did and may push
    its answer from inside the notification.

    The hook records every notification and answers with bytes; as it is handed a
    longer record each time, a function of the record is the most general hook of
    that kind. Next to the UART's own fields a `Past` keeps what the theorems
    compare them with. */
module HostUart {
  import opened Common

  type Byte = bv8

  const DEFAULT_BUFFER_SIZE: nat := 1024

  datatype Activity = Begin | End | Config | Tx | Rx | RxDiscard

  datatype Note = Note(event: Activity, data: seq<Byte>)

  type Hook = seq<Note> -> seq<Byte>

  /** What the driver saw, and what happened to bytes that nobody was told of. */
  datatype Past = Past(
    drained: seq<Byte>,              // what readTx gave the driver
    accepted: seq<Byte>,             // what pushRx took from it
    txSilent: nat, rxSilent: nat,    // dropped from a queue by begin, end, clear and shrinking
    txCount: nat, rxCount: nat,      // queued since resetTotals
    txRefused: nat, rxRefused: nat)  // refused or cut off since clearOverflow

  datatype Uart = Uart(
    tx: seq<Byte>, rx: seq<Byte>, txLimit: nat, rxLimit: nat,
    txOverflow: bool, rxOverflow: bool, txTotal: nat, rxTotal: nat,
    begun: bool, trace: seq<Note>, past: Past)

  const FRESH := Uart([], [], DEFAULT_BUFFER_SIZE, DEFAULT_BUFFER_SIZE, false, false, 0, 0, false, [],
                      Past([], [], 0, 0, 0, 0, 0, 0))

  function Room(queue: seq<Byte>, limit: nat): nat { if |queue| >= limit then 0 else limit - |queue| }

  /** A 32-bit counter advanced n times. */
  function Advance(total: nat, n: nat): nat { (total + n) % UINT32 }

  lemma AdvanceOnce(total: nat, n: nat)
    ensures Advance(total, n + 1) == if Advance(total, n) + 1 == UINT32 then 0 else Advance(total, n) + 1
  {
  }

  lemma AdvanceTwice(count: nat, n: nat)
    ensures Advance(count % UINT32, n) == (count + n) % UINT32
  {
  }

  // --- what each call does -------------------------------------------------

  /** The accepted prefix is queued, the rest refused. */
  function PushedRx(u: Uart, buffer: seq<Byte>): Uart {
    var n := Min(|buffer|, Room(u.rx, u.rxLimit));
    u.(rx := u.rx + buffer[..n],
       rxOverflow := u.rxOverflow || n < |buffer|,
       rxTotal := Advance(u.rxTotal, n),
       past := u.past.(accepted := u.past.accepted + buffer[..n],
                       rxCount := u.past.rxCount + n,
                       rxRefused := u.past.rxRefused + (|buffer| - n)))
  }

  /** The hook is told, then pushes its answer. */
  function Reported(hook: Hook, u: Uart, n: Note): Uart {
    PushedRx(u.(trace := u.trace + [n]), hook(u.trace + [n]))
  }

  function Emptied(u: Uart, begun: bool): Uart {
    u.(tx := [], rx := [], begun := begun,
       past := u.past.(txSilent := u.past.txSilent + |u.tx|, rxSilent := u.past.rxSilent + |u.rx|))
  }

  function Queued(u: Uart, buffer: seq<Byte>): Uart {
    var n := Min(|buffer|, Room(u.tx, u.txLimit));
    u.(tx := u.tx + buffer[..n],
       txOverflow := u.txOverflow || n < |buffer|,
       txTotal := Advance(u.txTotal, n),
       past := u.past.(txCount := u.past.txCount + n, txRefused := u.past.txRefused + (|buffer| - n)))
  }

  function Written(hook: Hook, u: Uart, buffer: seq<Byte>): Uart {
    var n := Min(|buffer|, Room(u.tx, u.txLimit));
    if n == 0 then Queued(u, buffer) else Reported(hook, Queued(u, buffer), Note(Tx, buffer[..n]))
  }

  function Taken(hook: Hook, u: Uart): Uart {
    if u.rx == [] then u else Reported(hook, u.(rx := u.rx[1..]), Note(Rx, [u.rx[0]]))
  }

  function Flushed(hook: Hook, u: Uart): Uart {
    if u.rx == [] then u else Reported(hook, u.(rx := []), Note(RxDiscard, u.rx))
  }

  function AtLeastOne(size: nat): nat { if size > 0 then size else 1 }

  /** Shrinking keeps the oldest bytes; the cut counts as an overflow. */
  function RxResized(u: Uart, size: nat): Uart {
    var kept := Min(|u.rx|, AtLeastOne(size));
    u.(rxLimit := AtLeastOne(size), rx := u.rx[..kept], rxOverflow := u.rxOverflow || kept < |u.rx|,
       past := u.past.(rxSilent := u.past.rxSilent + |u.rx| - kept,
                       rxRefused := u.past.rxRefused + |u.rx| - kept))
  }

  function TxResized(u: Uart, size: nat): Uart {
    var kept := Min(|u.tx|, AtLeastOne(size));
    u.(txLimit := AtLeastOne(size), tx := u.tx[..kept], txOverflow := u.txOverflow || kept < |u.tx|,
       past := u.past.(txSilent := u.past.txSilent + |u.tx| - kept,
                       txRefused := u.past.txRefused + |u.tx| - kept))
  }

  function Drained(u: Uart, size: nat): Uart {
    var n := Min(size, |u.tx|);
    u.(tx := u.tx[n..], past := u.past.(drained := u.past.drained + u.tx[..n]))
  }

  datatype Op =
    | DoBegin | DoEnd | DoConfigure
    | DoWrite(buffer: seq<Byte>) | DoRead | DoFlush
    | DoSetRxSize(size: nat) | DoSetTxSize(size: nat)
    | DoReadTx(size: nat) | DoPushRx(buffer: seq<Byte>)
    | DoClearTx | DoClearRx | DoClearOverflow | DoResetTotals

  function Do(hook: Hook, u: Uart, op: Op): Uart {
    match op
    case DoBegin => Reported(hook, Emptied(u, true), Note(Begin, []))
    case DoEnd => Reported(hook, Emptied(u, false), Note(End, []))
    case DoConfigure => Reported(hook, u, Note(Config, []))
    case DoWrite(buffer) => Written(hook, u, buffer)
    case DoRead => Taken(hook, u)
    case DoFlush => Flushed(hook, u)
    case DoSetRxSize(size) => Reported(hook, RxResized(u, size), Note(Config, []))
    case DoSetTxSize(size) => Reported(hook, TxResized(u, size), Note(Config, []))
    case DoReadTx(size) => Drained(u, size)
    case DoPushRx(buffer) => PushedRx(u, buffer)
    case DoClearTx => u.(tx := [], past := u.past.(txSilent := u.past.txSilent + |u.tx|))
    case DoClearRx => u.(rx := [], past := u.past.(rxSilent := u.past.rxSilent + |u.rx|))
    case DoClearOverflow =>
      u.(txOverflow := false, rxOverflow := false, past := u.past.(txRefused := 0, rxRefused := 0))
    case DoResetTotals => u.(txTotal := 0, rxTotal := 0, past := u.past.(txCount := 0, rxCount := 0))
  }

  function DoAll(hook: Hook, u: Uart, ops: seq<Op>): Uart {
    if ops == [] then u
    else Do(hook, DoAll(hook, u, ops[..|ops| - 1]), ops[|ops| - 1])
  }

  // --- what the trace accounts for -----------------------------------------

  /** What the sketch was reported to have put on the wire. */
  function TxPayload(trace: seq<Note>): seq<Byte> {
    if trace == [] then []
    else
      var last := trace[|trace| - 1];
      TxPayload(trace[..|trace| - 1]) + if last.event.Tx? then last.data else []
  }

  /** What it was reported to have consumed or thrown away unread. */
  function RxPayload(trace: seq<Note>): seq<Byte> {
    if trace == [] then []
    else
      var last := trace[|trace| - 1];
      RxPayload(trace[..|trace| - 1]) + if last.event.Rx? || last.event.RxDiscard? then last.data else []
  }

  lemma PayloadsAppend(trace: seq<Note>, n: Note)
    ensures TxPayload(trace + [n]) == TxPayload(trace) + if n.event.Tx? then n.data else []
    ensures RxPayload(trace + [n]) == RxPayload(trace) + if n.event.Rx? || n.event.RxDiscard? then n.data else []
  {
    assert (trace + [n])[..|trace + [n]| - 1] == trace;
  }

  predicate Sound(u: Uart) {
    && |u.tx| <= u.txLimit && |u.rx| <= u.rxLimit && u.txLimit > 0 && u.rxLimit > 0
    && u.txTotal == u.past.txCount % UINT32 && u.rxTotal == u.past.rxCount % UINT32
    && (u.txOverflow <==> u.past.txRefused > 0) && (u.rxOverflow <==> u.past.rxRefused > 0)
  }

  /** The bytes reported sent are the drained ones, the queued ones and the
      silently dropped ones. */
  predicate TxSettled(sent: seq<Byte>, drained: seq<Byte>, queue: seq<Byte>, silent: nat) {
    && |sent| == |drained| + |queue| + silent
    && (silent == 0 ==> sent == drained + queue)
  }

  predicate RxSettled(taken: seq<Byte>, accepted: seq<Byte>, queue: seq<Byte>, silent: nat) {
    && |accepted| == |taken| + |queue| + silent
    && (silent == 0 ==> taken + queue == accepted)
  }

  predicate Settled(u: Uart) {
    && TxSettled(TxPayload(u.trace), u.past.drained, u.tx, u.past.txSilent)
    && RxSettled(RxPayload(u.trace), u.past.accepted, u.rx, u.past.rxSilent)
  }

  lemma PushKeeps(u: Uart, buffer: seq<Byte>)
    requires Sound(u)
    ensures Sound(PushedRx(u, buffer))
    ensures Settled(u) ==> Settled(PushedRx(u, buffer))
  {
    var n := Min(|buffer|, Room(u.rx, u.rxLimit));
    AdvanceTwice(u.past.rxCount, n);
    assert (RxPayload(u.trace) + u.rx) + buffer[..n] == RxPayload(u.trace) + (u.rx + buffer[..n]);
  }

  /** A notification settles the books when its bytes are what is missing. */
  lemma ReportKeeps(hook: Hook, u: Uart, n: Note)
    requires Sound(u)
    requires TxSettled(TxPayload(u.trace) + (if n.event.Tx? then n.data else []),
                       u.past.drained, u.tx, u.past.txSilent)
    requires RxSettled(RxPayload(u.trace) + (if n.event.Rx? || n.event.RxDiscard? then n.data else []),
                       u.past.accepted, u.rx, u.past.rxSilent)
    ensures Sound(Reported(hook, u, n)) && Settled(Reported(hook, u, n))
  {
    PayloadsAppend(u.trace, n);
    PushKeeps(u.(trace := u.trace + [n]), hook(u.trace + [n]));
  }

  lemma WriteKeeps(hook: Hook, u: Uart, buffer: seq<Byte>)
    requires Sound(u) && Settled(u)
    ensures Sound(Written(hook, u, buffer)) && Settled(Written(hook, u, buffer))
  {
    var n := Min(|buffer|, Room(u.tx, u.txLimit));
    AdvanceTwice(u.past.txCount, n);
    if n > 0 {
      assert (u.past.drained + u.tx) + buffer[..n] == u.past.drained + (u.tx + buffer[..n]);
      assert RxPayload(u.trace) + [] == RxPayload(u.trace);
      ReportKeeps(hook, Queued(u, buffer), Note(Tx, buffer[..n]));
    } else {
      assert u.tx + buffer[..0] == u.tx;
    }
  }

  lemma SilentKeeps(hook: Hook, u: Uart, event: Activity)
    requires Sound(u) && Settled(u) && !event.Tx? && !event.Rx? && !event.RxDiscard?
    ensures Sound(Reported(hook, u, Note(event, []))) && Settled(Reported(hook, u, Note(event, [])))
  {
    assert TxPayload(u.trace) + [] == TxPayload(u.trace);
    assert RxPayload(u.trace) + [] == RxPayload(u.trace);
    ReportKeeps(hook, u, Note(event, []));
  }

  lemma TakeKeeps(hook: Hook, u: Uart)
    requires Sound(u) && Settled(u)
    ensures Sound(Taken(hook, u)) && Settled(Taken(hook, u))
  {
    if u.rx != [] {
      assert RxPayload(u.trace) + u.rx == (RxPayload(u.trace) + [u.rx[0]]) + u.rx[1..];
      assert TxPayload(u.trace) + [] == TxPayload(u.trace);
      ReportKeeps(hook, u.(rx := u.rx[1..]), Note(Rx, [u.rx[0]]));
    }
  }

  lemma FlushKeeps(hook: Hook, u: Uart)
    requires Sound(u) && Settled(u)
    ensures Sound(Flushed(hook, u)) && Settled(Flushed(hook, u))
  {
    if u.rx != [] {
      assert (RxPayload(u.trace) + u.rx) + [] == RxPayload(u.trace) + u.rx;
      assert TxPayload(u.trace) + [] == TxPayload(u.trace);
      ReportKeeps(hook, u.(rx := []), Note(RxDiscard, u.rx));
    }
  }

  lemma DropKeeps(u: Uart)
    requires Sound(u) && Settled(u)
    ensures forall begun :: Sound(Emptied(u, begun)) && Settled(Emptied(u, begun))
    ensures forall size :: Sound(RxResized(u, size)) && Settled(RxResized(u, size))
    ensures forall size :: Sound(TxResized(u, size)) && Settled(TxResized(u, size))
  {
    assert u.rx[..|u.rx|] == u.rx && u.tx[..|u.tx|] == u.tx;
  }

  lemma DrainKeeps(u: Uart, size: nat)
    requires Sound(u) && Settled(u)
    ensures Sound(Drained(u, size)) && Settled(Drained(u, size))
  {
    var n := Min(size, |u.tx|);
    assert (u.past.drained + u.tx[..n]) + u.tx[n..] == u.past.drained + u.tx;
  }

  lemma StepKeeps(hook: Hook, u: Uart, op: Op)
    requires Sound(u) && Settled(u)
    ensures Sound(Do(hook, u, op)) && Settled(Do(hook, u, op))
  {
    DropKeeps(u);
    match op
    case DoBegin => SilentKeeps(hook, Emptied(u, true), Begin);
    case DoEnd => SilentKeeps(hook, Emptied(u, false), End);
    case DoConfigure => SilentKeeps(hook, u, Config);
    case DoWrite(buffer) => WriteKeeps(hook, u, buffer);
    case DoRead => TakeKeeps(hook, u);
    case DoFlush => FlushKeeps(hook, u);
    case DoSetRxSize(size) => SilentKeeps(hook, RxResized(u, size), Config);
    case DoSetTxSize(size) => SilentKeeps(hook, TxResized(u, size), Config);
    case DoReadTx(size) => DrainKeeps(u, size);
    case DoPushRx(buffer) => PushKeeps(u, buffer);
    case _ =>
  }

  /** Over every run and with every hook: the queues stay within their limits, the
      totals are the counts mod 2^32, an overflow flag is set exactly when a byte
      was refused or cut off since the last clear, and the reported bytes match
      the driver's exactly when no byte was dropped silently. */
  lemma {:induction false} RunsAreAccounted(hook: Hook, ops: seq<Op>)
    ensures var u := DoAll(hook, FRESH, ops);
            && Sound(u) && Settled(u)
            && (TxPayload(u.trace) == u.past.drained + u.tx <==> u.past.txSilent == 0)
            && (RxPayload(u.trace) + u.rx == u.past.accepted <==> u.past.rxSilent == 0)
  {
    if ops == [] {
      assert TxPayload(FRESH.trace) == [] == RxPayload(FRESH.trace);
    } else {
      var before := ops[..|ops| - 1];
      RunsAreAccounted(hook, before);
      StepKeeps(hook, DoAll(hook, FRESH, before), ops[|ops| - 1]);
    }
  }

  /** No begin, end or clear, and no resize below what is queued. */
  predicate Gentle(hook: Hook, u: Uart, ops: seq<Op>) {
    ops == []
    || (&& Gentle(hook, u, ops[..|ops| - 1])
        && var v := DoAll(hook, u, ops[..|ops| - 1]);
           match ops[|ops| - 1]
           case DoBegin | DoEnd | DoClearTx | DoClearRx => false
           case DoSetRxSize(size) => |v.rx| <= AtLeastOne(size)
           case DoSetTxSize(size) => |v.tx| <= AtLeastOne(size)
           case _ => true)
  }

  lemma {:induction false} GentleRunsDropNothing(hook: Hook, ops: seq<Op>)
    requires Gentle(hook, FRESH, ops)
    ensures DoAll(hook, FRESH, ops).past.txSilent == 0 == DoAll(hook, FRESH, ops).past.rxSilent
  {
    if ops != [] {
      GentleRunsDropNothing(hook, ops[..|ops| - 1]);
    }
  }

  /** Nothing lost, added or reordered on either side of a gentle run. */
  lemma UartHistory(hook: Hook, ops: seq<Op>)
    requires Gentle(hook, FRESH, ops)
    ensures var u := DoAll(hook, FRESH, ops);
            && TxPayload(u.trace) == u.past.drained + u.tx
            && RxPayload(u.trace) + u.rx == u.past.accepted
  {
    GentleRunsDropNothing(hook, ops);
    RunsAreAccounted(hook, ops);
  }

  /** Gentleness cannot be dropped: a clear loses a byte that was reported sent. */
  lemma ClearingBreaksHistory(hook: Hook, b: Byte)
    ensures var u := DoAll(hook, FRESH, [DoWrite([b]), DoClearTx]);
            TxPayload(u.trace) != u.past.drained + u.tx
  {
    var ops := [DoWrite([b]), DoClearTx];
    assert ops[..1] == [DoWrite([b])] && ops[..1][..0] == [];
    assert DoAll(hook, FRESH, ops[..1][..0]) == FRESH;
    assert DoAll(hook, FRESH, ops[..1]) == Written(hook, FRESH, [b]);
    assert Written(hook, FRESH, [b]).tx == [b];
    RunsAreAccounted(hook, ops);
  }

  // --- the object ----------------------------------------------------------

  class HostUart {
    var tx: seq<Byte>
    var rx: seq<Byte>
    var txLimit: nat
    var rxLimit: nat
    var txOverflow: bool
    var rxOverflow: bool
    var txTotal: Word
    var rxTotal: Word
    var begun: bool
    const activityHook: Hook
    var trace: seq<Note>       // what the hook has recorded
    ghost var past: Past

    ghost function View(): Uart
      reads this
    {
      Uart(tx, rx, txLimit, rxLimit, txOverflow, rxOverflow, txTotal, rxTotal, begun, trace, past)
    }

    constructor (hook: Hook)
      ensures View() == FRESH && activityHook == hook
    {
      tx, rx, txLimit, rxLimit := [], [], DEFAULT_BUFFER_SIZE, DEFAULT_BUFFER_SIZE;
      txOverflow, rxOverflow, txTotal, rxTotal, begun := false, false, 0, 0, false;
      activityHook, trace, past := hook, [], Past([], [], 0, 0, 0, 0, 0, 0);
    }

    method Report(event: Activity, data: seq<Byte>)
      modifies this
      ensures View() == Reported(activityHook, old(View()), Note(event, data))
    {
      trace := trace + [Note(event, data)];
      var pushed := PushRx(activityHook(trace));
    }

    // the sketch's side

    method BeginUart()
      modifies this
      ensures View() == Do(activityHook, old(View()), DoBegin)
    {
      begun := true;
      past := past.(txSilent := past.txSilent + |tx|, rxSilent := past.rxSilent + |rx|);
      tx, rx := [], [];
      Report(Begin, []);
    }

    method EndUart()
      modifies this
      ensures View() == Do(activityHook, old(View()), DoEnd)
    {
      begun := false;
      past := past.(txSilent := past.txSilent + |tx|, rxSilent := past.rxSilent + |rx|);
      tx, rx := [], [];
      Report(End, []);
    }

    method WriteByte(value: Byte) returns (written: nat)
      modifies this
      ensures View() == Do(activityHook, old(View()), DoWrite([value]))
      ensures written == if old(|tx| < txLimit) then 1 else 0
    {
      assert [value][..0] == [] && [value][..1] == [value];
      AdvanceOnce(txTotal, 0);
      if |tx| >= txLimit {
        txOverflow := true;
        past := past.(txRefused := past.txRefused + 1);
        assert tx + [] == tx;
        return 0;
      }
      tx := tx + [value];
      txTotal := if txTotal + 1 == UINT32 then 0 else txTotal + 1;
      past := past.(txCount := past.txCount + 1);
      assert View() == Queued(old(View()), [value]);
      Report(Tx, [value]);
      return 1;
    }

    method WriteBuffer(buffer: seq<Byte>) returns (written: nat)
      modifies this
      ensures View() == Do(activityHook, old(View()), DoWrite(buffer))
      ensures written == Min(|buffer|, Room(old(tx), old(txLimit)))
    {
      written := Queue(buffer);
      if written > 0 {
        Report(Tx, buffer[..written]);
      }
    }

    /** The part of write done under the lock. */
    method Queue(buffer: seq<Byte>) returns (written: nat)
      modifies this`tx, this`txTotal, this`txOverflow, this`past
      ensures View() == Queued(old(View()), buffer)
      ensures written == Min(|buffer|, Room(old(tx), txLimit))
    {
      ghost var was, total, flag := tx, txTotal, txOverflow;
      written := 0;
      var i := 0;
      while i < |buffer|
        invariant i == written <= |buffer| && written <= Room(was, txLimit)
        invariant tx == was + buffer[..written]
        invariant txTotal == Advance(total, written)
        invariant txOverflow == flag
        modifies this`tx, this`txTotal, this`txOverflow
      {
        if |tx| >= txLimit {
          txOverflow := true;
          break;
        }
        assert buffer[..i + 1] == buffer[..i] + [buffer[i]];
        tx := tx + [buffer[i]];
        AdvanceOnce(total, written);
        txTotal := if txTotal + 1 == UINT32 then 0 else txTotal + 1;
        written := written + 1;
        i := i + 1;
      }
      past := past.(txCount := past.txCount + written, txRefused := past.txRefused + (|buffer| - written));
    }

    method Read() returns (value: int)
      modifies this
      ensures View() == Do(activityHook, old(View()), DoRead)
      ensures value == if old(rx) == [] then -1 else old(rx)[0] as int
    {
      if rx == [] {
        return -1;
      }
      var b := rx[0];
      rx := rx[1..];
      Report(Rx, [b]);
      return b as int;
    }

    /** Drops the unread bytes and says which. */
    method Flush()
      modifies this
      ensures View() == Do(activityHook, old(View()), DoFlush)
    {
      var dropped := rx;
      rx := [];
      if dropped != [] {
        Report(RxDiscard, dropped);
      }
    }

    method SetRxBufferSize(size: nat)
      modifies this
      ensures View() == Do(activityHook, old(View()), DoSetRxSize(size))
    {
      ShrinkRx(if size > 0 then size else 1);
      Report(Config, []);
    }

    method ShrinkRx(limit: nat)
      requires limit > 0
      modifies this`rx, this`rxLimit, this`rxOverflow, this`past
      ensures View() == RxResized(old(View()), limit)
    {
      rxLimit := limit;
      ghost var was := rx;
      ghost var flag := rxOverflow;
      while |rx| > limit
        invariant Min(|was|, limit) <= |rx| <= |was| && rx == was[..|rx|]
        invariant rxOverflow == (flag || |rx| < |was|)
        modifies this`rx, this`rxOverflow
      {
        rx := rx[..|rx| - 1];
        rxOverflow := true;
      }
      past := past.(rxSilent := past.rxSilent + |was| - |rx|, rxRefused := past.rxRefused + |was| - |rx|);
    }

    method SetTxBufferSize(size: nat)
      modifies this
      ensures View() == Do(activityHook, old(View()), DoSetTxSize(size))
    {
      ShrinkTx(if size > 0 then size else 1);
      Report(Config, []);
    }

    method ShrinkTx(limit: nat)
      requires limit > 0
      modifies this`tx, this`txLimit, this`txOverflow, this`past
      ensures View() == TxResized(old(View()), limit)
    {
      txLimit := limit;
      ghost var was := tx;
      ghost var flag := txOverflow;
      while |tx| > limit
        invariant Min(|was|, limit) <= |tx| <= |was| && tx == was[..|tx|]
        invariant txOverflow == (flag || |tx| < |was|)
        modifies this`tx, this`txOverflow
      {
        tx := tx[..|tx| - 1];
        txOverflow := true;
      }
      past := past.(txSilent := past.txSilent + |was| - |tx|, txRefused := past.txRefused + |was| - |tx|);
    }

    // the driver's side

    method ReadTx(size: nat) returns (taken: seq<Byte>)
      modifies this`tx, this`past
      ensures View() == Do(activityHook, old(View()), DoReadTx(size))
      ensures taken == old(tx)[..Min(size, |old(tx)|)]
    {
      taken := [];
      while |taken| < size && tx != []
        invariant |taken| <= size && |taken| <= |old(tx)|
        invariant taken == old(tx)[..|taken|] && tx == old(tx)[|taken|..]
        decreases |tx|
        modifies this`tx
      {
        taken := taken + [tx[0]];
        tx := tx[1..];
      }
      past := past.(drained := past.drained + taken);
    }

    method PushRx(buffer: seq<Byte>) returns (pushed: nat)
      modifies this`rx, this`rxOverflow, this`rxTotal, this`past
      ensures View() == Do(activityHook, old(View()), DoPushRx(buffer))
      ensures pushed == Min(|buffer|, Room(old(rx), rxLimit))
    {
      ghost var was, total, flag := rx, rxTotal, rxOverflow;
      pushed := 0;
      var i := 0;
      while i < |buffer|
        invariant i == pushed <= |buffer|
        invariant rx == was + buffer[..pushed] && pushed <= Room(was, rxLimit)
        invariant rxTotal == Advance(total, pushed)
        invariant rxOverflow == flag
        modifies this`rx, this`rxOverflow, this`rxTotal
      {
        if |rx| >= rxLimit {
          rxOverflow := true;
          break;
        }
        assert buffer[..i + 1] == buffer[..i] + [buffer[i]];
        rx := rx + [buffer[i]];
        AdvanceOnce(total, pushed);
        rxTotal := if rxTotal + 1 == UINT32 then 0 else rxTotal + 1;
        pushed := pushed + 1;
        i := i + 1;
      }
      past := past.(accepted := past.accepted + buffer[..pushed],
                    rxCount := past.rxCount + pushed,
                    rxRefused := past.rxRefused + (|buffer| - pushed));
    }

    method ClearTx()
      modifies this`tx, this`past
      ensures View() == Do(activityHook, old(View()), DoClearTx)
    {
      past := past.(txSilent := past.txSilent + |tx|);
      tx := [];
    }

    method ClearRx()
      modifies this`rx, this`past
      ensures View() == Do(activityHook, old(View()), DoClearRx)
    {
      past := past.(rxSilent := past.rxSilent + |rx|);
      rx := [];
    }

    method ClearOverflow()
      modifies this`txOverflow, this`rxOverflow, this`past
      ensures View() == Do(activityHook, old(View()), DoClearOverflow)
    {
      txOverflow, rxOverflow := false, false;
      past := past.(txRefused := 0, rxRefused := 0);
    }

    method ResetTotals()
      modifies this`txTotal, this`rxTotal, this`past
      ensures View() == Do(activityHook, old(View()), DoResetTotals)
    {
      txTotal, rxTotal := 0, 0;
      past := past.(txCount := 0, rxCount := 0);
    }
  }
}
