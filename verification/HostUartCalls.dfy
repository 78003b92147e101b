/** What every call on the UART leaves behind and reports, in numbers: the queues, the
    limits, the flags, the totals, and which notification goes out when. */
module HostUartCalls {
  import opened Common
  import opened HostUart

  /** The first n bytes are all, or fill the queue; none when it is full already. */
  predicate Fit(queue: seq<Byte>, limit: nat, buffer: seq<Byte>, n: nat) {
    && n <= |buffer|
    && (n > 0 ==> |queue| + n <= limit)
    && (n < |buffer| ==> |queue| + n >= limit)
  }

  /** The driver's bytes join the receive queue as far as they fit. */
  predicate Pushed(u: Uart, buffer: seq<Byte>, c: Uart) {
    && |c.rx| >= |u.rx|
    && var n := |c.rx| - |u.rx|;
       && Fit(u.rx, u.rxLimit, buffer, n)
       && c.rx == u.rx + buffer[..n]
       && (c.rxOverflow <==> u.rxOverflow || n < |buffer|)
       && c.rxTotal == (u.rxTotal + n) % 4294967296
       && c.past.accepted == u.past.accepted + buffer[..n]
       && c.past.rxCount == u.past.rxCount + n && c.past.rxRefused == u.past.rxRefused + |buffer| - n
       && c == u.(rx := c.rx, rxOverflow := c.rxOverflow, rxTotal := c.rxTotal,
                  past := u.past.(accepted := c.past.accepted, rxCount := c.past.rxCount, rxRefused := c.past.rxRefused))
  }

  /** One notification, and the hook's answer pushed from inside it. */
  predicate Told(hook: Hook, u: Uart, event: Activity, data: seq<Byte>, c: Uart) {
    var trace := u.trace + [Note(event, data)];
    Pushed(u.(trace := trace), hook(trace), c)
  }

  /** Both queues emptied, told to nobody. */
  function Cleared(u: Uart): Uart {
    u.(tx := [], rx := [], past := u.past.(txSilent := u.past.txSilent + |u.tx|, rxSilent := u.past.rxSilent + |u.rx|))
  }

  /** The sketch's bytes as far as they fit; those that did are told, none not. */
  ghost predicate Sent(hook: Hook, u: Uart, buffer: seq<Byte>, c: Uart) {
    exists n: nat :: Fit(u.tx, u.txLimit, buffer, n)
      && var v := u.(tx := u.tx + buffer[..n], txOverflow := u.txOverflow || n < |buffer|,
                     txTotal := (u.txTotal + n) % 4294967296,
                     past := u.past.(txCount := u.past.txCount + n, txRefused := u.past.txRefused + |buffer| - n));
         if n == 0 then c == v else Told(hook, v, Tx, buffer[..n], c)
  }

  /** The limit is the size asked for, at least 1; the newest bytes beyond it are cut. */
  function RxCut(u: Uart, limit: nat): Uart {
    if |u.rx| <= limit then u.(rxLimit := limit)
    else u.(rxLimit := limit, rx := u.rx[..limit], rxOverflow := true,
            past := u.past.(rxSilent := u.past.rxSilent + |u.rx| - limit, rxRefused := u.past.rxRefused + |u.rx| - limit))
  }

  function TxCut(u: Uart, limit: nat): Uart {
    if |u.tx| <= limit then u.(txLimit := limit)
    else u.(txLimit := limit, tx := u.tx[..limit], txOverflow := true,
            past := u.past.(txSilent := u.past.txSilent + |u.tx| - limit, txRefused := u.past.txRefused + |u.tx| - limit))
  }

  ghost predicate Leaves(hook: Hook, u: Uart, op: Op, c: Uart) {
    match op
    case DoBegin => Told(hook, Cleared(u).(begun := true), Begin, [], c)
    case DoEnd => Told(hook, Cleared(u).(begun := false), End, [], c)
    case DoConfigure => Told(hook, u, Config, [], c)
    case DoWrite(buffer) => Sent(hook, u, buffer, c)
    case DoRead => if u.rx == [] then c == u else Told(hook, u.(rx := u.rx[1..]), Rx, [u.rx[0]], c)
    case DoFlush => if u.rx == [] then c == u else Told(hook, u.(rx := []), RxDiscard, u.rx, c)
    case DoSetRxSize(size) => Told(hook, RxCut(u, if size == 0 then 1 else size), Config, [], c)
    case DoSetTxSize(size) => Told(hook, TxCut(u, if size == 0 then 1 else size), Config, [], c)
    case DoReadTx(size) =>
      if size < |u.tx| then c == u.(tx := u.tx[size..], past := u.past.(drained := u.past.drained + u.tx[..size]))
      else c == u.(tx := [], past := u.past.(drained := u.past.drained + u.tx))
    case DoPushRx(buffer) => Pushed(u, buffer, c)
    case DoClearTx => c == u.(tx := [], past := u.past.(txSilent := u.past.txSilent + |u.tx|))
    case DoClearRx => c == u.(rx := [], past := u.past.(rxSilent := u.past.rxSilent + |u.rx|))
    case DoClearOverflow => c == u.(txOverflow := false, rxOverflow := false,
                                    past := u.past.(txRefused := 0, rxRefused := 0))
    case DoResetTotals => c == u.(txTotal := 0, rxTotal := 0, past := u.past.(txCount := 0, rxCount := 0))
  }

  lemma PushLeaves(u: Uart, buffer: seq<Byte>)
    ensures Pushed(u, buffer, PushedRx(u, buffer))
  {
  }

  lemma TellLeaves(hook: Hook, u: Uart, event: Activity, data: seq<Byte>)
    ensures Told(hook, u, event, data, Reported(hook, u, Note(event, data)))
  {
    PushLeaves(u.(trace := u.trace + [Note(event, data)]), hook(u.trace + [Note(event, data)]));
  }

  lemma WriteLeaves(hook: Hook, u: Uart, buffer: seq<Byte>)
    ensures Sent(hook, u, buffer, Written(hook, u, buffer))
  {
    var n := Min(|buffer|, Room(u.tx, u.txLimit));
    assert Fit(u.tx, u.txLimit, buffer, n);
    TellLeaves(hook, Queued(u, buffer), Tx, buffer[..n]);
  }

  lemma CutsAre(u: Uart, size: nat)
    ensures RxResized(u, size) == RxCut(u, if size == 0 then 1 else size)
    ensures TxResized(u, size) == TxCut(u, if size == 0 then 1 else size)
  {
    assert u.rx[..|u.rx|] == u.rx && u.tx[..|u.tx|] == u.tx;
  }

  /** Every call does exactly this, with every hook and in every state. */
  lemma CallsLeave(hook: Hook, u: Uart, op: Op)
    ensures Leaves(hook, u, op, Do(hook, u, op))
  {
    match op
    case DoBegin => TellLeaves(hook, Cleared(u).(begun := true), Begin, []);
    case DoEnd => TellLeaves(hook, Cleared(u).(begun := false), End, []);
    case DoConfigure => TellLeaves(hook, u, Config, []);
    case DoWrite(buffer) => WriteLeaves(hook, u, buffer);
    case DoRead => if u.rx != [] { TellLeaves(hook, u.(rx := u.rx[1..]), Rx, [u.rx[0]]); }
    case DoFlush => if u.rx != [] { TellLeaves(hook, u.(rx := []), RxDiscard, u.rx); }
    case DoSetRxSize(size) =>
      CutsAre(u, size);
      TellLeaves(hook, RxResized(u, size), Config, []);
    case DoSetTxSize(size) =>
      CutsAre(u, size);
      TellLeaves(hook, TxResized(u, size), Config, []);
    case DoPushRx(buffer) => PushLeaves(u, buffer);
    case _ =>
  }
}
