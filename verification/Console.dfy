/** The console: what the sketch prints is kept in a bounded buffer and, once a
    client has been accepted, sent to it; the accepting thread flushes the buffer
    to the new client.

    The socket is a function from the number of the send attempt to what that
    attempt returns, which covers every behaviour of a socket. A write and the
    flush hold the serial mutex and so are single steps; accepting does not, but
    it commutes with the part of a write before the socket is looked at.

    Nothing depends on what the characters are, so they are of any type: taken as
    positions in what was written, they tell one occurrence from another. */
module Console {
  import opened Common

  const CHUNK: nat := 1024
  const RETRIES: nat := 1000

  /** stopped: another thread raised the stop flag before this attempt. */
  datatype Attempt = Attempt(stopped: bool, sent: int, wouldBlock: bool)

  type Network = nat -> Attempt

  datatype Phase = Waiting | Accepted | Flushed

  datatype World<T> = World(
    buffer: seq<T>, stop: bool, phase: Phase, received: seq<T>, attempts: nat,
    before: seq<T>, between: seq<T>, after: seq<T>)    // what was written in each phase

  function Start<T>(): World<T> { World([], false, Waiting, [], 0, [], [], []) }

  /** The last n characters, or all if there are fewer. */
  function LastN<T>(n: nat, s: seq<T>): seq<T> { s[|s| - Min(n, |s|)..] }

  lemma LastOfLast<T>(n: nat, s: seq<T>, t: seq<T>)
    ensures LastN(n, LastN(n, s) + t) == LastN(n, s + t)
  {
  }

  // --- sending -------------------------------------------------------------

  function Send<T>(net: Network, w: World<T>, data: seq<T>, offset: nat, retries: nat): World<T>
    requires offset <= |data| && retries <= RETRIES
    decreases |data| - offset, RETRIES - retries
  {
    if offset == |data| || w.stop then w
    else
      var a := net(w.attempts);
      var n := Min(|data| - offset, CHUNK);
      if a.stopped then w.(stop := true)
      else if a.sent > 0 then
        var k := Min(n, a.sent);
        Send(net, w.(attempts := w.attempts + 1, received := w.received + data[offset..offset + k]), data, offset + k, 0)
      else if a.sent < 0 && a.wouldBlock && retries < RETRIES then
        Send(net, w.(attempts := w.attempts + 1), data, offset, retries + 1)
      else
        w.(attempts := w.attempts + 1, stop := true)
  }

  /** Everything arrives in order, or the stop flag is up and a prefix did; nothing
      else changes, and no more than 1001 attempts are made for each byte. */
  lemma {:induction false} SendDelivers<T>(net: Network, w: World<T>, data: seq<T>, offset: nat, retries: nat)
    requires offset <= |data| && retries <= RETRIES
    ensures var r := Send(net, w, data, offset, retries);
            && w.received <= r.received <= w.received + data[offset..]
            && (w.stop ==> r == w)
            && (!r.stop ==> r.received == w.received + data[offset..])
            && r == w.(stop := r.stop, received := r.received, attempts := r.attempts)
    ensures var spent := Send(net, w, data, offset, retries).attempts - w.attempts;
            0 <= spent <= (if offset < |data| then (RETRIES + 1) * (|data| - offset) - retries else 0)
    decreases |data| - offset, RETRIES - retries
  {
    if offset < |data| && !w.stop && !net(w.attempts).stopped {
      var a := net(w.attempts);
      var k := Min(Min(|data| - offset, CHUNK), if a.sent > 0 then a.sent else 0);
      if a.sent > 0 {
        SendDelivers(net, w.(attempts := w.attempts + 1, received := w.received + data[offset..offset + k]),
                     data, offset + k, 0);
        PrefixInParts(w.received, data, offset, offset + k,
                      Send(net, w, data, offset, retries).received);
      } else if a.sent < 0 && a.wouldBlock && retries < RETRIES {
        SendDelivers(net, w.(attempts := w.attempts + 1), data, offset, retries + 1);
      }
    }
  }

  lemma PrefixInParts<T>(s: seq<T>, data: seq<T>, i: nat, j: nat, r: seq<T>)
    requires i <= j <= |data| && s + data[i..j] <= r <= s + data[i..j] + data[j..]
    ensures s <= r <= s + data[i..] && s + data[i..j] + data[j..] == s + data[i..]
  {
    assert data[i..] == data[i..j] + data[j..];
  }

  // --- runs ----------------------------------------------------------------

  datatype Step<T> = Write(data: seq<T>) | Accept | Flush | Stop

  /** What was written is noted under the phase it was written in. */
  function Noted<T>(w: World<T>, data: seq<T>): World<T> {
    match w.phase
    case Waiting => w.(before := w.before + data)
    case Accepted => w.(between := w.between + data)
    case Flushed => w.(after := w.after + data)
  }

  function SendIfConnected<T>(net: Network, w: World<T>, data: seq<T>): World<T> {
    if w.phase.Waiting? then w else Send(net, w, data, 0, 0)
  }

  function Do<T>(net: Network, limit: nat, w: World<T>, step: Step<T>): World<T> {
    match step
    case Write(data) =>
      SendIfConnected(net, Noted(w, data).(buffer := LastN(limit, w.buffer + data)), data)
    case Accept => if w.phase.Waiting? && !w.stop then w.(phase := Accepted) else w
    case Flush => if w.phase.Accepted? then Send(net, w.(phase := Flushed), w.buffer, 0, 0) else w
    case Stop => w.(stop := true)
  }

  function DoAll<T>(net: Network, limit: nat, steps: seq<Step<T>>): World<T> {
    if steps == [] then Start()
    else Do(net, limit, DoAll(net, limit, steps[..|steps| - 1]), steps[|steps| - 1])
  }

  /** What an unstopped client has been sent. */
  function Expected<T>(w: World<T>, limit: nat): seq<T> {
    match w.phase
    case Waiting => []
    case Accepted => w.between
    case Flushed => w.between + LastN(limit, w.before + w.between) + w.after
  }

  ghost predicate Delivered<T>(w: World<T>, limit: nat) {
    && w.buffer == LastN(limit, w.before + w.between + w.after)
    && w.received <= Expected(w, limit)
    && (!w.stop ==> w.received == Expected(w, limit))
    && (w.phase.Waiting? ==> w.between == [])
    && (!w.phase.Flushed? ==> w.after == [])
  }

  lemma NotingExtends<T>(w: World<T>, limit: nat, data: seq<T>)
    requires Delivered(w, limit)
    ensures var v := Noted(w, data);
            && v.before + v.between + v.after == w.before + w.between + w.after + data
            && LastN(limit, w.buffer + data) == LastN(limit, v.before + v.between + v.after)
            && Expected(v, limit) == Expected(w, limit) + if w.phase.Waiting? then [] else data
  {
    LastOfLast(limit, w.before + w.between + w.after, data);
    match w.phase
    case Waiting =>
      assert w.before + data + w.between + w.after == w.before + w.between + w.after + data;
    case Accepted =>
      assert w.before + (w.between + data) + w.after == w.before + w.between + w.after + data;
    case Flushed =>
      assert w.before + w.between + (w.after + data) == w.before + w.between + w.after + data;
      var e := w.between + LastN(limit, w.before + w.between);
      assert e + (w.after + data) == e + w.after + data;
  }

  lemma WriteDelivers<T>(net: Network, limit: nat, w: World<T>, data: seq<T>)
    requires Delivered(w, limit)
    ensures Delivered(Do(net, limit, w, Write(data)), limit)
  {
    var v := Noted(w, data).(buffer := LastN(limit, w.buffer + data));
    NotingExtends(w, limit, data);
    assert data[0..] == data;
    if !w.phase.Waiting? {
      SendDelivers(net, v, data, 0, 0);
    }
  }

  lemma FlushDelivers<T>(net: Network, limit: nat, w: World<T>)
    requires Delivered(w, limit)
    ensures Delivered(Do(net, limit, w, Flush), limit)
  {
    if w.phase.Accepted? {
      SendDelivers(net, w.(phase := Flushed), w.buffer, 0, 0);
      assert w.buffer[0..] == w.buffer;
      assert w.before + w.between + [] == w.before + w.between;
      assert w.between + w.buffer + [] == w.between + w.buffer;
    }
  }

  /** Over every run, with every socket: the buffer is the last `limit` characters
      ever written, and the client was sent what fell between accept and flush, then
      the retained suffix of everything before the flush, then every later write; a
      prefix of that once the stop flag is up. */
  lemma {:induction false} ConsoleDelivers<T>(net: Network, limit: nat, steps: seq<Step<T>>)
    ensures Delivered(DoAll(net, limit, steps), limit)
  {
    if steps != [] {
      var w := DoAll(net, limit, steps[..|steps| - 1]);
      ConsoleDelivers(net, limit, steps[..|steps| - 1]);
      match steps[|steps| - 1]
      case Write(data) => WriteDelivers(net, limit, w, data);
      case Flush => FlushDelivers(net, limit, w);
      case _ =>
    }
  }

  /** With no write between accept and flush the client sees the retained
      pre-connect suffix and then every later write, each once and in order. */
  lemma EachByteOnce<T>(net: Network, limit: nat, steps: seq<Step<T>>)
    requires DoAll(net, limit, steps).phase.Flushed? && DoAll(net, limit, steps).between == []
    ensures var w := DoAll(net, limit, steps);
            && w.received <= LastN(limit, w.before) + w.after
            && (!w.stop ==> w.received == LastN(limit, w.before) + w.after)
  {
    var w := DoAll(net, limit, steps);
    ConsoleDelivers(net, limit, steps);
    assert w.before + [] == w.before;
    assert [] + LastN(limit, w.before) + w.after == LastN(limit, w.before) + w.after;
  }

  ghost predicate Distinct<T>(s: seq<T>) { forall i, j :: 0 <= i < j < |s| ==> s[i] != s[j] }

  lemma SentTwice<T>(limit: nat, before: seq<T>, between: seq<T>, after: seq<T>)
    requires between != [] && limit > 0
    ensures var received := between + LastN(limit, before + between) + after;
            exists i, j :: 0 <= i < j < |received| && received[i] == received[j] == between[|between| - 1]
  {
    var received := between + LastN(limit, before + between) + after;
    var i, j := |between| - 1, |between| + |LastN(limit, before + between)| - 1;
    assert received[i] == received[j] == between[|between| - 1];
  }

  lemma OnceEach<T>(limit: nat, before: seq<T>, between: seq<T>, after: seq<T>)
    requires Distinct(before + between + after)
    ensures Distinct(LastN(limit, before) + between + after)
  {
    var all, kept := before + between + after, LastN(limit, before) + between + after;
    var k := |before| - |LastN(limit, before)|;
    assert forall i :: 0 <= i < |kept| ==> kept[i] == all[i + k];
  }

  /** What an unstopped client gets is the retained pre-connect suffix and then every
      later write in order exactly when nothing was written between accept and flush
      or nothing is retained; in every other run the last character of what was
      written there reaches the client twice. */
  lemma InOrderIffNothingBetween<T>(net: Network, limit: nat, steps: seq<Step<T>>)
    requires DoAll(net, limit, steps).phase.Flushed? && !DoAll(net, limit, steps).stop
    ensures var w := DoAll(net, limit, steps);
            w.between == [] || limit == 0 ==> w.received == LastN(limit, w.before) + w.between + w.after
    ensures var w := DoAll(net, limit, steps);
            w.between != [] && limit > 0 ==>
              exists i, j :: 0 <= i < j < |w.received| && w.received[i] == w.received[j] == w.between[|w.between| - 1]
    ensures var w := DoAll(net, limit, steps);
            Distinct(w.before + w.between + w.after) ==>
              (w.received == LastN(limit, w.before) + w.between + w.after <==> w.between == [] || limit == 0)
  {
    var w := DoAll(net, limit, steps);
    ConsoleDelivers(net, limit, steps);
    if w.between != [] && limit > 0 {
      SentTwice(limit, w.before, w.between, w.after);
      if Distinct(w.before + w.between + w.after) {
        OnceEach(limit, w.before, w.between, w.after);
      }
    } else if w.between == [] {
      assert w.before + [] == w.before;
    }
  }

  // --- when everything arrives ---------------------------------------------

  predicate Accepts(a: Attempt) { !a.stopped && a.sent > 0 }

  predicate Blocks(a: Attempt) { !a.stopped && a.sent < 0 && a.wouldBlock }

  /** A socket that accepts something or would block, and never would block more than
      1000 times in a row. */
  ghost predicate Patient(net: Network) { forall k: nat :: Fair(net, k) }

  ghost predicate Fair(net: Network, k: nat) {
    (Accepts(net(k)) || Blocks(net(k))) && exists j: nat :: k <= j <= k + 1000 && Accepts(net(j))
  }

  /** After 1000 attempts in a row that would block the next one accepts. */
  lemma AcceptsAtLast(net: Network, attempts: nat, retries: nat)
    requires Patient(net) && retries <= attempts && retries <= RETRIES && !Accepts(net(attempts))
    requires forall i :: attempts - retries <= i < attempts ==> !Accepts(net(i))
    ensures Blocks(net(attempts)) && retries < RETRIES
  {
    var first: nat := attempts - retries;
    assert Fair(net, first) && Fair(net, attempts);
    var j: nat :| first <= j <= first + 1000 && Accepts(net(j));
  }

  lemma SendRetries<T>(net: Network, w: World<T>, data: seq<T>, offset: nat, retries: nat)
    requires offset < |data| && retries < RETRIES && !w.stop && Blocks(net(w.attempts))
    ensures Send(net, w, data, offset, retries) == Send(net, w.(attempts := w.attempts + 1), data, offset, retries + 1)
  {
  }

  lemma SendAdvances<T>(net: Network, w: World<T>, data: seq<T>, offset: nat, retries: nat, k: nat)
    requires offset < |data| && retries <= RETRIES && !w.stop && Accepts(net(w.attempts))
    requires k == Min(Min(|data| - offset, CHUNK), net(w.attempts).sent)
    ensures Send(net, w, data, offset, retries)
         == Send(net, w.(attempts := w.attempts + 1, received := w.received + data[offset..offset + k]), data, offset + k, 0)
  {
  }

  lemma {:induction false} PatientSendEnds<T>(net: Network, w: World<T>, data: seq<T>, offset: nat, retries: nat)
    requires Patient(net) && !w.stop && offset <= |data|
    requires retries <= w.attempts && retries <= RETRIES
    requires forall i :: w.attempts - retries <= i < w.attempts ==> !Accepts(net(i))
    ensures !Send(net, w, data, offset, retries).stop
    decreases |data| - offset, RETRIES - retries
  {
    if offset < |data| {
      var next := w.(attempts := w.attempts + 1);
      if Accepts(net(w.attempts)) {
        var k := Min(Min(|data| - offset, CHUNK), net(w.attempts).sent);
        SendAdvances(net, w, data, offset, retries, k);
        PatientSendEnds(net, next.(received := w.received + data[offset..offset + k]), data, offset + k, 0);
      } else {
        AcceptsAtLast(net, w.attempts, retries);
        SendRetries(net, w, data, offset, retries);
        PatientSendEnds(net, next, data, offset, retries + 1);
      }
    }
  }

  /** To a patient socket everything is sent. */
  lemma PatientSendDelivers<T>(net: Network, w: World<T>, data: seq<T>)
    requires Patient(net) && !w.stop
    ensures var r := Send(net, w, data, 0, 0);
            r == w.(received := w.received + data, attempts := r.attempts)
  {
    PatientSendEnds(net, w, data, 0, 0);
    SendDelivers(net, w, data, 0, 0);
    assert data[0..] == data;
  }

  /** The text of a stretch of writes. */
  function Text<T>(writes: seq<seq<T>>): seq<T> {
    if writes == [] then [] else Text(writes[..|writes| - 1]) + writes[|writes| - 1]
  }

  function Writes<T>(writes: seq<seq<T>>): (steps: seq<Step<T>>)
    ensures |steps| == |writes| && forall i :: 0 <= i < |steps| ==> steps[i] == Write(writes[i])
  {
    seq(|writes|, i requires 0 <= i < |writes| => Write(writes[i]))
  }

  lemma StepLast<T>(net: Network, limit: nat, steps: seq<Step<T>>, step: Step<T>)
    ensures DoAll(net, limit, steps + [step]) == Do(net, limit, DoAll(net, limit, steps), step)
  {
    assert (steps + [step])[..|steps + [step]| - 1] == steps;
  }

  /** From w to v only this text was written, and nothing has stopped. */
  predicate WentOn<T(==)>(w: World<T>, v: World<T>, text: seq<T>) {
    && !v.stop && v.phase == w.phase
    && v.before == w.before + (if w.phase.Waiting? then text else [])
    && v.between == w.between + (if w.phase.Accepted? then text else [])
    && v.after == w.after + (if w.phase.Flushed? then text else [])
  }

  lemma WentOnStill<T>(w: World<T>)
    requires !w.stop
    ensures WentOn(w, w, [])
  {
    assert w.before + [] == w.before && w.between + [] == w.between && w.after + [] == w.after;
  }

  lemma WentOnFurther<T>(w: World<T>, v: World<T>, x: World<T>, text: seq<T>, data: seq<T>)
    requires WentOn(w, v, text) && WentOn(v, x, data)
    ensures WentOn(w, x, text + data)
  {
    assert w.before + text + data == w.before + (text + data);
    assert w.between + text + data == w.between + (text + data);
    assert w.after + text + data == w.after + (text + data);
    assert w.before + [] + [] == w.before + [] && w.between + [] + [] == w.between + [] && w.after + [] + [] == w.after + [];
  }

  lemma OneWriteGoesOn<T>(net: Network, limit: nat, w: World<T>, data: seq<T>)
    requires Patient(net) && !w.stop
    ensures WentOn(w, Do(net, limit, w, Write(data)), data)
  {
    assert w.before + [] == w.before && w.between + [] == w.between && w.after + [] == w.after;
    PatientSendDelivers(net, Noted(w, data).(buffer := LastN(limit, w.buffer + data)), data);
  }

  lemma WritesLast<T>(steps: seq<Step<T>>, writes: seq<seq<T>>)
    requires writes != []
    ensures steps + Writes(writes) == steps + Writes(writes[..|writes| - 1]) + [Write(writes[|writes| - 1])]
  {
  }

  /** Writes alone leave the phase as it is and, to a patient socket, the stop flag down. */
  lemma {:induction false} WritesGoOn<T>(net: Network, limit: nat, steps: seq<Step<T>>, writes: seq<seq<T>>)
    requires Patient(net) && !DoAll(net, limit, steps).stop
    ensures WentOn(DoAll(net, limit, steps), DoAll(net, limit, steps + Writes(writes)), Text(writes))
  {
    var w := DoAll(net, limit, steps);
    if writes == [] {
      assert steps + Writes(writes) == steps;
      WentOnStill(w);
    } else {
      var n := |writes| - 1;
      WritesGoOn(net, limit, steps, writes[..n]);
      WritesLast(steps, writes);
      var some := steps + Writes(writes[..n]);
      StepLast(net, limit, some, Write(writes[n]));
      var v := DoAll(net, limit, some);
      OneWriteGoesOn(net, limit, v, writes[n]);
      WentOnFurther(w, v, Do(net, limit, v, Write(writes[n])), Text(writes[..n]), writes[n]);
    }
  }

  lemma FlushGoesOn<T>(net: Network, limit: nat, w: World<T>)
    requires Patient(net) && !w.stop && w.phase.Accepted?
    ensures var v := Do(net, limit, w, Flush);
            !v.stop && v.phase.Flushed? && v.before == w.before && v.between == w.between && v.after == w.after
  {
    PatientSendDelivers(net, w.(phase := Flushed), w.buffer);
  }

  /** What the phases of such a run have seen. */
  lemma PatientPhases<T>(net: Network, limit: nat, a: seq<Step<T>>, pre: seq<seq<T>>,
                         b: seq<Step<T>>, mid: seq<seq<T>>, c: seq<Step<T>>, post: seq<seq<T>>)
    requires Patient(net)
    requires a == Writes(pre) && b == a + [Accept] && c == b + Writes(mid) + [Flush]
    ensures var w := DoAll(net, limit, c + Writes(post));
            && !w.stop && w.phase.Flushed?
            && w.before == Text(pre) && w.between == Text(mid) && w.after == Text(post)
  {
    WritesGoOn(net, limit, [], pre);
    assert [] + Writes(pre) == a && [] + Text(pre) == Text(pre);
    StepLast(net, limit, a, Accept);
    WritesGoOn(net, limit, b, mid);
    assert [] + Text(mid) == Text(mid);
    StepLast(net, limit, b + Writes(mid), Flush);
    FlushGoesOn(net, limit, DoAll(net, limit, b + Writes(mid)));
    WritesGoOn(net, limit, c, post);
    assert [] + Text(post) == Text(post);
    assert Text(pre) + [] == Text(pre) && Text(mid) + [] == Text(mid);
  }

  /** Over a patient socket, a client that comes after some writes and is flushed to
      after some more gets these, then the retained suffix of both, then every later
      write; the stop flag stays down. */
  lemma PatientClientGetsAll<T>(net: Network, limit: nat, pre: seq<seq<T>>, mid: seq<seq<T>>, post: seq<seq<T>>)
    requires Patient(net)
    ensures var w := DoAll(net, limit, Writes(pre) + [Accept] + Writes(mid) + [Flush] + Writes(post));
            && !w.stop
            && w.received == Text(mid) + LastN(limit, Text(pre) + Text(mid)) + Text(post)
            && w.buffer == LastN(limit, Text(pre) + Text(mid) + Text(post))
  {
    var b := Writes(pre) + [Accept];
    var c := b + Writes(mid) + [Flush];
    PatientPhases(net, limit, Writes(pre), pre, b, mid, c, post);
    ConsoleDelivers(net, limit, c + Writes(post));
  }

  // --- and when not --------------------------------------------------------

  /** 1001 times in a row would block: stopped, with nothing more sent. */
  lemma {:induction false} BlockedForGood<T>(net: Network, w: World<T>, data: seq<T>, retries: nat)
    requires data != [] && !w.stop && retries <= 1000
    requires forall i :: w.attempts <= i <= w.attempts + 1000 - retries ==> Blocks(net(i))
    ensures Send(net, w, data, 0, retries) == w.(stop := true, attempts := w.attempts + 1001 - retries)
    decreases 1000 - retries
  {
    if retries < 1000 {
      BlockedForGood(net, w.(attempts := w.attempts + 1), data, retries + 1);
    }
  }

  /** One attempt: at most 1024 characters of what is left go out, an error or a closed
      socket stops at once, and a stop that another thread asked for makes no attempt. */
  lemma FirstAttempt<T>(net: Network, w: World<T>, data: seq<T>)
    requires data != [] && !w.stop
    ensures var a, r := net(w.attempts), Send(net, w, data, 0, 0);
            && (a.stopped ==> r == w.(stop := true))
            && (!a.stopped && (a.sent == 0 || (a.sent < 0 && !a.wouldBlock)) ==>
                  r == w.(stop := true, attempts := w.attempts + 1))
            && (Accepts(a) && (a.sent >= |data|) && |data| <= 1024 ==>
                  r == w.(received := w.received + data, attempts := w.attempts + 1))
  {
    assert data[0..|data|] == data;
  }

  /** An attempt hands over no more than 1024 characters, and what the socket took of
      them has been sent when the next attempt fails. */
  lemma OneChunk<T>(net: Network, w: World<T>, data: seq<T>, taken: nat)
    requires !w.stop && Accepts(net(w.attempts)) && taken < |data|
    requires taken == Min(1024, net(w.attempts).sent)
    requires var next := net(w.attempts + 1); !next.stopped && next.sent == 0
    ensures Send(net, w, data, 0, 0)
         == w.(received := w.received + data[..taken], attempts := w.attempts + 2, stop := true)
  {
    SendAdvances(net, w, data, 0, 0, taken);
    assert data[0..0 + taken] == data[..taken];
  }

  // --- the object ----------------------------------------------------------

  class Runtime<T> {
    var outputBuffer: seq<T>
    const outputLimit: nat
    var stop: bool
    var phase: Phase
    const network: Network
    var attempts: nat
    ghost var received: seq<T>
    ghost var before: seq<T>
    ghost var between: seq<T>
    ghost var after: seq<T>

    ghost function View(): World<T>
      reads this
    {
      World(outputBuffer, stop, phase, received, attempts, before, between, after)
    }

    constructor (limit: nat, net: Network)
      ensures View() == Start() && outputLimit == limit && network == net
    {
      outputBuffer, outputLimit, stop, phase, network, attempts := [], limit, false, Waiting, net, 0;
      received, before, between, after := [], [], [], [];
    }

    method AppendOutput(data: seq<T>)
      modifies this`outputBuffer
      ensures |old(outputBuffer)| <= outputLimit ==> outputBuffer == LastN(outputLimit, old(outputBuffer) + data)
    {
      if outputLimit == 0 {
        return;
      }
      if |data| >= outputLimit {
        outputBuffer := data[|data| - outputLimit..];
        return;
      }
      if |outputBuffer| + |data| > outputLimit {
        outputBuffer := outputBuffer[Min(|outputBuffer|, |outputBuffer| + |data| - outputLimit)..];
      }
      outputBuffer := outputBuffer + data;
    }

    method SendToClient(data: seq<T>)
      modifies this`stop, this`received, this`attempts
      ensures View() == SendIfConnected(network, old(View()), data)
    {
      if phase.Waiting? || |data| == 0 {
        return;
      }
      var offset, retries := 0, 0;
      while offset < |data| && !stop
        invariant offset <= |data| && retries <= RETRIES
        invariant Send(network, View(), data, offset, retries) == Send(network, old(View()), data, 0, 0)
        decreases |data| - offset, RETRIES - retries, !stop
      {
        var a := network(attempts);
        if a.stopped {
          stop := true;
          break;
        }
        var chunk := Min(|data| - offset, CHUNK);
        attempts := attempts + 1;
        if a.sent > 0 {
          received := received + data[offset..offset + Min(chunk, a.sent)];
          offset, retries := offset + Min(chunk, a.sent), 0;
          continue;
        }
        if a.sent < 0 && a.wouldBlock && retries < RETRIES {
          retries := retries + 1;
          continue;
        }
        stop := true;
        return;
      }
    }

    method SerialWrite(data: seq<T>) returns (written: nat)
      requires |outputBuffer| <= outputLimit
      modifies this
      ensures View() == Do(network, outputLimit, old(View()), Write(data)) && written == |data|
    {
      assert outputBuffer + [] == outputBuffer && before + [] == before && between + [] == between && after + [] == after;
      if |data| == 0 {
        return 0;
      }
      match phase {
        case Waiting => before := before + data;
        case Accepted => between := between + data;
        case Flushed => after := after + data;
      }
      AppendOutput(data);
      SendToClient(data);
      return |data|;
    }

    method AcceptClient()
      modifies this`phase
      ensures View() == Do(network, outputLimit, old(View()), Accept)
    {
      if phase.Waiting? && !stop {
        phase := Accepted;
      }
    }

    /** Once, after the accept loop, which may have ended without a client. */
    method FlushToClient()
      requires !phase.Flushed?
      modifies this
      ensures View() == Do(network, outputLimit, old(View()), Flush)
    {
      if phase.Accepted? {
        phase := Flushed;
      }
      if outputBuffer != [] {
        SendToClient(outputBuffer);
      }
    }
  }
}
