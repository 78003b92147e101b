/** The interrupt port: handlers may trigger, attach, detach and reset while
    they run, to any depth. */
module HostInterrupt {
  import opened Common

  const PIN_COUNT: nat := 256

  datatype Trigger = TriggerNone | Rising | Falling | Change | LevelLow | LevelHigh | Unknown

  /** A handler with or without an argument, by its address. */
  datatype Handler = Plain(fn: nat) | WithArg(fn: nat, arg: nat)

  datatype Slot = Slot(attached: bool, mode: int, trigger: Trigger, handler: Option<Handler>, fires: nat, depth: nat)

  const EMPTY_SLOT: Slot := Slot(false, 0, TriggerNone, None, 0, 0)

  function Normalize(mode: int): Trigger {
    match mode
    case 0x00 => LevelLow      // LOW, the AVR spelling
    case 0x01 => Change
    case 0x02 => Falling
    case 0x03 => Rising
    case 0x04 => LevelLow      // ONLOW
    case 0x0C => LevelLow      // ONLOW_WE
    case 0x05 => LevelHigh     // ONHIGH
    case 0x0D => LevelHigh     // ONHIGH_WE
    case _ => Unknown
  }

  /** What the hook sees, and the calls of handlers. */
  datatype Event =
    | Attached(pin: nat, slot: Slot)
    | Detached(pin: nat, slot: Slot)
    | Enter(pin: nat, slot: Slot)
    | Called(pin: nat, handler: Handler)
    | Exit(pin: nat, slot: Slot)
    | WasReset

  /** What a piece of code does to the port. A trigger carries what the handler
      does if one is called; each invocation may do something else. */
  datatype Act =
    | Attach(pin: int, handler: Option<Handler>, mode: int)
    | Detach(pin: int)
    | Fire(pin: int, body: seq<Act>)
    | Reset

  // ---- Specification: the port as a value ---------------------------------

  /** Slots and the events so far. */
  datatype Port = Port(slots: seq<Slot>, log: seq<Event>)

  predicate Valid(p: Port) {
    |p.slots| == PIN_COUNT &&
    forall i :: 0 <= i < PIN_COUNT ==>
      p.slots[i].depth < 256 && p.slots[i].fires < UINT32 && (p.slots[i].attached ==> p.slots[i].handler.Some?)
  }

  predicate InRange(pin: int) { 0 <= pin < PIN_COUNT }

  function DoAttach(p: Port, pin: int, handler: Option<Handler>, mode: int): (r: Port)
    requires Valid(p)
    ensures Valid(r)
  {
    if !InRange(pin) || handler.None? then p
    else
      var slot := p.slots[pin].(attached := true, mode := mode, trigger := Normalize(mode), handler := handler);
      Port(p.slots[pin := slot], p.log + [Attached(pin, slot)])
  }

  function DoDetach(p: Port, pin: int): (r: Port)
    requires Valid(p)
    ensures Valid(r)
  {
    if !InRange(pin) || !p.slots[pin].attached then p
    else
      var slot := p.slots[pin].(attached := false, mode := 0, trigger := TriggerNone, handler := None);
      Port(p.slots[pin := slot], p.log + [Detached(pin, slot)])
  }

  function DoReset(p: Port): (r: Port)
    requires Valid(p)
    ensures Valid(r)
  {
    Port(seq(PIN_COUNT, i => EMPTY_SLOT), p.log + [WasReset])
  }

  /** Counting the fire and the depth, in 32 and 8 bits, up to the handler. */
  function DoEnter(p: Port, pin: nat): (r: Port)
    requires Valid(p) && pin < PIN_COUNT && p.slots[pin].attached
    ensures Valid(r)
  {
    var was := p.slots[pin];
    var slot := was.(fires := if was.fires + 1 == UINT32 then 0 else was.fires + 1,
                     depth := if was.depth == 255 then 0 else was.depth + 1);
    Port(p.slots[pin := slot],
         p.log + [Enter(pin, slot)] + [Called(pin, was.handler.value)])
  }

  function DoExit(p: Port, pin: nat): (r: Port)
    requires Valid(p) && pin < PIN_COUNT
    ensures Valid(r)
  {
    var was := p.slots[pin];
    var slot := was.(depth := if was.depth > 0 then was.depth - 1 else 0);
    Port(p.slots[pin := slot], p.log + [Exit(pin, slot)])
  }

  function Do(p: Port, act: Act): (r: Port)
    requires Valid(p)
    ensures Valid(r)
    decreases act
  {
    match act
    case Attach(pin, handler, mode) => DoAttach(p, pin, handler, mode)
    case Detach(pin) => DoDetach(p, pin)
    case Reset => DoReset(p)
    case Fire(pin, body) =>
      if !InRange(pin) || !p.slots[pin].attached then p
      else DoExit(DoAll(DoEnter(p, pin), body), pin)
  }

  function DoAll(p: Port, acts: seq<Act>): (r: Port)
    requires Valid(p)
    ensures Valid(r)
    decreases acts
  {
    if acts == [] then p else DoAll(Do(p, acts[0]), acts[1..])
  }

  // ---- The port as the code keeps it: a table updated in place ------------

  class InterruptTable {
    const slots: array<Slot>
    var log: seq<Event>

    ghost predicate Ok()
      reads this, slots
    {
      slots.Length == PIN_COUNT && Valid(Now())
    }

    ghost function Now(): Port
      reads this, slots
    {
      Port(slots[..], log)
    }

    constructor ()
      ensures Ok() && fresh(slots) && log == []
      ensures forall i :: 0 <= i < PIN_COUNT ==> slots[i] == EMPTY_SLOT
    {
      slots := new Slot[PIN_COUNT](i => EMPTY_SLOT);
      log := [];
    }

    method AttachHandler(pin: int, handler: Option<Handler>, mode: int)
      requires Ok()
      modifies this`log, slots
      ensures Ok() && Now() == DoAttach(old(Now()), pin, handler, mode)
    {
      if !(0 <= pin < PIN_COUNT) || handler.None? {
        return;
      }
      slots[pin] := slots[pin].(attached := true, mode := mode, trigger := Normalize(mode), handler := handler);
      log := log + [Attached(pin, slots[pin])];
    }

    method DetachHandler(pin: int)
      requires Ok()
      modifies this`log, slots
      ensures Ok() && Now() == DoDetach(old(Now()), pin)
    {
      if !(0 <= pin < PIN_COUNT) {
        return;
      }
      if !slots[pin].attached {
        return;
      }
      slots[pin] := slots[pin].(attached := false, mode := 0, trigger := TriggerNone, handler := None);
      log := log + [Detached(pin, slots[pin])];
    }

    method ResetAll()
      requires Ok()
      modifies this`log, slots
      ensures Ok() && Now() == DoReset(old(Now()))
    {
      for i := 0 to PIN_COUNT
        invariant forall j :: 0 <= j < i ==> slots[j] == EMPTY_SLOT
        modifies slots
      {
        slots[i] := EMPTY_SLOT;
      }
      log := log + [WasReset];
      assert slots[..] == seq(PIN_COUNT, i => EMPTY_SLOT);
    }

    /** triggerInterrupt; the handler is copied before the call and the slot
        read afresh after it. */
    method TriggerInterrupt(pin: int, body: seq<Act>) returns (fired: bool)
      requires Ok()
      modifies this`log, slots
      ensures Ok() && Now() == Do(old(Now()), Fire(pin, body))
      ensures fired <==> InRange(pin) && old(InRange(pin) && slots[pin].attached)
      decreases body, 1
    {
      if !(0 <= pin < PIN_COUNT) {
        return false;
      }
      if !slots[pin].attached {
        return false;
      }
      var handler := slots[pin].handler;
      ghost var before := Now();
      slots[pin] := slots[pin].(fires := if slots[pin].fires + 1 == UINT32 then 0 else slots[pin].fires + 1);
      slots[pin] := slots[pin].(depth := if slots[pin].depth == 255 then 0 else slots[pin].depth + 1);
      log := log + [Enter(pin, slots[pin])];
      log := log + [Called(pin, handler.value)];
      assert Now() == DoEnter(before, pin);
      RunHandler(body);
      if slots[pin].depth > 0 {
        slots[pin] := slots[pin].(depth := slots[pin].depth - 1);
      }
      log := log + [Exit(pin, slots[pin])];
      return true;
    }

    /** What a handler does, one call into the port after the other. */
    method RunHandler(acts: seq<Act>)
      requires Ok()
      modifies this`log, slots
      ensures Ok() && Now() == DoAll(old(Now()), acts)
      decreases acts, 0
    {
      if acts == [] {
        return;
      }
      match acts[0] {
        case Attach(pin, handler, mode) => AttachHandler(pin, handler, mode);
        case Detach(pin) => DetachHandler(pin);
        case Reset => ResetAll();
        case Fire(pin, body) => var fired := TriggerInterrupt(pin, body);
      }
      RunHandler(acts[1..]);
    }
  }

  // ---- Reading a stretch of the log on its own ----------------------------

  /** Enters push their pin and exits pop it; None at an exit that does not match. */
  function Nest(w: seq<Event>, stack: seq<nat>): Option<seq<nat>> {
    if w == [] then Some(stack)
    else match w[0]
      case Enter(pin, _) => Nest(w[1..], [pin] + stack)
      case Exit(pin, _) => if stack != [] && stack[0] == pin then Nest(w[1..], stack[1..]) else None
      case _ => Nest(w[1..], stack)
  }

  function CountedFires(w: seq<Event>, pin: nat, fires: nat): nat {
    if w == [] then fires
    else match w[0]
      case Enter(q, _) => CountedFires(w[1..], pin, if q != pin then fires else if fires + 1 == UINT32 then 0 else fires + 1)
      case WasReset => CountedFires(w[1..], pin, 0)
      case _ => CountedFires(w[1..], pin, fires)
  }

  function NextRegistration(e: Event, pin: nat, registered: Option<Handler>): Option<Handler> {
    match e
    case Attached(q, slot) => if q == pin then slot.handler else registered
    case Detached(q, _) => if q == pin then None else registered
    case WasReset => None
    case _ => registered
  }

  /** The handler the attach, detach and reset events leave registered. */
  function Registered(w: seq<Event>, pin: nat, registered: Option<Handler>): Option<Handler> {
    if w == [] then registered else Registered(w[1..], pin, NextRegistration(w[0], pin, registered))
  }

  /** Every Enter of the pin is followed at once by a call of the handler
      registered at that moment. */
  predicate CallsRegistered(w: seq<Event>, pin: nat, registered: Option<Handler>) {
    w == [] ||
    ((w[0].Enter? && w[0].pin == pin ==>
        registered.Some? && |w| > 1 && w[1] == Called(pin, registered.value)) &&
     CallsRegistered(w[1..], pin, NextRegistration(w[0], pin, registered)))
  }

  /** The 8-bit depth came out 0: it wrapped, or the port was reset. */
  predicate Zeroes(e: Event, pin: nat) {
    e.WasReset? || (e.Enter? && e.pin == pin && e.slot.depth == 0)
  }

  predicate Zeroed(w: seq<Event>, pin: nat) { exists i :: 0 <= i < |w| && Zeroes(w[i], pin) }

  lemma {:induction false} NestConcat(a: seq<Event>, b: seq<Event>, stack: seq<nat>)
    ensures Nest(a + b, stack) == match Nest(a, stack) case None => None case Some(s) => Nest(b, s)
    decreases |a|
  {
    if a == [] {
      assert a + b == b;
    } else {
      assert (a + b)[1..] == a[1..] + b;
      match a[0]
      case Enter(pin, _) => NestConcat(a[1..], b, [pin] + stack);
      case Exit(pin, _) => if stack != [] { NestConcat(a[1..], b, stack[1..]); }
      case _ => NestConcat(a[1..], b, stack);
    }
  }

  lemma {:induction false} FoldsConcat(a: seq<Event>, b: seq<Event>, pin: nat, fires: nat, registered: Option<Handler>)
    ensures CountedFires(a + b, pin, fires) == CountedFires(b, pin, CountedFires(a, pin, fires))
    ensures Registered(a + b, pin, registered) == Registered(b, pin, Registered(a, pin, registered))
    ensures CallsRegistered(a, pin, registered) && CallsRegistered(b, pin, Registered(a, pin, registered))
            ==> CallsRegistered(a + b, pin, registered)
    decreases |a|
  {
    if a == [] {
      assert a + b == b;
    } else {
      assert (a + b)[1..] == a[1..] + b;
      var next := match a[0]
        case Enter(q, _) => if q != pin then fires else if fires + 1 == UINT32 then 0 else fires + 1
        case WasReset => 0
        case _ => fires;
      FoldsConcat(a[1..], b, pin, next, NextRegistration(a[0], pin, registered));
    }
  }

  lemma ZeroedConcat(a: seq<Event>, b: seq<Event>, pin: nat)
    ensures Zeroed(a + b, pin) <==> Zeroed(a, pin) || Zeroed(b, pin)
  {
    if i :| 0 <= i < |a| && Zeroes(a[i], pin) {
      assert Zeroes((a + b)[i], pin);
    }
    if i :| 0 <= i < |b| && Zeroes(b[i], pin) {
      assert Zeroes((a + b)[|a| + i], pin);
    }
    if i :| 0 <= i < |a + b| && Zeroes((a + b)[i], pin) {
      assert if i < |a| then Zeroes(a[i], pin) else Zeroes(b[i - |a|], pin);
    }
  }

  // ---- What any code run on the port does ---------------------------------

  function Registration(s: Slot): Option<Handler> { if s.attached then s.handler else None }

  /** From slot s to slot s' of the pin while the stretch w was logged. */
  predicate Fits(s: Slot, s': Slot, w: seq<Event>, pin: nat) {
    && s'.fires == CountedFires(w, pin, s.fires)
    && Registration(s') == Registered(w, pin, Registration(s))
    && CallsRegistered(w, pin, Registration(s))
    && (s'.depth == s.depth || s'.depth == 0)
    && (s'.depth == s.depth <==> s.depth == 0 || !Zeroed(w, pin))
  }

  lemma FitsConcat(s: Slot, s': Slot, s'': Slot, a: seq<Event>, b: seq<Event>, pin: nat)
    requires Fits(s, s', a, pin) && Fits(s', s'', b, pin)
    ensures Fits(s, s'', a + b, pin)
  {
    FoldsConcat(a, b, pin, s.fires, Registration(s));
    ZeroedConcat(a, b, pin);
  }

  ghost predicate Bracketed(w: seq<Event>) { forall stack :: Nest(w, stack) == Some(stack) }

  ghost predicate Behaves(p: Port, p': Port, w: seq<Event>)
    requires Valid(p) && Valid(p')
  {
    && p'.log == p.log + w
    && Bracketed(w)
    && forall pin: nat :: pin < PIN_COUNT ==> Fits(p.slots[pin], p'.slots[pin], w, pin)
  }

  lemma BehavesConcat(p: Port, p': Port, p'': Port, a: seq<Event>, b: seq<Event>)
    requires Valid(p) && Valid(p') && Valid(p'')
    requires Behaves(p, p', a) && Behaves(p', p'', b)
    ensures Behaves(p, p'', a + b)
  {
    assert p''.log == p.log + (a + b);
    forall stack ensures Nest(a + b, stack) == Some(stack) {
      NestConcat(a, b, stack);
    }
    forall pin: nat | pin < PIN_COUNT ensures Fits(p.slots[pin], p''.slots[pin], a + b, pin) {
      FitsConcat(p.slots[pin], p'.slots[pin], p''.slots[pin], a, b, pin);
    }
  }

  lemma OneEvent(e: Event, pin: nat, fires: nat, registered: Option<Handler>)
    requires !e.Enter?
    ensures CountedFires([e], pin, fires) == if e.WasReset? then 0 else fires
    ensures Registered([e], pin, registered) == NextRegistration(e, pin, registered)
    ensures CallsRegistered([e], pin, registered)
    ensures Zeroed([e], pin) <==> e.WasReset?
    ensures !e.Exit? ==> Bracketed([e])
  {
    assert [e][1..] == [];
    if e.WasReset? {
      assert Zeroes([e][0], pin);
    }
  }

  lemma NoEvents(p: Port)
    requires Valid(p)
    ensures Behaves(p, p, [])
  {
    assert p.log + [] == p.log;
  }

  lemma SimpleBehaves(p: Port, act: Act) returns (w: seq<Event>)
    requires Valid(p) && !act.Fire?
    ensures Behaves(p, Do(p, act), w)
  {
    var p' := Do(p, act);
    if p' == p {
      NoEvents(p);
      w := [];
    } else {
      w := [p'.log[|p.log|]];
      forall pin: nat | pin < PIN_COUNT ensures Fits(p.slots[pin], p'.slots[pin], w, pin) {
        OneEvent(w[0], pin, p.slots[pin].fires, Registration(p.slots[pin]));
      }
      OneEvent(w[0], 0, 0, None);
    }
  }

  /** A handler's body between its Enter and its Exit. */
  lemma FireFits(s: Slot, e: Slot, b: Slot, x: Slot, body: seq<Event>, pin: nat, q: nat, h: Handler)
    requires Fits(e, b, body, pin) && s.fires < UINT32 && s.depth < 256
    requires q == pin ==>
               && Registration(s) == Some(h)
               && e == s.(fires := if s.fires + 1 == UINT32 then 0 else s.fires + 1,
                          depth := if s.depth == 255 then 0 else s.depth + 1)
               && x == b.(depth := if b.depth > 0 then b.depth - 1 else 0)
    requires q != pin ==> e == s && x == b
    ensures forall f: Slot, g: Slot :: f.depth == e.depth || q != pin ==>
              Fits(s, x, [Enter(q, f), Called(q, h)] + body + [Exit(q, g)], pin)
  {
    forall f: Slot, g: Slot | f.depth == e.depth || q != pin
      ensures Fits(s, x, [Enter(q, f), Called(q, h)] + body + [Exit(q, g)], pin)
    {
      var open, shut := [Enter(q, f), Called(q, h)], [Exit(q, g)];
      assert open[1..] == [Called(q, h)] && open[1..][1..] == [];
      FoldsConcat(open, body, pin, s.fires, Registration(s));
      FoldsConcat(open + body, shut, pin, s.fires, Registration(s));
      ZeroedConcat(open, body, pin);
      ZeroedConcat(open + body, shut, pin);
      OneEvent(Called(q, h), pin, e.fires, Registration(s));
      OneEvent(Exit(q, g), pin, b.fires, Registration(b));
      assert Zeroed(open, pin) <==> q == pin && f.depth == 0 by {
        assert Zeroes(open[0], pin) <==> q == pin && f.depth == 0;
      }
    }
  }

  lemma FireBrackets(q: nat, f: Slot, h: Handler, body: seq<Event>, g: Slot)
    requires Bracketed(body)
    ensures Bracketed([Enter(q, f), Called(q, h)] + body + [Exit(q, g)])
  {
    var open, shut := [Enter(q, f), Called(q, h)], [Exit(q, g)];
    forall stack ensures Nest(open + body + shut, stack) == Some(stack) {
      assert open[1..] == [Called(q, h)] && open[1..][1..] == [] && shut[1..] == [];
      NestConcat(open, body, stack);
      NestConcat(open + body, shut, stack);
      assert ([q] + stack)[1..] == stack;
      assert Nest(body, [q] + stack) == Some([q] + stack);
    }
  }

  lemma FireBehaves(p: Port, pin: nat, inside: Port, body: seq<Event>) returns (w: seq<Event>)
    requires Valid(p) && Valid(inside) && pin < PIN_COUNT && p.slots[pin].attached
    requires Behaves(DoEnter(p, pin), inside, body)
    ensures Behaves(p, DoExit(inside, pin), w)
  {
    var entered, p' := DoEnter(p, pin), DoExit(inside, pin);
    var h := p.slots[pin].handler.value;
    w := [Enter(pin, entered.slots[pin]), Called(pin, h)] + body + [Exit(pin, p'.slots[pin])];
    assert p'.log == p.log + w;
    FireBrackets(pin, entered.slots[pin], h, body, p'.slots[pin]);
    forall r: nat | r < PIN_COUNT ensures Fits(p.slots[r], p'.slots[r], w, r) {
      FireFits(p.slots[r], entered.slots[r], inside.slots[r], p'.slots[r], body, r, pin, h);
    }
  }

  lemma {:induction false} DoBehaves(p: Port, act: Act) returns (w: seq<Event>)
    requires Valid(p)
    ensures Behaves(p, Do(p, act), w)
    decreases act, 1
  {
    if act.Fire? && InRange(act.pin) && p.slots[act.pin].attached {
      var body := DoAllBehaves(DoEnter(p, act.pin), act.body);
      w := FireBehaves(p, act.pin, DoAll(DoEnter(p, act.pin), act.body), body);
    } else if act.Fire? {
      NoEvents(p);
      w := [];
    } else {
      w := SimpleBehaves(p, act);
    }
  }

  lemma {:induction false} DoAllBehaves(p: Port, acts: seq<Act>) returns (w: seq<Event>)
    requires Valid(p)
    ensures Behaves(p, DoAll(p, acts), w)
    decreases acts, 0
  {
    if acts == [] {
      NoEvents(p);
      w := [];
    } else {
      var first := DoBehaves(p, acts[0]);
      var rest := DoAllBehaves(Do(p, acts[0]), acts[1..]);
      BehavesConcat(p, Do(p, acts[0]), DoAll(p, acts), first, rest);
      w := first + rest;
    }
  }

  function Enters(w: seq<Event>, pin: nat): nat {
    if w == [] then 0 else Unit(w[0].Enter? && w[0].pin == pin) + Enters(w[1..], pin)
  }

  lemma {:induction false} FiresAreEnters(w: seq<Event>, pin: nat, fires: nat)
    requires fires < UINT32 && forall i :: 0 <= i < |w| ==> !w[i].WasReset?
    ensures CountedFires(w, pin, fires) == (fires + Enters(w, pin)) % UINT32
    decreases |w|
  {
    if w != [] {
      var next := if !(w[0].Enter? && w[0].pin == pin) then fires else if fires + 1 == UINT32 then 0 else fires + 1;
      FiresAreEnters(w[1..], pin, next);
    }
  }

  /** For every family of handlers that trigger, attach, detach and reset, nested
      to any depth: what they log is a balanced word of Enter and Exit; every
      Enter is followed by a call of the handler registered at that moment,
      whatever it does to its own registration; without a reset `fires` grows by
      the number of Enters modulo 2^32; and a pin's depth is restored exactly
      when it was 0 or no Enter of the pin wrapped it and nothing was reset, and
      otherwise left at 0. */
  lemma HandlersAreBracketed(p: Port, acts: seq<Act>, pin: nat) returns (w: seq<Event>)
    requires Valid(p) && pin < PIN_COUNT
    ensures DoAll(p, acts).log == p.log + w
    ensures Bracketed(w)
    ensures CallsRegistered(w, pin, Registration(p.slots[pin]))
    ensures Registration(DoAll(p, acts).slots[pin]) == Registered(w, pin, Registration(p.slots[pin]))
    ensures (forall i :: 0 <= i < |w| ==> !w[i].WasReset?) ==>
              DoAll(p, acts).slots[pin].fires == (p.slots[pin].fires + Enters(w, pin)) % UINT32
    ensures DoAll(p, acts).slots[pin].depth == p.slots[pin].depth <==> p.slots[pin].depth == 0 || !Zeroed(w, pin)
    ensures DoAll(p, acts).slots[pin].depth == p.slots[pin].depth || DoAll(p, acts).slots[pin].depth == 0
  {
    w := DoAllBehaves(p, acts);
    assert Fits(p.slots[pin], DoAll(p, acts).slots[pin], w, pin);
    if forall i :: 0 <= i < |w| ==> !w[i].WasReset? {
      FiresAreEnters(w, pin, p.slots[pin].fires);
    }
  }

  // ---- A bound a caller can check beforehand ------------------------------

  predicate NoReset(act: Act) {
    !act.Reset? && (act.Fire? ==> forall a :: a in act.body ==> NoReset(a))
  }

  /** How deep the acts nest triggers of the pin. */
  function Height(act: Act, pin: nat): nat
    decreases act, 1
  {
    if act.Fire? then HeightAll(act.body, pin) + Unit(act.pin == pin) else 0
  }

  function HeightAll(acts: seq<Act>, pin: nat): nat
    decreases acts, 0
  {
    if acts == [] then 0
    else
      var a, b := Height(acts[0], pin), HeightAll(acts[1..], pin);
      if a > b then a else b
  }

  /** Nothing between p and p' zeroed the pin's depth, which is as it was. */
  predicate Calm(p: Port, p': Port, pin: nat)
    requires Valid(p) && Valid(p') && pin < PIN_COUNT
  {
    && p.log <= p'.log
    && (forall i :: |p.log| <= i < |p'.log| ==> !Zeroes(p'.log[i], pin))
    && p'.slots[pin].depth == p.slots[pin].depth
  }

  lemma {:induction false} ActIsCalm(p: Port, act: Act, pin: nat)
    requires Valid(p) && pin < PIN_COUNT
    requires NoReset(act) && p.slots[pin].depth + Height(act, pin) <= 255
    ensures Calm(p, Do(p, act), pin)
    decreases act, 1
  {
    if act.Fire? && InRange(act.pin) && p.slots[act.pin].attached {
      var entered := DoEnter(p, act.pin);
      BodyIsCalm(entered, act.body, pin);
      var inside := DoAll(entered, act.body);
      assert Do(p, act) == DoExit(inside, act.pin);
    }
  }

  lemma {:induction false} BodyIsCalm(p: Port, acts: seq<Act>, pin: nat)
    requires Valid(p) && pin < PIN_COUNT
    requires (forall a :: a in acts ==> NoReset(a)) && p.slots[pin].depth + HeightAll(acts, pin) <= 255
    ensures Calm(p, DoAll(p, acts), pin)
    decreases acts, 0
  {
    if acts != [] {
      ActIsCalm(p, acts[0], pin);
      BodyIsCalm(Do(p, acts[0]), acts[1..], pin);
    }
  }

  /** With the nesting of the pin within 255 and no reset inside, the depth is
      restored on return. */
  lemma DepthRestored(p: Port, acts: seq<Act>, pin: nat)
    requires Valid(p) && pin < PIN_COUNT
    requires (forall a :: a in acts ==> NoReset(a)) && p.slots[pin].depth + HeightAll(acts, pin) <= 255
    ensures DoAll(p, acts).slots[pin].depth == p.slots[pin].depth
  {
    BodyIsCalm(p, acts, pin);
  }

  // ---- And exactly when it fails ------------------------------------------

  /** No detach and no reset, here or in a nested handler. */
  predicate Steady(act: Act) {
    !act.Reset? && !act.Detach? && (act.Fire? ==> forall a :: a in act.body ==> Steady(a))
  }

  /** Every pin the act triggers, here or in a nested handler, is attached. */
  predicate Live(p: Port, act: Act)
    requires Valid(p)
    decreases act
  {
    act.Fire? ==> InRange(act.pin) && p.slots[act.pin].attached && forall a :: a in act.body ==> Live(p, a)
  }

  predicate StillAttached(p: Port, p': Port)
    requires Valid(p) && Valid(p')
  {
    forall q :: 0 <= q < PIN_COUNT && p.slots[q].attached ==> p'.slots[q].attached
  }

  lemma {:induction false} LiveStays(p: Port, p': Port, act: Act)
    requires Valid(p) && Valid(p') && StillAttached(p, p') && Live(p, act)
    ensures Live(p', act)
    decreases act
  {
    if act.Fire? {
      forall a | a in act.body ensures Live(p', a) {
        LiveStays(p, p', a);
      }
    }
  }

  lemma {:induction false} SteadyKeepsAttached(p: Port, act: Act)
    requires Valid(p) && Steady(act)
    ensures StillAttached(p, Do(p, act))
    decreases act, 1
  {
    if act.Fire? && InRange(act.pin) && p.slots[act.pin].attached {
      BodyKeepsAttached(DoEnter(p, act.pin), act.body);
    }
  }

  lemma {:induction false} BodyKeepsAttached(p: Port, acts: seq<Act>)
    requires Valid(p) && forall a :: a in acts ==> Steady(a)
    ensures StillAttached(p, DoAll(p, acts))
    decreases acts, 0
  {
    if acts != [] {
      SteadyKeepsAttached(p, acts[0]);
      BodyKeepsAttached(Do(p, acts[0]), acts[1..]);
    }
  }

  /** Between p and p' the pin's depth came out 0. */
  predicate Wraps(p: Port, p': Port, pin: nat) {
    p.log <= p'.log && exists i :: |p.log| <= i < |p'.log| && Zeroes(p'.log[i], pin)
  }

  lemma WrapsFirst(p: Port, mid: Port, acts: seq<Act>, pin: nat)
    requires Valid(p) && Valid(mid) && pin < PIN_COUNT && Wraps(p, mid, pin)
    ensures Wraps(p, DoAll(mid, acts), pin)
  {
    var w := DoAllBehaves(mid, acts);
    var i :| |p.log| <= i < |mid.log| && Zeroes(mid.log[i], pin);
    assert DoAll(mid, acts).log[i] == mid.log[i];
  }

  lemma {:induction false} ActWraps(p: Port, act: Act, pin: nat)
    requires Valid(p) && pin < PIN_COUNT && Steady(act) && Live(p, act)
    requires p.slots[pin].depth + Height(act, pin) > 255
    ensures Wraps(p, Do(p, act), pin)
    decreases act, 1
  {
    var entered := DoEnter(p, act.pin);
    var inside := DoAll(entered, act.body);
    if act.pin == pin && p.slots[pin].depth == 255 {
      assert Zeroes(entered.log[|p.log|], pin);
      WrapsFirst(p, entered, act.body, pin);
    } else {
      forall a | a in act.body ensures Live(entered, a) {
        LiveStays(p, entered, a);
      }
      BodyWraps(entered, act.body, pin);
    }
    var i :| |p.log| <= i < |inside.log| && Zeroes(inside.log[i], pin);
    assert Do(p, act) == DoExit(inside, act.pin);
    assert Do(p, act).log[i] == inside.log[i];
  }

  lemma {:induction false} BodyWraps(p: Port, acts: seq<Act>, pin: nat)
    requires Valid(p) && pin < PIN_COUNT && forall a :: a in acts ==> Steady(a) && Live(p, a)
    requires p.slots[pin].depth + HeightAll(acts, pin) > 255
    ensures Wraps(p, DoAll(p, acts), pin)
    decreases acts, 0
  {
    var next := Do(p, acts[0]);
    if p.slots[pin].depth + Height(acts[0], pin) > 255 {
      ActWraps(p, acts[0], pin);
      WrapsFirst(p, next, acts[1..], pin);
    } else {
      SteadyHasNoReset(acts[0]);
      ActIsCalm(p, acts[0], pin);
      SteadyKeepsAttached(p, acts[0]);
      forall a | a in acts[1..] ensures Live(next, a) {
        LiveStays(p, next, a);
      }
      BodyWraps(next, acts[1..], pin);
      var i :| |next.log| <= i < |DoAll(next, acts[1..]).log| && Zeroes(DoAll(next, acts[1..]).log[i], pin);
      assert Zeroes(DoAll(p, acts).log[i], pin);
    }
  }

  lemma {:induction false} SteadyHasNoReset(act: Act)
    requires Steady(act)
    ensures NoReset(act)
    decreases act
  {
    if act.Fire? {
      forall a | a in act.body ensures NoReset(a) {
        SteadyHasNoReset(a);
      }
    }
  }

  /** A condition a caller can check beforehand: when no handler detaches or resets and
      every triggered pin is attached, a pin's depth is restored if and only if it was 0
      or the nesting stays within 255. */
  lemma DepthRestoredIff(p: Port, acts: seq<Act>, pin: nat)
    requires Valid(p) && pin < PIN_COUNT && forall a :: a in acts ==> Steady(a) && Live(p, a)
    ensures DoAll(p, acts).slots[pin].depth == p.slots[pin].depth
            <==> p.slots[pin].depth == 0 || p.slots[pin].depth + HeightAll(acts, pin) <= 255
  {
    var w := HandlersAreBracketed(p, acts, pin);
    if p.slots[pin].depth + HeightAll(acts, pin) <= 255 {
      forall a | a in acts ensures NoReset(a) {
        SteadyHasNoReset(a);
      }
      DepthRestored(p, acts, pin);
    } else {
      BodyWraps(p, acts, pin);
      var i :| |p.log| <= i < |DoAll(p, acts).log| && Zeroes(DoAll(p, acts).log[i], pin);
      assert w[i - |p.log|] == DoAll(p, acts).log[i];
    }
  }

  /** n triggers of the pin, each inside the handler of the one before. */
  function Tower(pin: nat, n: nat): seq<Act> {
    if n == 0 then [] else [Fire(pin, Tower(pin, n - 1))]
  }

  lemma {:induction false} TowerIs(p: Port, pin: nat, n: nat)
    requires Valid(p) && pin < PIN_COUNT && p.slots[pin].attached
    ensures HeightAll(Tower(pin, n), pin) == n
    ensures forall a :: a in Tower(pin, n) ==> Steady(a) && Live(p, a)
  {
    if n > 0 {
      TowerIs(p, pin, n - 1);
      var t := Fire(pin, Tower(pin, n - 1));
      assert Tower(pin, n) == [t] && [t][1..] == [];
      assert HeightAll([], pin) == 0;
    }
  }

  /** The bound is needed: on an attached pin that is inside its handler at depth d,
      256 - d nested triggers lose the depth. */
  lemma DeepNestingLosesDepth(p: Port, pin: nat)
    requires Valid(p) && pin < PIN_COUNT && p.slots[pin].attached && p.slots[pin].depth > 0
    ensures DoAll(p, Tower(pin, 256 - p.slots[pin].depth)).slots[pin].depth == 0
  {
    var tower := Tower(pin, 256 - p.slots[pin].depth);
    TowerIs(p, pin, 256 - p.slots[pin].depth);
    DepthRestoredIff(p, tower, pin);
    var w := HandlersAreBracketed(p, tower, pin);
  }

  // ---- Each call on its own, in numbers -----------------------------------

  /** The modes of attachInterrupt: LOW 0, CHANGE 1, FALLING 2, RISING 3, ONLOW 4,
      ONHIGH 5, and 12 and 13, the last two with wake-up. */
  predicate MeansMode(t: Trigger, mode: int) {
    match t
    case Change => mode == 1
    case Falling => mode == 2
    case Rising => mode == 3
    case LevelLow => mode == 0 || mode == 4 || mode == 12
    case LevelHigh => mode == 5 || mode == 13
    case Unknown => mode < 0 || 5 < mode < 12 || mode > 13
    case TriggerNone => false
  }

  /** Attaching sets mode, trigger and handler and keeps the counts. */
  lemma AttachLeaves(p: Port, pin: int, handler: Option<Handler>, mode: int)
    requires Valid(p)
    ensures var c := Do(p, Attach(pin, handler, mode));
            if 0 <= pin < 256 && handler.Some? then
              var s, d := p.slots[pin], c.slots[pin];
              && d == Slot(true, mode, d.trigger, handler, s.fires, s.depth) && MeansMode(d.trigger, mode)
              && c == Port(p.slots[pin := d], p.log + [Attached(pin, d)])
            else c == p
  {
  }

  /** Detaching an attached pin blanks them and keeps the counts. */
  lemma DetachLeaves(p: Port, pin: int)
    requires Valid(p)
    ensures var c := Do(p, Detach(pin));
            if 0 <= pin < 256 && p.slots[pin].attached then
              var s, d := p.slots[pin], c.slots[pin];
              && d == Slot(false, 0, TriggerNone, None, s.fires, s.depth)
              && c == Port(p.slots[pin := d], p.log + [Detached(pin, d)])
            else c == p
  {
  }

  lemma ResetLeaves(p: Port)
    requires Valid(p)
    ensures var c := Do(p, Reset);
            && (forall i :: 0 <= i < 256 ==> c.slots[i] == Slot(false, 0, TriggerNone, None, 0, 0))
            && c.log == p.log + [WasReset]
  {
  }

  /** An attached pin, whatever its trigger: fires and depth go up by one, the handler
      that was registered is called, what it does is done to the port as it then is, and
      the depth of the pin as it left it goes down by one, at the very end of the log. */
  lemma FireLeaves(p: Port, pin: int, body: seq<Act>)
    requires Valid(p)
    ensures var c := Do(p, Fire(pin, body));
            if 0 <= pin < 256 && p.slots[pin].attached then
              var s, x := p.slots[pin], c.slots[pin];
              var e := s.(fires := (s.fires + 1) % 4294967296, depth := (s.depth + 1) % 256);
              var start := Port(p.slots[pin := e], p.log + [Enter(pin, e), Called(pin, s.handler.value)]);
              var end := DoAll(start, body);
              && x == end.slots[pin].(depth := x.depth)
              && (end.slots[pin].depth == 0 ==> x.depth == 0)
              && (end.slots[pin].depth > 0 ==> x.depth == end.slots[pin].depth - 1)
              && c == Port(end.slots[pin := x], end.log + [Exit(pin, x)])
              && start.log <= end.log
            else c == p
  {
    if 0 <= pin < 256 && p.slots[pin].attached {
      var s := p.slots[pin];
      var e := s.(fires := (s.fires + 1) % 4294967296, depth := (s.depth + 1) % 256);
      var start := Port(p.slots[pin := e], p.log + [Enter(pin, e), Called(pin, s.handler.value)]);
      assert DoEnter(p, pin) == start;
      var w := DoAllBehaves(start, body);
    }
  }

  /** A pin that is not attached is blank, one that is has a handler and the trigger of
      its mode. */
  predicate Consistent(s: Slot) {
    if s.attached then s.handler.Some? && MeansMode(s.trigger, s.mode)
    else s.mode == 0 && s.trigger == TriggerNone && s.handler == None
  }

  predicate AllConsistent(p: Port) { forall i :: 0 <= i < |p.slots| ==> Consistent(p.slots[i]) }

  lemma {:induction false} ActKeepsConsistent(p: Port, act: Act)
    requires Valid(p) && AllConsistent(p)
    ensures AllConsistent(Do(p, act))
    decreases act, 1
  {
    if act.Fire? && InRange(act.pin) && p.slots[act.pin].attached {
      RunKeepsConsistent(DoEnter(p, act.pin), act.body);
    }
  }

  /** Whatever handlers do, in whatever nesting. */
  lemma {:induction false} RunKeepsConsistent(p: Port, acts: seq<Act>)
    requires Valid(p) && AllConsistent(p)
    ensures AllConsistent(DoAll(p, acts))
    decreases acts, 0
  {
    if acts != [] {
      ActKeepsConsistent(p, acts[0]);
      RunKeepsConsistent(Do(p, acts[0]), acts[1..]);
    }
  }
}
