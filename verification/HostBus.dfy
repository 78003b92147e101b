/** Analog output: LEDC channels, PWM duty, DAC and tone, kept in one slot per pin.
    Which pin holds a channel is derived from the slots. Every change of a slot is
    reported to a hook, here one that only records. */
module HostBus {
  import opened Common

  const PINS: nat := 256
  const CHANNELS: nat := 16
  const NO_CHANNEL: nat := 0xFF
  const MAX_RESOLUTION: nat := 20

  type Pin = n: nat | n < PINS
  type Int32 = n: int | -0x8000_0000 <= n < 0x8000_0000

  datatype Slot = Slot(pin: int, channel: nat, duty: nat, frequency: nat, resolution: nat,
                       attached: bool, inverted: bool, dac: bool)

  function FreshSlot(pin: int): Slot { Slot(pin, NO_CHANNEL, 0, 0, 0, false, false, false) }

  type Slots = s: seq<Slot> | |s| == PINS witness seq(PINS, i => FreshSlot(i))

  datatype Kind = Attach | Write | Config | Tone | Detach | Dac

  datatype Event = Event(kind: Kind, slot: Slot)

  datatype Bus = Bus(slots: Slots, writeBits: nat, writeHz: nat, tonePin: int, log: seq<Event>)

  const RESET := Bus(seq(PINS, i => FreshSlot(i)), 8, 1000, -1, [])

  /** On an LEDC channel; a DAC pin is not. */
  predicate IsLedc(s: Slot) { s.attached && !s.dac }

  // --- the allocator -------------------------------------------------------

  /** The lowest pin at or above `from` that holds the channel, or -1. */
  function Owner(slots: Slots, channel: nat, from: nat): (owner: int)
    ensures -1 <= owner < PINS
    decreases PINS - from
  {
    if from >= PINS then -1
    else if IsLedc(slots[from]) && slots[from].channel == channel then from
    else Owner(slots, channel, from + 1)
  }

  /** The lowest channel at or above `from` that no pin holds, or -1. */
  function FirstFree(slots: Slots, from: nat): (channel: int)
    ensures -1 <= channel < CHANNELS
    decreases CHANNELS - from
  {
    if from >= CHANNELS then -1
    else if Owner(slots, from, 0) < 0 then from
    else FirstFree(slots, from + 1)
  }

  predicate Holds(slots: Slots, pin: nat, channel: nat)
    requires pin < PINS
  {
    IsLedc(slots[pin]) && slots[pin].channel == channel
  }

  predicate Owned(slots: Slots, channel: nat) {
    exists pin: nat :: pin < PINS && Holds(slots, pin, channel)
  }

  lemma {:induction false} OwnerIsLowest(slots: Slots, channel: nat, from: nat)
    ensures var o := Owner(slots, channel, from);
            && (forall pin :: from <= pin < (if o < 0 then PINS else o) ==> !Holds(slots, pin, channel))
            && (o >= 0 ==> from <= o && Holds(slots, o, channel))
    decreases PINS - from
  {
    if from < PINS && !Holds(slots, from, channel) {
      OwnerIsLowest(slots, channel, from + 1);
    }
  }

  lemma OwnedIffOwner(slots: Slots, channel: nat)
    ensures Owned(slots, channel) <==> Owner(slots, channel, 0) >= 0
  {
    OwnerIsLowest(slots, channel, 0);
    if Owner(slots, channel, 0) >= 0 {
      assert Holds(slots, Owner(slots, channel, 0), channel);
    }
  }

  lemma {:induction false} FirstFreeIsLowest(slots: Slots, from: nat)
    ensures var c := FirstFree(slots, from);
            && (forall i: nat :: from <= i < (if c < 0 then CHANNELS else c) ==> Owned(slots, i))
            && (c >= 0 ==> from <= c && !Owned(slots, c))
    decreases CHANNELS - from
  {
    if from < CHANNELS {
      OwnedIffOwner(slots, from);
      if Owner(slots, from, 0) >= 0 {
        FirstFreeIsLowest(slots, from + 1);
      }
    }
  }

  // --- what each call does -------------------------------------------------

  /** A slot is changed and reported. */
  function Put(b: Bus, pin: Pin, slot: Slot, kind: Kind): Bus {
    b.(slots := b.slots[pin := slot], log := b.log + [Event(kind, slot)])
  }

  predicate CanAttach(b: Bus, pin: Pin, freq: nat, resolution: nat, channel: nat) {
    channel < CHANNELS && freq != 0 && 0 < resolution <= MAX_RESOLUTION && !IsLedc(b.slots[pin])
  }

  /** A channel that already carries a pin imposes its own settings. */
  function AttachChannel(b: Bus, pin: Pin, freq: nat, resolution: nat, channel: nat): Bus {
    if CanAttach(b, pin, freq, resolution, channel) then
      var sharing := Owner(b.slots, channel, 0);
      Put(b, pin, b.slots[pin].(channel := channel,
                                frequency := if sharing >= 0 then b.slots[sharing].frequency else freq,
                                resolution := if sharing >= 0 then b.slots[sharing].resolution else resolution,
                                attached := true, dac := false), Attach)
    else b
  }

  predicate CanAttachFree(b: Bus, pin: Pin, freq: nat, resolution: nat) {
    FirstFree(b.slots, 0) >= 0 && CanAttach(b, pin, freq, resolution, FirstFree(b.slots, 0))
  }

  function AttachFree(b: Bus, pin: Pin, freq: nat, resolution: nat): Bus {
    if FirstFree(b.slots, 0) < 0 then b else AttachChannel(b, pin, freq, resolution, FirstFree(b.slots, 0))
  }

  function Pow2(n: nat): (p: nat)
    ensures p > 0
  {
    if n == 0 then 1 else 2 * Pow2(n - 1)
  }

  /** Full scale is bumped one past the maximum, except at one bit. */
  function ClampDuty(duty: nat, resolution: nat): nat {
    if duty >= Pow2(resolution) - 1 && Pow2(resolution) - 1 != 1 then Pow2(resolution) else duty
  }

  function WriteDuty(b: Bus, pin: Pin, duty: nat): Bus {
    if IsLedc(b.slots[pin]) then
      Put(b, pin, b.slots[pin].(duty := ClampDuty(duty, b.slots[pin].resolution)), Write)
    else b
  }

  /** Every pin from `from` on that holds the channel is written, in order. */
  function WriteChannelFrom(b: Bus, channel: nat, duty: nat, from: nat): Bus
    decreases PINS - from
  {
    if from >= PINS then b
    else
      WriteChannelFrom(if Holds(b.slots, from, channel) then WriteDuty(b, from, duty) else b, channel, duty, from + 1)
  }

  function WriteTone(b: Bus, pin: Pin, freq: nat): Bus {
    if !IsLedc(b.slots[pin]) then b
    else if freq == 0 then WriteDuty(b, pin, 0)
    else Put(b, pin, b.slots[pin].(frequency := freq, resolution := 10, duty := 0x1FF), Tone)
  }

  /** x divided by 1 << n. */
  function ShiftedDown(x: nat, n: nat): (q: nat)
    ensures q <= x && (Pow2(n) <= x ==> q > 0)
  {
    if n == 0 then x else ShiftedDown(x / 2, n - 1)
  }

  const OCTAVE_EIGHT: seq<nat> := [4186, 4435, 4699, 4978, 5274, 5588, 5920, 6272, 6645, 7040, 7459, 7902]

  predicate IsNote(note: nat, octave: nat) { octave <= 8 && note < 12 }

  function NoteFrequency(note: nat, octave: nat): nat
    requires IsNote(note, octave)
  {
    ShiftedDown(OCTAVE_EIGHT[note], 8 - octave)
  }

  function DetachPin(b: Bus, pin: Pin): Bus {
    if IsLedc(b.slots[pin]) then
      Put(b, pin, b.slots[pin].(attached := false, channel := NO_CHANNEL, duty := 0, inverted := false), Detach)
    else b
  }

  predicate CanRetune(b: Bus, pin: Pin, freq: nat, resolution: nat) {
    IsLedc(b.slots[pin]) && freq != 0 && 0 < resolution <= MAX_RESOLUTION
  }

  function Retune(b: Bus, pin: Pin, freq: nat, resolution: nat): Bus {
    if CanRetune(b, pin, freq, resolution) then
      Put(b, pin, b.slots[pin].(frequency := freq, resolution := resolution), Config)
    else b
  }

  function Invert(b: Bus, pin: Pin, inverted: bool): Bus {
    if IsLedc(b.slots[pin]) then Put(b, pin, b.slots[pin].(inverted := inverted), Config) else b
  }

  /** A fade lands at once: both ends are written. */
  function Fade(b: Bus, pin: Pin, start: nat, target: nat): Bus {
    WriteDuty(WriteDuty(b, pin, start), pin, target)
  }

  /** static_cast<uint32_t>(int) */
  function AsUnsigned(value: Int32): Word { if value < 0 then value + UINT32 else value }

  /** The first write to a pin attaches it with the defaults. */
  function PwmWrite(b: Bus, pin: Pin, value: Int32): Bus {
    WriteDuty(if IsLedc(b.slots[pin]) then b else AttachFree(b, pin, b.writeHz, b.writeBits), pin, AsUnsigned(value))
  }

  /** An attached pin is retuned with the other default; a refusal keeps the old one. */
  function PwmFrequency(b: Bus, pin: Pin, freq: nat): Bus {
    if IsLedc(b.slots[pin]) && !CanRetune(b, pin, freq, b.writeBits) then b
    else Retune(b, pin, freq, b.writeBits).(writeHz := freq)
  }

  function PwmResolution(b: Bus, pin: Pin, bits: nat): Bus {
    if IsLedc(b.slots[pin]) && !CanRetune(b, pin, b.writeHz, bits) then b
    else Retune(b, pin, b.writeHz, bits).(writeBits := bits)
  }

  function DacWrite(b: Bus, pin: Pin, value: nat): Bus {
    Put(b, pin, b.slots[pin].(channel := NO_CHANNEL, frequency := 0, resolution := 8, duty := value,
                              attached := true, dac := true), Dac)
  }

  function DacDisable(b: Bus, pin: Pin): Bus {
    if b.slots[pin].dac then Put(b, pin, b.slots[pin].(attached := false, dac := false, duty := 0), Detach) else b
  }

  /** One tone at a time; a note with a duration is followed by its silence. */
  function PlayTone(b: Bus, pin: Pin, freq: nat, timed: bool): Bus {
    if b.tonePin >= 0 && b.tonePin != pin then b
    else if b.tonePin < 0 && !CanAttachFree(b, pin, freq, 10) then b
    else
      var started := if b.tonePin < 0 then AttachFree(b, pin, freq, 10).(tonePin := pin) else b;
      var playing := WriteTone(started, pin, freq);
      if timed then WriteTone(playing, pin, 0) else playing
  }

  function StopTone(b: Bus, pin: Pin): Bus {
    if b.tonePin != pin then b else DetachPin(WriteTone(b, pin, 0), pin).(tonePin := -1)
  }

  datatype Op =
    | LedcAttach(pin: Pin, freq: Word, resolution: Octet)
    | LedcAttachChannel(pin: Pin, freq: Word, resolution: Octet, channel: Octet)
    | LedcWrite(pin: Pin, duty: Word)
    | LedcWriteChannel(channel: Octet, duty: Word)
    | LedcWriteTone(pin: Pin, freq: Word)
    | LedcWriteNote(pin: Pin, note: nat, octave: Octet)
    | LedcDetach(pin: Pin)
    | LedcChangeFrequency(pin: Pin, freq: Word, resolution: Octet)
    | LedcOutputInvert(pin: Pin, invert: bool)
    | LedcFade(pin: Pin, start: Word, target: Word)
    | AnalogWrite(pin: Pin, value: Int32)
    | AnalogWriteFrequency(pin: Pin, freq: Word)
    | AnalogWriteResolution(pin: Pin, resolution: Octet)
    | DefaultFrequency(freq: Word)
    | DefaultResolution(resolution: Octet)
    | DacOutput(pin: Pin, level: Octet)
    | DacOff(pin: Pin)
    | StartTone(pin: Pin, freq: Word, timed: bool)
    | EndTone(pin: Pin)

  function Do(b: Bus, op: Op): Bus {
    match op
    case LedcAttach(pin, freq, resolution) => AttachFree(b, pin, freq, resolution)
    case LedcAttachChannel(pin, freq, resolution, channel) => AttachChannel(b, pin, freq, resolution, channel)
    case LedcWrite(pin, duty) => WriteDuty(b, pin, duty)
    case LedcWriteChannel(channel, duty) => if channel >= CHANNELS then b else WriteChannelFrom(b, channel, duty, 0)
    case LedcWriteTone(pin, freq) => WriteTone(b, pin, freq)
    case LedcWriteNote(pin, note, octave) =>
      if IsNote(note, octave) then WriteTone(b, pin, NoteFrequency(note, octave)) else b
    case LedcDetach(pin) => DetachPin(b, pin)
    case LedcChangeFrequency(pin, freq, resolution) => Retune(b, pin, freq, resolution)
    case LedcOutputInvert(pin, invert) => Invert(b, pin, invert)
    case LedcFade(pin, start, target) => Fade(b, pin, start, target)
    case AnalogWrite(pin, value) => PwmWrite(b, pin, value)
    case AnalogWriteFrequency(pin, freq) => PwmFrequency(b, pin, freq)
    case AnalogWriteResolution(pin, resolution) => PwmResolution(b, pin, resolution)
    case DefaultFrequency(freq) => b.(writeHz := freq)
    case DefaultResolution(resolution) => b.(writeBits := resolution)
    case DacOutput(pin, level) => DacWrite(b, pin, level)
    case DacOff(pin) => DacDisable(b, pin)
    case StartTone(pin, freq, timed) => PlayTone(b, pin, freq, timed)
    case EndTone(pin) => StopTone(b, pin)
  }

  function DoAll(b: Bus, ops: seq<Op>): Bus {
    if ops == [] then b else Do(DoAll(b, ops[..|ops| - 1]), ops[|ops| - 1])
  }

  // --- replay --------------------------------------------------------------

  /** What someone who only reads the log believes of a pin. */
  function Replayed(log: seq<Event>, pin: int): Slot {
    if log == [] then FreshSlot(pin)
    else if log[|log| - 1].slot.pin == pin then log[|log| - 1].slot
    else Replayed(log[..|log| - 1], pin)
  }

  predicate SlotSound(s: Slot, pin: int) {
    && s.pin == pin
    && if IsLedc(s) then s.channel < CHANNELS && s.frequency > 0 && 1 <= s.resolution <= MAX_RESOLUTION
       else s.channel == NO_CHANNEL
  }

  predicate Sound(b: Bus) {
    && (forall pin :: 0 <= pin < PINS ==> SlotSound(b.slots[pin], pin))
    && (forall pin :: 0 <= pin < PINS ==> b.slots[pin] == Replayed(b.log, pin))
  }

  /** No two pins on one channel. */
  predicate Distinct(slots: Slots) {
    forall p, q :: 0 <= p < q < PINS && IsLedc(slots[p]) && IsLedc(slots[q]) ==> slots[p].channel != slots[q].channel
  }

  /** From one bus to a later one: sound again, the log only longer. */
  predicate Follows(b: Bus, c: Bus) { Sound(c) && b.log <= c.log }

  lemma PutFollows(b: Bus, pin: Pin, slot: Slot, kind: Kind)
    requires Sound(b) && SlotSound(slot, pin)
    ensures Follows(b, Put(b, pin, slot, kind))
    ensures Distinct(b.slots) && (IsLedc(slot) ==> IsLedc(b.slots[pin]) && slot.channel == b.slots[pin].channel)
            ==> Distinct(Put(b, pin, slot, kind).slots)
  {
    var c := Put(b, pin, slot, kind);
    assert c.log[..|c.log| - 1] == b.log;
    forall p | 0 <= p < PINS ensures c.slots[p] == Replayed(c.log, p) {
      assert Replayed(c.log, p) == if slot.pin == p then slot else Replayed(b.log, p);
    }
  }

  lemma AttachFollows(b: Bus, pin: Pin, freq: nat, resolution: nat, channel: nat)
    requires Sound(b)
    ensures Follows(b, AttachChannel(b, pin, freq, resolution, channel))
  {
    if CanAttach(b, pin, freq, resolution, channel) {
      OwnerIsLowest(b.slots, channel, 0);
      PutFollows(b, pin, AttachChannel(b, pin, freq, resolution, channel).slots[pin], Attach);
    }
  }

  lemma AttachKeepsDistinct(b: Bus, pin: Pin, freq: nat, resolution: nat, channel: nat)
    requires Distinct(b.slots) && !Owned(b.slots, channel)
    ensures Distinct(AttachChannel(b, pin, freq, resolution, channel).slots)
  {
    var c := AttachChannel(b, pin, freq, resolution, channel);
    forall p | 0 <= p < PINS && p != pin && IsLedc(c.slots[p])
      ensures c.slots[p] == b.slots[p] && c.slots[p].channel != channel
    {
      assert !Holds(b.slots, p, channel);
    }
  }

  lemma AttachFreeFollows(b: Bus, pin: Pin, freq: nat, resolution: nat)
    requires Sound(b)
    ensures Follows(b, AttachFree(b, pin, freq, resolution))
    ensures Distinct(b.slots) ==> Distinct(AttachFree(b, pin, freq, resolution).slots)
  {
    FirstFreeIsLowest(b.slots, 0);
    if FirstFree(b.slots, 0) >= 0 {
      AttachFollows(b, pin, freq, resolution, FirstFree(b.slots, 0));
      if Distinct(b.slots) {
        AttachKeepsDistinct(b, pin, freq, resolution, FirstFree(b.slots, 0));
      }
    }
  }

  lemma WriteFollows(b: Bus, pin: Pin, duty: nat)
    requires Sound(b)
    ensures Follows(b, WriteDuty(b, pin, duty))
    ensures Distinct(b.slots) ==> Distinct(WriteDuty(b, pin, duty).slots)
  {
    if IsLedc(b.slots[pin]) {
      PutFollows(b, pin, WriteDuty(b, pin, duty).slots[pin], Write);
    }
  }

  lemma {:induction false} WriteChannelFollows(b: Bus, channel: nat, duty: nat, from: nat)
    requires Sound(b)
    ensures Follows(b, WriteChannelFrom(b, channel, duty, from))
    ensures Distinct(b.slots) ==> Distinct(WriteChannelFrom(b, channel, duty, from).slots)
    decreases PINS - from
  {
    if from < PINS {
      if Holds(b.slots, from, channel) {
        WriteFollows(b, from, duty);
        WriteChannelFollows(WriteDuty(b, from, duty), channel, duty, from + 1);
      } else {
        WriteChannelFollows(b, channel, duty, from + 1);
      }
    }
  }

  lemma ToneFollows(b: Bus, pin: Pin, freq: nat)
    requires Sound(b)
    ensures Follows(b, WriteTone(b, pin, freq))
    ensures Distinct(b.slots) ==> Distinct(WriteTone(b, pin, freq).slots)
  {
    WriteFollows(b, pin, 0);
    if IsLedc(b.slots[pin]) && freq != 0 {
      PutFollows(b, pin, WriteTone(b, pin, freq).slots[pin], Tone);
    }
  }

  lemma DetachFollows(b: Bus, pin: Pin)
    requires Sound(b)
    ensures Follows(b, DetachPin(b, pin))
    ensures Distinct(b.slots) ==> Distinct(DetachPin(b, pin).slots)
  {
    if IsLedc(b.slots[pin]) {
      PutFollows(b, pin, DetachPin(b, pin).slots[pin], Detach);
    }
  }

  lemma RetuneFollows(b: Bus, pin: Pin, freq: nat, resolution: nat)
    requires Sound(b)
    ensures Follows(b, Retune(b, pin, freq, resolution))
    ensures Distinct(b.slots) ==> Distinct(Retune(b, pin, freq, resolution).slots)
  {
    if CanRetune(b, pin, freq, resolution) {
      PutFollows(b, pin, Retune(b, pin, freq, resolution).slots[pin], Config);
    }
  }

  lemma InvertFollows(b: Bus, pin: Pin, inverted: bool)
    requires Sound(b)
    ensures Follows(b, Invert(b, pin, inverted))
    ensures Distinct(b.slots) ==> Distinct(Invert(b, pin, inverted).slots)
  {
    if IsLedc(b.slots[pin]) {
      PutFollows(b, pin, Invert(b, pin, inverted).slots[pin], Config);
    }
  }

  lemma DacFollows(b: Bus, pin: Pin, level: nat)
    requires Sound(b)
    ensures Follows(b, DacWrite(b, pin, level)) && Follows(b, DacDisable(b, pin))
    ensures Distinct(b.slots) ==> Distinct(DacWrite(b, pin, level).slots) && Distinct(DacDisable(b, pin).slots)
  {
    PutFollows(b, pin, DacWrite(b, pin, level).slots[pin], Dac);
    if b.slots[pin].dac {
      PutFollows(b, pin, DacDisable(b, pin).slots[pin], Detach);
    }
  }

  lemma PlayToneFollows(b: Bus, pin: Pin, freq: nat, timed: bool)
    requires Sound(b)
    ensures Follows(b, PlayTone(b, pin, freq, timed))
    ensures Distinct(b.slots) ==> Distinct(PlayTone(b, pin, freq, timed).slots)
  {
    AttachFreeFollows(b, pin, freq, 10);
    var started := if b.tonePin < 0 then AttachFree(b, pin, freq, 10).(tonePin := pin) else b;
    ToneFollows(started, pin, freq);
    ToneFollows(WriteTone(started, pin, freq), pin, 0);
  }

  lemma StopToneFollows(b: Bus, pin: Pin)
    requires Sound(b)
    ensures Follows(b, StopTone(b, pin))
    ensures Distinct(b.slots) ==> Distinct(StopTone(b, pin).slots)
  {
    ToneFollows(b, pin, 0);
    DetachFollows(WriteTone(b, pin, 0), pin);
  }

  /** Which calls answer at all; the others are void or always true. */
  predicate Answers(op: Op) {
    !op.AnalogWrite? && !op.AnalogWriteFrequency? && !op.AnalogWriteResolution? && !op.DefaultFrequency?
    && !op.DefaultResolution? && !op.DacOutput? && !op.StartTone? && !op.EndTone?
  }

  lemma LedcFollows(b: Bus, op: Op)
    requires Sound(b) && Answers(op)
    ensures Follows(b, Do(b, op))
    ensures Distinct(b.slots) && !op.LedcAttachChannel? ==> Distinct(Do(b, op).slots)
  {
    match op
    case LedcAttach(pin, freq, resolution) => AttachFreeFollows(b, pin, freq, resolution);
    case LedcAttachChannel(pin, freq, resolution, channel) => AttachFollows(b, pin, freq, resolution, channel);
    case LedcWrite(pin, duty) => WriteFollows(b, pin, duty);
    case LedcWriteChannel(channel, duty) => WriteChannelFollows(b, channel, duty, 0);
    case LedcWriteTone(pin, freq) => ToneFollows(b, pin, freq);
    case LedcWriteNote(pin, note, octave) =>
      if IsNote(note, octave) { ToneFollows(b, pin, NoteFrequency(note, octave)); }
    case LedcDetach(pin) => DetachFollows(b, pin);
    case LedcChangeFrequency(pin, freq, resolution) => RetuneFollows(b, pin, freq, resolution);
    case LedcOutputInvert(pin, invert) => InvertFollows(b, pin, invert);
    case LedcFade(pin, start, target) =>
      WriteFollows(b, pin, start);
      WriteFollows(WriteDuty(b, pin, start), pin, target);
    case DacOff(pin) => DacFollows(b, pin, 0);
  }

  lemma OthersFollow(b: Bus, op: Op)
    requires Sound(b) && !Answers(op)
    ensures Follows(b, Do(b, op))
    ensures Distinct(b.slots) ==> Distinct(Do(b, op).slots)
  {
    match op
    case AnalogWrite(pin, value) =>
      AttachFreeFollows(b, pin, b.writeHz, b.writeBits);
      WriteFollows(if IsLedc(b.slots[pin]) then b else AttachFree(b, pin, b.writeHz, b.writeBits), pin, AsUnsigned(value));
    case AnalogWriteFrequency(pin, freq) => RetuneFollows(b, pin, freq, b.writeBits);
    case AnalogWriteResolution(pin, resolution) => RetuneFollows(b, pin, b.writeHz, resolution);
    case DefaultFrequency(freq) =>
    case DefaultResolution(resolution) =>
    case DacOutput(pin, level) => DacFollows(b, pin, level);
    case StartTone(pin, freq, timed) => PlayToneFollows(b, pin, freq, timed);
    case EndTone(pin) => StopToneFollows(b, pin);
  }

  lemma StepFollows(b: Bus, op: Op)
    requires Sound(b)
    ensures Follows(b, Do(b, op))
    ensures Distinct(b.slots) && !op.LedcAttachChannel? ==> Distinct(Do(b, op).slots)
  {
    if Answers(op) {
      LedcFollows(b, op);
    } else {
      OthersFollow(b, op);
    }
  }

  /** After any calls from reset: the log's last word on each pin is its slot, a pin
      never reported is as reset left it, and the slots are well formed. */
  lemma {:induction false} ReplayAgrees(ops: seq<Op>)
    ensures Sound(DoAll(RESET, ops))
  {
    if ops != [] {
      ReplayAgrees(ops[..|ops| - 1]);
      StepFollows(DoAll(RESET, ops[..|ops| - 1]), ops[|ops| - 1]);
    }
  }

  lemma {:induction false} ReplayOfLonger(log: seq<Event>, more: seq<Event>, pin: int)
    requires forall e :: e in more ==> e.slot.pin != pin
    ensures Replayed(log + more, pin) == Replayed(log, pin)
  {
    if more == [] {
      assert log + more == log;
    } else {
      assert (log + more)[..|log + more| - 1] == log + more[..|more| - 1];
      ReplayOfLonger(log, more[..|more| - 1], pin);
    }
  }

  lemma LogExplains(b: Bus, c: Bus, pin: Pin)
    requires Sound(b) && Follows(b, c)
    requires forall i :: |b.log| <= i < |c.log| ==> c.log[i].slot.pin != pin
    ensures c.slots[pin] == b.slots[pin]
  {
    var more := c.log[|b.log|..];
    assert c.log == b.log + more;
    ReplayOfLonger(b.log, more, pin);
  }

  /** A call changes no pin that it does not report; one that reports nothing, none. */
  lemma UnreportedIsUnchanged(b: Bus, op: Op, pin: Pin)
    requires Sound(b)
    requires forall i :: |b.log| <= i < |Do(b, op).log| ==> Do(b, op).log[i].slot.pin != pin
    ensures b.log <= Do(b, op).log && Do(b, op).slots[pin] == b.slots[pin]
  {
    StepFollows(b, op);
    LogExplains(b, Do(b, op), pin);
  }

  // --- refusals ------------------------------------------------------------

  /** What a call returns: 1 and 0 for true and false, 1 where it is void. */
  function Answer(b: Bus, op: Op): nat {
    match op
    case LedcAttach(pin, freq, resolution) => if CanAttachFree(b, pin, freq, resolution) then 1 else 0
    case LedcAttachChannel(pin, freq, resolution, channel) =>
      if CanAttach(b, pin, freq, resolution, channel) then 1 else 0
    case LedcWriteChannel(channel, duty) => if channel < CHANNELS && Owner(b.slots, channel, 0) >= 0 then 1 else 0
    case LedcWriteTone(pin, freq) => if IsLedc(b.slots[pin]) then freq else 0
    case LedcWriteNote(pin, note, octave) =>
      if IsNote(note, octave) && IsLedc(b.slots[pin]) then NoteFrequency(note, octave) else 0
    case LedcChangeFrequency(pin, freq, resolution) => if CanRetune(b, pin, freq, resolution) then freq else 0
    case LedcWrite(pin, _) => if IsLedc(b.slots[pin]) then 1 else 0
    case LedcDetach(pin) => if IsLedc(b.slots[pin]) then 1 else 0
    case LedcOutputInvert(pin, _) => if IsLedc(b.slots[pin]) then 1 else 0
    case LedcFade(pin, _, _) => if IsLedc(b.slots[pin]) then 1 else 0
    case DacOff(pin) => if b.slots[pin].dac then 1 else 0
    case _ => 1
  }

  lemma {:induction false} WriteChannelReports(b: Bus, channel: nat, duty: nat, from: nat)
    ensures Owner(b.slots, channel, from) < 0 ==> WriteChannelFrom(b, channel, duty, from) == b
    ensures |WriteChannelFrom(b, channel, duty, from).log| >= |b.log|
    ensures Owner(b.slots, channel, from) >= 0 ==> |WriteChannelFrom(b, channel, duty, from).log| > |b.log|
    decreases PINS - from
  {
    if from < PINS {
      if Holds(b.slots, from, channel) {
        WriteChannelReports(WriteDuty(b, from, duty), channel, duty, from + 1);
      } else {
        WriteChannelReports(b, channel, duty, from + 1);
      }
    }
  }

  lemma NotesSound(note: nat, octave: nat)
    requires IsNote(note, octave)
    ensures 0 < NoteFrequency(note, octave) < UINT32
  {
    var e: nat := 8 - octave;
    assert Pow2(0) == 1 && Pow2(1) == 2 && Pow2(2) == 4 && Pow2(3) == 8 && Pow2(4) == 16;
    assert Pow2(5) == 32 && Pow2(6) == 64 && Pow2(7) == 128 && Pow2(8) == 256;
    assert 1 <= Pow2(e) <= 256;
    assert 4186 <= OCTAVE_EIGHT[note] <= 7902;
  }

  /** A call that answers no has no effect and reports nothing, a call that
      answers yes reports; the one exception is a tone of frequency 0, which
      silences an attached pin and still answers 0. */
  lemma RefusedIffSilent(b: Bus, op: Op)
    requires Answers(op)
    ensures (op.LedcWriteTone? && op.freq == 0 && IsLedc(b.slots[op.pin]))
            <==> (Answer(b, op) == 0 && |Do(b, op).log| > |b.log|)
    ensures Answer(b, op) == 0 && |Do(b, op).log| == |b.log| ==> Do(b, op) == b
    ensures Answer(b, op) > 0 ==> |Do(b, op).log| > |b.log|
  {
    match op
    case LedcWriteChannel(channel, duty) => WriteChannelReports(b, channel, duty, 0);
    case LedcWriteNote(pin, note, octave) => if IsNote(note, octave) { NotesSound(note, octave); }
    case _ =>
  }

  // --- allocation ----------------------------------------------------------

  /** ledcAttach takes the lowest channel nobody holds; a valid request for a pin
      not on LEDC fails exactly when all sixteen are held. */
  lemma AttachTakesLowest(b: Bus, pin: Pin, freq: Word, resolution: Octet)
    requires freq > 0 && 1 <= resolution <= MAX_RESOLUTION && !IsLedc(b.slots[pin])
    ensures Answer(b, LedcAttach(pin, freq, resolution)) == 0
            <==> forall c: nat :: c < CHANNELS ==> Owned(b.slots, c)
    ensures Answer(b, LedcAttach(pin, freq, resolution)) == 1 ==>
              var s := Do(b, LedcAttach(pin, freq, resolution)).slots[pin];
              && IsLedc(s) && s.frequency == freq && s.resolution == resolution
              && s.channel < CHANNELS && !Owned(b.slots, s.channel)
              && forall c: nat :: c < s.channel ==> Owned(b.slots, c)
  {
    FirstFreeIsLowest(b.slots, 0);
    if FirstFree(b.slots, 0) >= 0 {
      OwnedIffOwner(b.slots, FirstFree(b.slots, 0));
    }
  }

  /** A pin joining a held channel gets the settings of the lowest pin on it. */
  lemma SharingAdopts(b: Bus, pin: Pin, freq: Word, resolution: Octet, channel: Octet, owner: Pin)
    requires CanAttach(b, pin, freq, resolution, channel) && Holds(b.slots, owner, channel)
    requires forall p :: 0 <= p < owner ==> !Holds(b.slots, p, channel)
    ensures var s := Do(b, LedcAttachChannel(pin, freq, resolution, channel)).slots[pin];
            && Holds(Do(b, LedcAttachChannel(pin, freq, resolution, channel)).slots, pin, channel)
            && s.frequency == b.slots[owner].frequency && s.resolution == b.slots[owner].resolution
  {
    OwnerIsLowest(b.slots, channel, 0);
  }

  predicate NeverShares(ops: seq<Op>) { forall op :: op in ops ==> !op.LedcAttachChannel? }

  lemma {:induction false} ChannelsAreDistinct(ops: seq<Op>)
    requires NeverShares(ops)
    ensures Distinct(DoAll(RESET, ops).slots)
  {
    if ops != [] {
      var before := ops[..|ops| - 1];
      ChannelsAreDistinct(before);
      ReplayAgrees(before);
      StepFollows(DoAll(RESET, before), ops[|ops| - 1]);
    }
  }

  function AttachedPins(slots: Slots): set<nat> { set pin: nat | pin < PINS && IsLedc(slots[pin]) }

  lemma {:induction false} SizeOfRange(s: set<nat>, n: nat)
    requires forall c :: c in s ==> c < n
    ensures |s| <= n
  {
    if n == 0 {
      assert s == {};
    } else {
      SizeOfRange(s - {n - 1}, n - 1);
    }
  }

  /** Distinct labels below n leave room for n pins. */
  lemma {:induction false} Pigeonhole(slots: Slots, pins: set<nat>, channels: set<nat>)
    requires Distinct(slots)
    requires forall p :: p in pins ==> p < PINS && IsLedc(slots[p]) && slots[p].channel in channels
    ensures |pins| <= |channels|
  {
    if pins != {} {
      var p :| p in pins;
      forall q | q in pins - {p} ensures slots[q].channel in channels - {slots[p].channel} {
        assert q < p || p < q;
      }
      Pigeonhole(slots, pins - {p}, channels - {slots[p].channel});
    }
  }

  /** Without sharing at most sixteen pins are ever attached. */
  lemma AtMostSixteen(ops: seq<Op>)
    requires NeverShares(ops)
    ensures |AttachedPins(DoAll(RESET, ops).slots)| <= CHANNELS
  {
    var b := DoAll(RESET, ops);
    ChannelsAreDistinct(ops);
    ReplayAgrees(ops);
    var channels := set p | p in AttachedPins(b.slots) :: b.slots[p].channel;
    forall p | p in AttachedPins(b.slots) ensures b.slots[p].channel < CHANNELS {
      assert SlotSound(b.slots[p], p);
    }
    SizeOfRange(channels, CHANNELS);
    Pigeonhole(b.slots, AttachedPins(b.slots), channels);
  }

  /** The hypothesis is needed, and nothing else is: ledcAttachChannel puts two pins
      on one channel exactly when it is accepted for a channel that is held. */
  lemma SharingIffHeld(b: Bus, pin: Pin, freq: Word, resolution: Octet, channel: Octet)
    requires Distinct(b.slots)
    ensures Distinct(Do(b, LedcAttachChannel(pin, freq, resolution, channel)).slots)
            <==> !(CanAttach(b, pin, freq, resolution, channel) && Owned(b.slots, channel))
  {
    if CanAttach(b, pin, freq, resolution, channel) && Owned(b.slots, channel) {
      var owner: nat :| owner < PINS && Holds(b.slots, owner, channel);
      var c := AttachChannel(b, pin, freq, resolution, channel).slots;
      assert c[owner].channel == c[pin].channel && IsLedc(c[owner]) && IsLedc(c[pin]);
      assert owner < pin || pin < owner;
    } else if CanAttach(b, pin, freq, resolution, channel) {
      AttachKeepsDistinct(b, pin, freq, resolution, channel);
    }
  }

  // --- tone and noTone -----------------------------------------------------

  /** Slots that differ at one pin only, on LEDC in neither, own the same channels. */
  lemma OwnedElsewhere(s: Slots, t: Slots, pin: Pin, channel: nat)
    requires !IsLedc(s[pin]) && !IsLedc(t[pin]) && forall p :: 0 <= p < PINS && p != pin ==> s[p] == t[p]
    ensures Owned(s, channel) ==> Owned(t, channel)
  {
    if Owned(s, channel) {
      var p: nat :| p < PINS && Holds(s, p, channel);
      assert Holds(t, p, channel);
    }
  }

  /** A pin on LEDC at 10 bits: half duty while the tone sounds, none once its time
      is up, which is at once. */
  predicate Playing(s: Slot, freq: nat, timed: bool) {
    IsLedc(s) && s.frequency == freq && s.resolution == 10 && s.duty == if timed then 0 else 0x1FF
  }

  lemma SilenceIsZero()
    ensures ClampDuty(0, 10) == 0
  {
    assert Pow2(5) == 32 && Pow2(6) == 64 && Pow2(7) == 128 && Pow2(8) == 256 && Pow2(9) == 512;
  }

  /** How a tone on a free pin begins, in state and log. */
  predicate Started(b: Bus, c: Bus, pin: Pin, freq: nat, timed: bool) {
    && c.tonePin == pin && Playing(c.slots[pin], freq, timed)
    && (forall p :: 0 <= p < PINS && p != pin ==> c.slots[p] == b.slots[p])
    && b.log <= c.log && |c.log| == |b.log| + (if timed then 3 else 2)
    && c.log[|b.log|].kind == Attach
    && c.log[|b.log| + 1].kind == Tone && Playing(c.log[|b.log| + 1].slot, freq, false)
    && (timed ==> c.log[|b.log| + 2] == Event(Write, c.slots[pin]))
  }

  /** How it ends: silence, then detach. */
  predicate Ended(c: Bus, d: Bus, pin: Pin) {
    && d.tonePin == -1 && !IsLedc(d.slots[pin])
    && (forall p :: 0 <= p < PINS && p != pin ==> d.slots[p] == c.slots[p])
    && c.log <= d.log && |d.log| == |c.log| + 2
    && d.log[|c.log|] == Event(Write, c.slots[pin].(duty := 0))
    && d.log[|c.log| + 1] == Event(Detach, d.slots[pin])
  }

  lemma ToneStarts(b: Bus, pin: Pin, freq: Word, timed: bool)
    requires b.tonePin < 0 && CanAttachFree(b, pin, freq, 10)
    ensures Started(b, Do(b, StartTone(pin, freq, timed)), pin, freq, timed)
  {
    SilenceIsZero();
  }

  lemma ToneStops(c: Bus, pin: Pin, freq: nat, timed: bool)
    requires c.tonePin == pin && Playing(c.slots[pin], freq, timed)
    ensures Ended(c, Do(c, EndTone(pin)), pin)
  {
    SilenceIsZero();
  }

  /** Back to where it was: the pin off LEDC, no other pin moved, every channel owned
      or free as before; the log shows attach, tone, the silence of a timed note,
      silence and detach. */
  predicate Undone(b: Bus, d: Bus, pin: Pin, freq: nat, timed: bool) {
    var n := |d.log|;
    && d.tonePin == -1 && !IsLedc(d.slots[pin])
    && (forall p :: 0 <= p < PINS && p != pin ==> d.slots[p] == b.slots[p])
    && b.log <= d.log && n == |b.log| + (if timed then 5 else 4)
    && d.log[|b.log|].kind == Attach
    && d.log[|b.log| + 1].kind == Tone && Playing(d.log[|b.log| + 1].slot, freq, false)
    && (forall i :: |b.log| + 2 <= i < n - 1 ==> d.log[i].kind == Write && d.log[i].slot.duty == 0)
    && d.log[n - 1] == Event(Detach, d.slots[pin])
  }

  lemma StartedThenEnded(b: Bus, c: Bus, d: Bus, pin: Pin, freq: nat, timed: bool)
    requires Started(b, c, pin, freq, timed) && Ended(c, d, pin)
    ensures Undone(b, d, pin, freq, timed)
  {
    assert forall i :: 0 <= i < |c.log| ==> d.log[i] == c.log[i];
  }

  /** noTone undoes tone, for every pin that could be attached. */
  lemma NoToneUndoesTone(b: Bus, pin: Pin, freq: Word, timed: bool)
    requires b.tonePin < 0 && CanAttachFree(b, pin, freq, 10)
    ensures Undone(b, Do(Do(b, StartTone(pin, freq, timed)), EndTone(pin)), pin, freq, timed)
    ensures forall channel: nat ::
              Owned(Do(Do(b, StartTone(pin, freq, timed)), EndTone(pin)).slots, channel) <==> Owned(b.slots, channel)
  {
    var c := Do(b, StartTone(pin, freq, timed));
    var d := Do(c, EndTone(pin));
    ToneStarts(b, pin, freq, timed);
    ToneStops(c, pin, freq, timed);
    StartedThenEnded(b, c, d, pin, freq, timed);
    forall channel: nat ensures Owned(d.slots, channel) <==> Owned(b.slots, channel) {
      OwnedElsewhere(b.slots, d.slots, pin, channel);
      OwnedElsewhere(d.slots, b.slots, pin, channel);
    }
  }

  /** A tone or noTone on another pin than the one that plays. */
  predicate Foreign(op: Op, pin: int) { (op.StartTone? || op.EndTone?) && op.pin != pin }

  function WithoutForeign(ops: seq<Op>, pin: int): seq<Op> {
    if ops == [] then []
    else
      var last := ops[|ops| - 1];
      WithoutForeign(ops[..|ops| - 1], pin) + if Foreign(last, pin) then [] else [last]
  }

  /** One tone at a time: from the moment a pin plays until its own noTone, over any
      calls, it keeps the tone, and tone and noTone on other pins might as well not
      have been made. */
  lemma {:induction false} ToneIsExclusive(b: Bus, ops: seq<Op>)
    requires 0 <= b.tonePin < PINS && EndTone(b.tonePin) !in ops
    ensures DoAll(b, ops).tonePin == b.tonePin
    ensures DoAll(b, ops) == DoAll(b, WithoutForeign(ops, b.tonePin))
  {
    if ops != [] {
      var n := |ops| - 1;
      ToneIsExclusive(b, ops[..n]);
      ToneIsKept(DoAll(b, ops[..n]), ops[n]);
      var kept := WithoutForeign(ops[..n], b.tonePin);
      if Foreign(ops[n], b.tonePin) {
        assert kept + [] == kept;
      } else {
        assert (kept + [ops[n]])[..|kept|] == kept;
      }
    }
  }

  lemma ToneIsKept(b: Bus, op: Op)
    requires 0 <= b.tonePin < PINS && op != EndTone(b.tonePin)
    ensures Do(b, op).tonePin == b.tonePin
    ensures Foreign(op, b.tonePin) ==> Do(b, op) == b
  {
    if op.LedcWriteChannel? {
      ChannelWriteKeepsTone(b, op.channel, op.duty, 0);
    }
  }

  lemma {:induction false} ChannelWriteKeepsTone(b: Bus, channel: nat, duty: nat, from: nat)
    ensures WriteChannelFrom(b, channel, duty, from).tonePin == b.tonePin
    decreases PINS - from
  {
    if from < PINS {
      ChannelWriteKeepsTone(if Holds(b.slots, from, channel) then WriteDuty(b, from, duty) else b, channel, duty, from + 1);
    }
  }

  // --- frames --------------------------------------------------------------

  /** A call for one pin leaves every other pin's slot alone. */
  lemma OnlyItsPin(b: Bus, op: Op, other: Pin)
    requires !op.LedcWriteChannel? && !op.DefaultFrequency? && !op.DefaultResolution? && other != op.pin
    ensures Do(b, op).slots[other] == b.slots[other]
  {
  }

  /** A channel write gives every pin on the channel the duty, clamped to the pin's own
      resolution, and touches nothing else of any pin. */
  lemma ChannelWriteReachesAll(b: Bus, channel: Octet, duty: Word, pin: Pin)
    requires channel < CHANNELS
    ensures Do(b, LedcWriteChannel(channel, duty)).slots[pin]
         == if Holds(b.slots, pin, channel) then b.slots[pin].(duty := ClampDuty(duty, b.slots[pin].resolution))
            else b.slots[pin]
  {
    ChannelWriteFrom(b, channel, duty, 0, pin);
  }

  lemma {:induction false} ChannelWriteFrom(b: Bus, channel: nat, duty: nat, from: nat, pin: Pin)
    ensures WriteChannelFrom(b, channel, duty, from).slots[pin]
         == if from <= pin && Holds(b.slots, pin, channel) then
              b.slots[pin].(duty := ClampDuty(duty, b.slots[pin].resolution))
            else b.slots[pin]
    decreases PINS - from
  {
    if from < PINS {
      ChannelWriteFrom(if Holds(b.slots, from, channel) then WriteDuty(b, from, duty) else b, channel, duty, from + 1, pin);
    }
  }
}
