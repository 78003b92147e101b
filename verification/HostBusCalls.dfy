/** What every analog call leaves behind and reports, in numbers: read off the slots
    and the log before and after it. */
module HostBusCalls {
  import opened Common
  import opened HostBus

  /** 1 << bits. */
  const SCALE: seq<nat> := [1, 2, 4, 8, 16, 32, 64, 128, 256, 512, 1024, 2048, 4096, 8192, 16384, 32768, 65536,
                            131072, 262144, 524288, 1048576]

  predicate On(s: Slot) { s.attached && !s.dac }

  predicate Taken(slots: Slots, channel: nat) {
    exists p: nat :: p < 256 && On(slots[p]) && slots[p].channel == channel
  }

  /** The duty a request leaves on a pin of so many bits. */
  predicate DutyLeft(asked: nat, bits: nat, left: nat)
    requires bits < |SCALE|
  {
    if asked < SCALE[bits] - 1 || bits == 1 then left == asked else left == SCALE[bits]
  }

  /** The next events of the log, and nothing else of it. */
  predicate Logged(b: Bus, c: Bus, events: seq<Event>) { c.log == b.log + events }

  /** Of the slots only the pin's has changed, and the defaults and the tone have not. */
  predicate OnlySlot(b: Bus, c: Bus, pin: Pin) {
    && c.slots == b.slots[pin := c.slots[pin]]
    && c.writeBits == b.writeBits && c.writeHz == b.writeHz && c.tonePin == b.tonePin
  }

  /** One call, one event: the pin's new slot. */
  predicate Reported(b: Bus, c: Bus, pin: Pin, kind: Kind) {
    OnlySlot(b, c, pin) && Logged(b, c, [Event(kind, c.slots[pin])])
  }

  lemma PowerIs(n: nat)
    requires n <= 20
    ensures Pow2(n) == SCALE[n]
  {
    if n > 0 {
      PowerIs(n - 1);
      Doubles(n);
    }
  }

  lemma Doubles(n: nat)
    requires 0 < n <= 20
    ensures SCALE[n] == 2 * SCALE[n - 1]
  {
  }

  lemma WriteIs(b: Bus, pin: Pin, duty: nat)
    requires On(b.slots[pin]) && 1 <= b.slots[pin].resolution <= 20
    ensures var s, c := b.slots[pin], WriteDuty(b, pin, duty);
            && Reported(b, c, pin, Write)
            && c.slots[pin] == s.(duty := c.slots[pin].duty)
            && DutyLeft(duty, s.resolution, c.slots[pin].duty)
  {
    PowerIs(b.slots[pin].resolution);
  }

  // --- duties --------------------------------------------------------------

  /** ledcWrite leaves the duty asked for, but 2^bits from full scale on, except at
      one bit. */
  lemma LedcWriteLeaves(b: Bus, pin: Pin, duty: Word)
    requires Sound(b)
    ensures var s, c, answer := b.slots[pin], Do(b, LedcWrite(pin, duty)), Answer(b, LedcWrite(pin, duty));
            if s.attached && !s.dac then
              && answer == 1 && Reported(b, c, pin, Write)
              && c.slots[pin] == s.(duty := c.slots[pin].duty)
              && s.resolution <= 20 && DutyLeft(duty, s.resolution, c.slots[pin].duty)
            else answer == 0 && c == b
  {
    assert SlotSound(b.slots[pin], pin);
    if On(b.slots[pin]) {
      WriteIs(b, pin, duty);
    }
  }

  /** A fade writes where it starts and where it ends. */
  lemma LedcFadeLeaves(b: Bus, pin: Pin, start: Word, target: Word)
    requires Sound(b)
    ensures var s, c, answer := b.slots[pin], Do(b, LedcFade(pin, start, target)), Answer(b, LedcFade(pin, start, target));
            if s.attached && !s.dac then
              && answer == 1 && OnlySlot(b, c, pin)
              && c.slots[pin] == s.(duty := c.slots[pin].duty)
              && s.resolution <= 20 && DutyLeft(target, s.resolution, c.slots[pin].duty)
              && exists first: nat :: DutyLeft(start, s.resolution, first)
                   && Logged(b, c, [Event(Write, s.(duty := first)), Event(Write, c.slots[pin])])
            else answer == 0 && c == b
  {
    assert SlotSound(b.slots[pin], pin);
    if On(b.slots[pin]) {
      var mid := WriteDuty(b, pin, start);
      WriteIs(b, pin, start);
      WriteIs(mid, pin, target);
      var first := mid.slots[pin].duty;
      assert DutyLeft(start, b.slots[pin].resolution, first);
      assert b.log + [Event(Write, mid.slots[pin])] + [Event(Write, Do(b, LedcFade(pin, start, target)).slots[pin])]
          == b.log + [Event(Write, b.slots[pin].(duty := first)), Event(Write, Do(b, LedcFade(pin, start, target)).slots[pin])];
    }
  }

  /** Every pin on the channel is written, in ascending order, and no other. */
  ghost predicate WrittenInOrder(b: Bus, c: Bus, channel: nat, duty: nat, from: nat) {
    var n := |b.log|;
    && n <= |c.log| && c.log[..n] == b.log
    && (forall i :: n <= i < |c.log| ==> WrittenOnce(b, c.log[i], channel, duty, from))
    && (forall i, j :: n <= i < j < |c.log| ==> c.log[i].slot.pin < c.log[j].slot.pin)
    && (forall p: nat :: from <= p < 256 && On(b.slots[p]) && b.slots[p].channel == channel ==>
          exists i :: n <= i < |c.log| && c.log[i].slot.pin == p)
  }

  predicate WrittenOnce(b: Bus, e: Event, channel: nat, duty: nat, from: nat) {
    var p := e.slot.pin;
    && e.kind == Write && from <= p < 256
    && On(b.slots[p]) && b.slots[p].channel == channel
    && e.slot == b.slots[p].(duty := e.slot.duty)
    && b.slots[p].resolution <= 20 && DutyLeft(duty, b.slots[p].resolution, e.slot.duty)
  }

  lemma {:induction false} ChannelIsWritten(b: Bus, channel: nat, duty: nat, from: nat)
    requires Sound(b)
    ensures WrittenInOrder(b, WriteChannelFrom(b, channel, duty, from), channel, duty, from)
    decreases PINS - from
  {
    var c := WriteChannelFrom(b, channel, duty, from);
    if from < PINS {
      assert SlotSound(b.slots[from], from);
      if Holds(b.slots, from, channel) {
        var mid := WriteDuty(b, from, duty);
        WriteIs(b, from, duty);
        WriteFollows(b, from, duty);
        ChannelIsWritten(mid, channel, duty, from + 1);
        OneThenTheRest(b, mid, c, channel, duty, from);
      } else {
        ChannelIsWritten(b, channel, duty, from + 1);
      }
    }
  }

  lemma OneThenTheRest(b: Bus, mid: Bus, c: Bus, channel: nat, duty: nat, from: Pin)
    requires Reported(b, mid, from, Write) && WrittenOnce(b, Event(Write, mid.slots[from]), channel, duty, from)
    requires mid.slots[from].pin == from && WrittenInOrder(mid, c, channel, duty, from + 1)
    ensures WrittenInOrder(b, c, channel, duty, from)
  {
    var n := |b.log|;
    assert mid.log[..n] == b.log && c.log[n] == mid.log[n];
    assert c.log[..n] == mid.log[..n];
    forall i | n <= i < |c.log| ensures WrittenOnce(b, c.log[i], channel, duty, from) {
      assert i > n ==> WrittenOnce(mid, c.log[i], channel, duty, from + 1);
    }
    forall p: nat | from <= p < 256 && On(b.slots[p]) && b.slots[p].channel == channel
      ensures exists i :: n <= i < |c.log| && c.log[i].slot.pin == p
    {
      assert p == from || (On(mid.slots[p]) && mid.slots[p].channel == channel);
    }
  }

  /** ledcWriteChannel: one write for each pin on the channel, yes when there is one. */
  lemma LedcWriteChannelLeaves(b: Bus, channel: Octet, duty: Word)
    requires Sound(b)
    ensures var op := LedcWriteChannel(channel, duty);
            if channel < 16 then
              && WrittenInOrder(b, Do(b, op), channel, duty, 0)
              && (Answer(b, op) == 1 <==> Taken(b.slots, channel)) && Answer(b, op) <= 1
            else Answer(b, op) == 0 && Do(b, op) == b
  {
    if channel < 16 {
      ChannelIsWritten(b, channel, duty, 0);
      TakenIffOwned(b.slots, channel);
      OwnedIffOwner(b.slots, channel);
    }
  }

  lemma TakenIffOwned(slots: Slots, channel: nat)
    ensures Taken(slots, channel) <==> Owned(slots, channel)
  {
    if Taken(slots, channel) {
      var p: nat :| p < 256 && On(slots[p]) && slots[p].channel == channel;
      assert Holds(slots, p, channel);
    }
    if Owned(slots, channel) {
      var p: nat :| p < PINS && Holds(slots, p, channel);
      assert On(slots[p]);
    }
  }

  // --- tones ---------------------------------------------------------------

  /** What a tone of that frequency makes of a pin on LEDC; 0 is silence. */
  function Toned(s: Slot, freq: nat): Event {
    if freq == 0 then Event(Write, s.(duty := 0))
    else Event(Tone, s.(frequency := freq, resolution := 10, duty := 511))
  }

  /** ledcWriteTone: a square wave of ten bits at half duty, or silence. */
  lemma LedcWriteToneLeaves(b: Bus, pin: Pin, freq: Word)
    requires Sound(b)
    ensures var s, c := b.slots[pin], Do(b, LedcWriteTone(pin, freq));
            if s.attached && !s.dac then
              && Answer(b, LedcWriteTone(pin, freq)) == freq && OnlySlot(b, c, pin)
              && c.slots[pin] == Toned(s, freq).slot && Logged(b, c, [Toned(s, freq)])
            else Answer(b, LedcWriteTone(pin, freq)) == 0 && c == b
  {
    assert SlotSound(b.slots[pin], pin);
    if On(b.slots[pin]) {
      WriteIs(b, pin, 0);
      ZeroStays(b.slots[pin].resolution);
    }
  }

  lemma ZeroStays(bits: nat)
    requires 1 <= bits <= 20
    ensures forall left: nat :: DutyLeft(0, bits, left) <==> left == 0
  {
  }

  /** The twelve notes of octave 8, halved for every octave below it. */
  function Note(note: nat, octave: nat): nat
    requires note < 12 && octave <= 8
  {
    [4186, 4435, 4699, 4978, 5274, 5588, 5920, 6272, 6645, 7040, 7459, 7902][note] / SCALE[8 - octave]
  }

  lemma NotesAre(note: nat, octave: nat)
    requires note < 12 && octave <= 8
    ensures NoteFrequency(note, octave) == Note(note, octave) > 0
    ensures NoteFrequency(note, octave) < UINT32
  {
    Halved(OCTAVE_EIGHT[note], 8 - octave);
    NotesSound(note, octave);
  }

  lemma Halved(x: nat, n: nat)
    requires n <= 8
    ensures ShiftedDown(x, n) == x / SCALE[n]
  {
    if n > 0 {
      Halved(x / 2, n - 1);
      Doubles(n);
      HalvedTwice(x, n);
    }
  }

  lemma HalvedTwice(x: nat, n: nat)
    requires 0 < n <= 8
    ensures (x / 2) / SCALE[n - 1] == x / SCALE[n]
  {
    match n
    case 1 =>
    case 2 =>
    case 3 =>
    case 4 =>
    case 5 =>
    case 6 =>
    case 7 =>
    case 8 =>
  }

  /** ledcWriteNote plays the note of the table, or refuses what is not in it. */
  lemma LedcWriteNoteLeaves(b: Bus, pin: Pin, note: nat, octave: Octet)
    requires Sound(b)
    ensures var s, op := b.slots[pin], LedcWriteNote(pin, note, octave);
            if s.attached && !s.dac && note < 12 && octave <= 8 then
              && Answer(b, op) == Note(note, octave) && OnlySlot(b, Do(b, op), pin)
              && Do(b, op).slots[pin] == Toned(s, Note(note, octave)).slot
              && Logged(b, Do(b, op), [Toned(s, Note(note, octave))])
            else Answer(b, op) == 0 && Do(b, op) == b
  {
    if note < 12 && octave <= 8 {
      NotesAre(note, octave);
      LedcWriteToneLeaves(b, pin, NoteFrequency(note, octave));
    }
  }

  // --- attaching and detaching ---------------------------------------------

  /** Settings a timer can have. */
  predicate Tunable(freq: nat, bits: nat) { freq != 0 && 1 <= bits <= 20 }

  /** A pin joining LEDC keeps its duty and its inversion; it is no DAC any more. */
  predicate Joined(b: Bus, c: Bus, pin: Pin, channel: nat, freq: nat, bits: nat) {
    && Reported(b, c, pin, Attach)
    && c.slots[pin] == b.slots[pin].(channel := channel, frequency := freq, resolution := bits,
                                     attached := true, dac := false)
  }

  /** The lowest pin on the channel. */
  predicate Leads(slots: Slots, leader: Pin, channel: nat) {
    && On(slots[leader]) && slots[leader].channel == channel
    && forall p :: 0 <= p < leader ==> !(On(slots[p]) && slots[p].channel == channel)
  }

  predicate LowestUntaken(slots: Slots, channel: nat) {
    channel < 16 && !Taken(slots, channel) && forall i: nat :: i < channel ==> Taken(slots, i)
  }

  /** ledcAttachChannel: on a channel nobody holds the settings asked for, on a held
      one those of its lowest pin. */
  lemma LedcAttachChannelLeaves(b: Bus, pin: Pin, freq: Word, bits: Octet, channel: Octet)
    ensures var s, op := b.slots[pin], LedcAttachChannel(pin, freq, bits, channel);
            if !(s.attached && !s.dac) && Tunable(freq, bits) && channel < 16 then
              && Answer(b, op) == 1
              && (!Taken(b.slots, channel) ==> Joined(b, Do(b, op), pin, channel, freq, bits))
              && (forall p: Pin :: Leads(b.slots, p, channel) ==>
                    Joined(b, Do(b, op), pin, channel, b.slots[p].frequency, b.slots[p].resolution))
            else Answer(b, op) == 0 && Do(b, op) == b
  {
    TakenIffOwned(b.slots, channel);
    OwnedIffOwner(b.slots, channel);
    forall p: Pin | Leads(b.slots, p, channel) ensures Owner(b.slots, channel, 0) == p {
      LeaderIsOwner(b.slots, channel, p, 0);
    }
  }

  lemma {:induction false} LeaderIsOwner(slots: Slots, channel: nat, leader: Pin, from: nat)
    requires Leads(slots, leader, channel) && from <= leader
    ensures Owner(slots, channel, from) == leader
    decreases leader - from
  {
    if from < leader {
      LeaderIsOwner(slots, channel, leader, from + 1);
    }
  }

  lemma LowestIsFree(slots: Slots)
    ensures FirstFree(slots, 0) >= 0 ==> LowestUntaken(slots, FirstFree(slots, 0))
    ensures FirstFree(slots, 0) < 0 ==> forall i: nat :: i < 16 ==> Taken(slots, i)
  {
    FirstFreeIsLowest(slots, 0);
    forall i: nat | i <= 16 ensures Taken(slots, i) <==> Owned(slots, i) {
      TakenIffOwned(slots, i);
    }
  }

  /** ledcAttach: the settings asked for on the lowest channel nobody holds. */
  lemma LedcAttachLeaves(b: Bus, pin: Pin, freq: Word, bits: Octet)
    ensures var s, op := b.slots[pin], LedcAttach(pin, freq, bits);
            if !(s.attached && !s.dac) && Tunable(freq, bits) && !(forall i: nat :: i < 16 ==> Taken(b.slots, i)) then
              && Answer(b, op) == 1
              && LowestUntaken(b.slots, Do(b, op).slots[pin].channel)
              && Joined(b, Do(b, op), pin, Do(b, op).slots[pin].channel, freq, bits)
            else Answer(b, op) == 0 && Do(b, op) == b
  {
    LowestIsFree(b.slots);
    var channel := FirstFree(b.slots, 0);
    if channel >= 0 {
      TakenIffOwned(b.slots, channel);
      OwnedIffOwner(b.slots, channel);
    }
  }

  /** ledcDetach: off its channel, duty 0, not inverted; the settings stay. */
  lemma LedcDetachLeaves(b: Bus, pin: Pin)
    ensures var s, c := b.slots[pin], Do(b, LedcDetach(pin));
            if s.attached && !s.dac then
              && Answer(b, LedcDetach(pin)) == 1 && Reported(b, c, pin, Detach)
              && c.slots[pin] == s.(attached := false, channel := 255, duty := 0, inverted := false)
            else Answer(b, LedcDetach(pin)) == 0 && c == b
  {
  }

  // --- settings ------------------------------------------------------------

  predicate Retuned(b: Bus, c: Bus, pin: Pin, freq: nat, bits: nat) {
    && c.slots == b.slots[pin := b.slots[pin].(frequency := freq, resolution := bits)]
    && Logged(b, c, [Event(Config, c.slots[pin])]) && c.tonePin == b.tonePin
  }

  /** ledcChangeFrequency sets both settings, leaving the duty as it is. */
  lemma LedcChangeFrequencyLeaves(b: Bus, pin: Pin, freq: Word, bits: Octet)
    ensures var s, op := b.slots[pin], LedcChangeFrequency(pin, freq, bits);
            if s.attached && !s.dac && Tunable(freq, bits) then
              && Answer(b, op) == freq && Retuned(b, Do(b, op), pin, freq, bits)
              && Do(b, op).writeHz == b.writeHz && Do(b, op).writeBits == b.writeBits
            else Answer(b, op) == 0 && Do(b, op) == b
  {
  }

  lemma LedcOutputInvertLeaves(b: Bus, pin: Pin, invert: bool)
    ensures var s, op := b.slots[pin], LedcOutputInvert(pin, invert);
            if s.attached && !s.dac then
              && Answer(b, op) == 1 && Reported(b, Do(b, op), pin, Config)
              && Do(b, op).slots[pin] == s.(inverted := invert)
            else Answer(b, op) == 0 && Do(b, op) == b
  {
  }

  /** analogWriteFrequency for a pin: an attached pin gets the frequency and the
      default bits, and the default follows unless the pin refuses. */
  lemma AnalogWriteFrequencyLeaves(b: Bus, pin: Pin, freq: Word)
    ensures var s, c := b.slots[pin], Do(b, AnalogWriteFrequency(pin, freq));
            if !(s.attached && !s.dac) then c == b.(writeHz := freq)
            else if Tunable(freq, b.writeBits) then
              Retuned(b, c, pin, freq, b.writeBits) && c.writeHz == freq && c.writeBits == b.writeBits
            else c == b
  {
  }

  lemma AnalogWriteResolutionLeaves(b: Bus, pin: Pin, bits: Octet)
    ensures var s, c := b.slots[pin], Do(b, AnalogWriteResolution(pin, bits));
            if !(s.attached && !s.dac) then c == b.(writeBits := bits)
            else if Tunable(b.writeHz, bits) then
              Retuned(b, c, pin, b.writeHz, bits) && c.writeBits == bits && c.writeHz == b.writeHz
            else c == b
  {
  }

  /** The global spellings touch the defaults alone. */
  lemma DefaultsLeave(b: Bus, freq: Word, bits: Octet)
    ensures Do(b, DefaultFrequency(freq)) == Bus(b.slots, b.writeBits, freq, b.tonePin, b.log)
    ensures Do(b, DefaultResolution(bits)) == Bus(b.slots, bits, b.writeHz, b.tonePin, b.log)
  {
  }

  // --- analogWrite ---------------------------------------------------------

  /** static_cast<uint32_t> of a 32-bit int. */
  function Reinterpreted(value: Int32): nat { if value < 0 then value + 4294967296 else value }

  predicate Written(b: Bus, c: Bus, pin: Pin, value: Int32) {
    var s, d := b.slots[pin], c.slots[pin];
    && Reported(b, c, pin, Write) && d == s.(duty := d.duty)
    && s.resolution <= 20 && DutyLeft(Reinterpreted(value), s.resolution, d.duty)
  }

  /** analogWrite writes the duty to a pin on LEDC; any other pin is first attached with
      the default frequency and bits on the lowest free channel, and only when that is
      refused does nothing happen. */
  lemma AnalogWriteLeaves(b: Bus, pin: Pin, value: Int32)
    requires Sound(b)
    ensures var s, c := b.slots[pin], Do(b, AnalogWrite(pin, value));
            if s.attached && !s.dac then Written(b, c, pin, value)
            else if Tunable(b.writeHz, b.writeBits) && !(forall i: nat :: i < 16 ==> Taken(b.slots, i)) then
              exists mid: Bus, channel: nat ::
                && LowestUntaken(b.slots, channel)
                && Joined(b, mid, pin, channel, b.writeHz, b.writeBits)
                && Written(mid, c, pin, value)
            else c == b
  {
    assert SlotSound(b.slots[pin], pin);
    var asked := AsUnsigned(value);
    if On(b.slots[pin]) {
      WriteIs(b, pin, asked);
    } else {
      var mid := AttachFree(b, pin, b.writeHz, b.writeBits);
      AttachedByDefault(b, mid, pin);
      if mid != b {
        WriteIs(mid, pin, asked);
        assert Written(mid, Do(b, AnalogWrite(pin, value)), pin, value);
      }
    }
  }

  lemma AttachedByDefault(b: Bus, mid: Bus, pin: Pin)
    requires !On(b.slots[pin]) && mid == AttachFree(b, pin, b.writeHz, b.writeBits)
    ensures if Tunable(b.writeHz, b.writeBits) && !(forall i: nat :: i < 16 ==> Taken(b.slots, i)) then
              LowestUntaken(b.slots, mid.slots[pin].channel)
              && Joined(b, mid, pin, mid.slots[pin].channel, b.writeHz, b.writeBits)
            else mid == b
  {
    LowestIsFree(b.slots);
    var channel := FirstFree(b.slots, 0);
    if channel >= 0 {
      TakenIffOwned(b.slots, channel);
      OwnedIffOwner(b.slots, channel);
    }
  }

  /** Which after a reset reads: channel 0, 1000 Hz, 8 bits. */
  lemma FirstWriteAfterReset(pin: Pin, value: Int32)
    requires value >= 0
    ensures Do(RESET, AnalogWrite(pin, value)).log
         == [Event(Attach, Slot(pin, 0, 0, 1000, 8, true, false, false)),
             Event(Write, Slot(pin, 0, if value < 255 then value else 256, 1000, 8, true, false, false))]
  {
    ReplayAgrees([]);
    AnalogWriteLeaves(RESET, pin, value);
    assert !Taken(RESET.slots, 0);
    var c := Do(RESET, AnalogWrite(pin, value));
    var mid: Bus, channel: nat :| LowestUntaken(RESET.slots, channel)
      && Joined(RESET, mid, pin, channel, 1000, 8) && Written(mid, c, pin, value);
    assert channel == 0;
    assert c.log == [Event(Attach, mid.slots[pin])] + [Event(Write, c.slots[pin])];
  }

  // --- the DAC -------------------------------------------------------------

  lemma DacOutputLeaves(b: Bus, pin: Pin, level: Octet)
    ensures var c := Do(b, DacOutput(pin, level));
            && Reported(b, c, pin, Dac)
            && c.slots[pin] == Slot(b.slots[pin].pin, 255, level, 0, 8, true, b.slots[pin].inverted, true)
  {
  }

  lemma DacOffLeaves(b: Bus, pin: Pin)
    ensures var s, c := b.slots[pin], Do(b, DacOff(pin));
            if s.dac then
              && Answer(b, DacOff(pin)) == 1 && Reported(b, c, pin, Detach)
              && c.slots[pin] == s.(attached := false, dac := false, duty := 0)
            else Answer(b, DacOff(pin)) == 0 && c == b
  {
  }

  // --- tone and noTone -----------------------------------------------------

  /** tone while the pin already plays: the new frequency, and the silence of a timed
      note, as long as the pin is still on LEDC. */
  lemma ToneAgainLeaves(b: Bus, pin: Pin, freq: Word, timed: bool)
    requires Sound(b) && b.tonePin == pin
    ensures var s, c := b.slots[pin], Do(b, StartTone(pin, freq, timed));
            if s.attached && !s.dac then
              var played := Toned(s, freq);
              && OnlySlot(b, c, pin)
              && Logged(b, c, if timed then [played, Toned(played.slot, 0)] else [played])
              && c.slots[pin] == if timed then Toned(played.slot, 0).slot else played.slot
            else c == b
  {
    assert SlotSound(b.slots[pin], pin);
    if On(b.slots[pin]) {
      LedcWriteToneLeaves(b, pin, freq);
      var mid := WriteTone(b, pin, freq);
      ToneFollows(b, pin, freq);
      LedcWriteToneLeaves(mid, pin, 0);
      assert b.log + [Toned(b.slots[pin], freq)] + [Toned(mid.slots[pin], 0)]
          == b.log + [Toned(b.slots[pin], freq), Toned(mid.slots[pin], 0)];
    }
  }

  /** A first tone that finds no channel, or asks for 0 Hz, has no effect. */
  lemma ToneNeedsAChannel(b: Bus, pin: Pin, freq: Word, timed: bool)
    requires b.tonePin < 0
    requires On(b.slots[pin]) || freq == 0 || forall i: nat :: i < 16 ==> Taken(b.slots, i)
    ensures Do(b, StartTone(pin, freq, timed)) == b
  {
    LowestIsFree(b.slots);
  }

  /** noTone for the pin that plays: silence and detach if it is still on LEDC, and the
      tone is free again in any case; for any other pin nothing. */
  lemma NoToneLeaves(b: Bus, pin: Pin)
    requires Sound(b)
    ensures var s, c := b.slots[pin], Do(b, EndTone(pin));
            if b.tonePin != pin then c == b
            else if s.attached && !s.dac then
              && c.tonePin == -1 && c.writeBits == b.writeBits && c.writeHz == b.writeHz
              && c.slots == b.slots[pin := s.(attached := false, channel := 255, duty := 0, inverted := false)]
              && Logged(b, c, [Event(Write, s.(duty := 0)), Event(Detach, c.slots[pin])])
            else c == b.(tonePin := -1)
  {
    assert SlotSound(b.slots[pin], pin);
    if b.tonePin == pin && On(b.slots[pin]) {
      LedcWriteToneLeaves(b, pin, 0);
      var mid := WriteTone(b, pin, 0);
      LedcDetachLeaves(mid, pin);
      assert b.log + [mid.log[|b.log|]] + [Event(Detach, DetachPin(mid, pin).slots[pin])]
          == b.log + [mid.log[|b.log|], Event(Detach, DetachPin(mid, pin).slots[pin])];
    }
  }
}
