/** The tables behind the analog calls: an array of slots searched and updated in
    place, refining the bus. */
module HostBusTables {
  import opened Common
  import opened HostBus

  class AnalogTables {
    const out: array<Slot>
    var writeBits: Octet
    var writeHz: Word
    var tonePin: int
    var log: seq<Event>    // what the hook has recorded

    ghost predicate Valid()
      reads this
    {
      out.Length == PINS
    }

    ghost function View(): Bus
      requires Valid()
      reads this, out
    {
      Bus(out[..], writeBits, writeHz, tonePin, log)
    }

    constructor ()
      ensures Valid() && fresh(out) && View() == RESET
    {
      out := new Slot[PINS](i => FreshSlot(0));
      log := [];
      new;
      Reset();
    }

    method Reset()
      requires Valid()
      modifies this, out
      ensures Valid() && View() == RESET.(log := old(log))
    {
      for i := 0 to out.Length
        invariant log == old(log)
        invariant forall j :: 0 <= j < i ==> out[j] == FreshSlot(j)
      {
        out[i] := FreshSlot(i);
      }
      writeBits, writeHz, tonePin := 8, 1000, -1;
      assert out[..] == RESET.slots;
    }

    /** The slot's new value is stored and reported. */
    method Store(pin: Pin, slot: Slot, kind: Kind)
      requires Valid()
      modifies this`log, out
      ensures View() == Put(old(View()), pin, slot, kind)
    {
      out[pin] := slot;
      log := log + [Event(kind, slot)];
      assert out[..] == old(out[..])[pin := slot];
    }

    method ChannelOwner(channel: int) returns (owner: int)
      requires Valid()
      ensures owner == if 0 <= channel < CHANNELS then Owner(View().slots, channel, 0) else -1
    {
      if channel < 0 || channel >= CHANNELS {
        return -1;
      }
      for pin := 0 to PINS
        invariant Owner(out[..], channel, pin) == Owner(out[..], channel, 0)
      {
        if IsLedc(out[pin]) && out[pin].channel == channel {
          return pin;
        }
      }
      return -1;
    }

    method FirstFreeChannel() returns (channel: int)
      requires Valid()
      ensures channel == FirstFree(View().slots, 0)
    {
      for i := 0 to CHANNELS
        invariant FirstFree(out[..], i) == FirstFree(out[..], 0)
      {
        var owner := ChannelOwner(i);
        if owner < 0 {
          return i;
        }
      }
      return -1;
    }

    method Attach(pin: Pin, freq: Word, resolution: Octet, channel: Octet) returns (ok: bool)
      requires Valid()
      modifies this`log, out
      ensures View() == AttachChannel(old(View()), pin, freq, resolution, channel)
      ensures ok == CanAttach(old(View()), pin, freq, resolution, channel)
    {
      if channel >= CHANNELS {
        return false;
      }
      if freq == 0 || resolution == 0 || resolution > MAX_RESOLUTION {
        return false;
      }
      if IsLedc(out[pin]) {
        return false;
      }
      var f: nat, r: nat := freq, resolution;
      var sharing := ChannelOwner(channel);
      if sharing >= 0 {
        f, r := out[sharing].frequency, out[sharing].resolution;
      }
      Store(pin, out[pin].(channel := channel, frequency := f, resolution := r, attached := true, dac := false),
            Kind.Attach);
      return true;
    }

    method WriteDuty(pin: Pin, duty: Word) returns (ok: bool)
      requires Valid()
      modifies this`log, out
      ensures View() == HostBus.WriteDuty(old(View()), pin, duty)
      ensures ok == IsLedc(old(View()).slots[pin])
    {
      if !IsLedc(out[pin]) {
        return false;
      }
      Store(pin, out[pin].(duty := ClampDuty(duty, out[pin].resolution)), Write);
      return true;
    }

    method LedcAttach(pin: Pin, freq: Word, resolution: Octet) returns (ok: bool)
      requires Valid()
      modifies this`log, out
      ensures View() == Do(old(View()), Op.LedcAttach(pin, freq, resolution))
      ensures Unit(ok) == Answer(old(View()), Op.LedcAttach(pin, freq, resolution))
    {
      var channel := FirstFreeChannel();
      if channel < 0 {
        return false;
      }
      ok := Attach(pin, freq, resolution, channel);
    }

    method LedcAttachChannel(pin: Pin, freq: Word, resolution: Octet, channel: Octet) returns (ok: bool)
      requires Valid()
      modifies this`log, out
      ensures View() == Do(old(View()), Op.LedcAttachChannel(pin, freq, resolution, channel))
      ensures Unit(ok) == Answer(old(View()), Op.LedcAttachChannel(pin, freq, resolution, channel))
    {
      ok := Attach(pin, freq, resolution, channel);
    }

    method LedcWrite(pin: Pin, duty: Word) returns (ok: bool)
      requires Valid()
      modifies this`log, out
      ensures View() == Do(old(View()), Op.LedcWrite(pin, duty))
      ensures Unit(ok) == Answer(old(View()), Op.LedcWrite(pin, duty))
    {
      ok := WriteDuty(pin, duty);
    }

    /** Every pin on the channel is written, not just the first. */
    method LedcWriteChannel(channel: Octet, duty: Word) returns (written: bool)
      requires Valid()
      modifies this`log, out
      ensures View() == Do(old(View()), Op.LedcWriteChannel(channel, duty))
      ensures Unit(written) == Answer(old(View()), Op.LedcWriteChannel(channel, duty))
    {
      if channel >= CHANNELS {
        return false;
      }
      written := false;
      ghost var was := View();
      for pin := 0 to PINS
        invariant WriteChannelFrom(View(), channel, duty, pin) == WriteChannelFrom(was, channel, duty, 0)
        invariant (written || Owner(View().slots, channel, pin) >= 0) == (Owner(was.slots, channel, 0) >= 0)
      {
        OwnerIgnoresDuty(View(), pin, duty, channel, pin + 1);
        written := WriteIfHeld(channel, duty, pin, written);
      }
    }

    method WriteIfHeld(channel: Octet, duty: Word, pin: Pin, before: bool) returns (written: bool)
      requires Valid()
      modifies this`log, out
      ensures View() == if Holds(old(View()).slots, pin, channel)
                        then HostBus.WriteDuty(old(View()), pin, duty) else old(View())
      ensures written == (Holds(old(View()).slots, pin, channel) || before)
    {
      written := before;
      if IsLedc(out[pin]) && out[pin].channel == channel {
        var ok := WriteDuty(pin, duty);
        written := ok || written;
      }
    }

    method LedcWriteTone(pin: Pin, freq: Word) returns (played: Word)
      requires Valid()
      modifies this`log, out
      ensures View() == Do(old(View()), Op.LedcWriteTone(pin, freq))
      ensures played == Answer(old(View()), Op.LedcWriteTone(pin, freq))
    {
      if !IsLedc(out[pin]) {
        return 0;
      }
      if freq == 0 {
        var _ := WriteDuty(pin, 0);
        return 0;
      }
      Store(pin, out[pin].(frequency := freq, resolution := 10, duty := 0x1FF), Tone);
      return freq;
    }

    method LedcWriteNote(pin: Pin, note: nat, octave: Octet) returns (played: nat)
      requires Valid()
      modifies this`log, out
      ensures View() == Do(old(View()), Op.LedcWriteNote(pin, note, octave))
      ensures played == Answer(old(View()), Op.LedcWriteNote(pin, note, octave))
    {
      if octave > 8 || note >= 12 {
        return 0;
      }
      NotesSound(note, octave);
      played := LedcWriteTone(pin, NoteFrequency(note, octave));
    }

    method LedcDetach(pin: Pin) returns (ok: bool)
      requires Valid()
      modifies this`log, out
      ensures View() == Do(old(View()), Op.LedcDetach(pin))
      ensures Unit(ok) == Answer(old(View()), Op.LedcDetach(pin))
    {
      if !IsLedc(out[pin]) {
        return false;
      }
      Store(pin, out[pin].(attached := false, channel := NO_CHANNEL, duty := 0, inverted := false), Detach);
      return true;
    }

    method LedcChangeFrequency(pin: Pin, freq: Word, resolution: Octet) returns (tuned: Word)
      requires Valid()
      modifies this`log, out
      ensures View() == Do(old(View()), Op.LedcChangeFrequency(pin, freq, resolution))
      ensures tuned == Answer(old(View()), Op.LedcChangeFrequency(pin, freq, resolution))
    {
      if !IsLedc(out[pin]) || freq == 0 || resolution == 0 || resolution > MAX_RESOLUTION {
        return 0;
      }
      Store(pin, out[pin].(frequency := freq, resolution := resolution), Config);
      return freq;
    }

    method LedcOutputInvert(pin: Pin, invert: bool) returns (ok: bool)
      requires Valid()
      modifies this`log, out
      ensures View() == Do(old(View()), Op.LedcOutputInvert(pin, invert))
      ensures Unit(ok) == Answer(old(View()), Op.LedcOutputInvert(pin, invert))
    {
      if !IsLedc(out[pin]) {
        return false;
      }
      Store(pin, out[pin].(inverted := invert), Config);
      return true;
    }

    method LedcFade(pin: Pin, start: Word, target: Word) returns (ok: bool)
      requires Valid()
      modifies this`log, out
      ensures View() == Do(old(View()), Op.LedcFade(pin, start, target))
      ensures Unit(ok) == Answer(old(View()), Op.LedcFade(pin, start, target))
    {
      ok := WriteDuty(pin, start);
      if ok {
        var _ := WriteDuty(pin, target);
      }
    }

    method AnalogWrite(pin: Pin, value: Int32)
      requires Valid()
      modifies this`log, out
      ensures View() == Do(old(View()), Op.AnalogWrite(pin, value))
    {
      if !IsLedc(out[pin]) {
        var ok := LedcAttach(pin, writeHz, writeBits);
        if !ok {
          return;
        }
      }
      var _ := WriteDuty(pin, AsUnsigned(value));
    }

    method AnalogWriteFrequency(pin: Pin, freq: Word)
      requires Valid()
      modifies this`log, this`writeHz, out
      ensures View() == Do(old(View()), Op.AnalogWriteFrequency(pin, freq))
    {
      if IsLedc(out[pin]) {
        var tuned := LedcChangeFrequency(pin, freq, writeBits);
        if tuned == 0 {
          return;
        }
      }
      writeHz := freq;
    }

    method AnalogWriteResolution(pin: Pin, bits: Octet)
      requires Valid()
      modifies this`log, this`writeBits, out
      ensures View() == Do(old(View()), Op.AnalogWriteResolution(pin, bits))
    {
      if IsLedc(out[pin]) {
        var tuned := LedcChangeFrequency(pin, writeHz, bits);
        if tuned == 0 {
          return;
        }
      }
      writeBits := bits;
    }

    method DacWrite(pin: Pin, value: Octet) returns (ok: bool)
      requires Valid()
      modifies this`log, out
      ensures View() == Do(old(View()), Op.DacOutput(pin, value)) && ok
    {
      Store(pin, out[pin].(channel := NO_CHANNEL, frequency := 0, resolution := 8, duty := value,
                           attached := true, dac := true), Dac);
      return true;
    }

    method DacDisable(pin: Pin) returns (ok: bool)
      requires Valid()
      modifies this`log, out
      ensures View() == Do(old(View()), Op.DacOff(pin))
      ensures Unit(ok) == Answer(old(View()), Op.DacOff(pin))
    {
      if !out[pin].dac {
        return false;
      }
      Store(pin, out[pin].(attached := false, dac := false, duty := 0), Detach);
      return true;
    }

    method PlayTone(pin: Pin, freq: Word, duration: nat)
      requires Valid()
      modifies this`log, this`tonePin, out
      ensures View() == Do(old(View()), StartTone(pin, freq, duration > 0))
    {
      var ok := ClaimTone(pin, freq);
      if !ok {
        return;
      }
      var _ := LedcWriteTone(pin, freq);
      if duration > 0 {
        var _ := LedcWriteTone(pin, 0);
      }
    }

    /** tone's first half: only the pin already playing, or a pin that attaches now. */
    method ClaimTone(pin: Pin, freq: Word) returns (ok: bool)
      requires Valid()
      modifies this`log, this`tonePin, out
      ensures ok == if old(tonePin) < 0 then CanAttachFree(old(View()), pin, freq, 10) else old(tonePin) == pin
      ensures View() == if ok && old(tonePin) < 0 then AttachFree(old(View()), pin, freq, 10).(tonePin := pin)
                        else old(View())
    {
      if tonePin >= 0 && tonePin != pin {
        return false;
      }
      if tonePin < 0 {
        ok := LedcAttach(pin, freq, 10);
        if !ok {
          return;
        }
        tonePin := pin;
      }
      return true;
    }

    method NoTone(pin: Pin)
      requires Valid()
      modifies this`log, this`tonePin, out
      ensures View() == Do(old(View()), EndTone(pin))
    {
      if tonePin != pin {
        return;
      }
      var _ := LedcWriteTone(pin, 0);
      var _ := LedcDetach(pin);
      tonePin := -1;
    }
  }

  lemma {:induction false} OwnerIgnoresDuty(b: Bus, pin: Pin, duty: Word, channel: nat, from: nat)
    ensures Owner(HostBus.WriteDuty(b, pin, duty).slots, channel, from) == Owner(b.slots, channel, from)
    decreases PINS - from
  {
    if from < PINS {
      OwnerIgnoresDuty(b, pin, duty, channel, from + 1);
    }
  }
}
