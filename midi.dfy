/** MIDI input (keyboard.js: parseMidiMessage and the `noteState` filter of
    `onmidimessage`).

    A message is the byte array of a MIDI channel voice message. Reading past
    its end gives JavaScript's `undefined`, modelled as `None` by ByteAt. */
module Midi {
  import opened Wrappers
  import opened Notes

  datatype Command = NoteOn | NoteOff

  /** The `{command, note, velocity}` record; `velocity` is `data[2]`, which
      a message shorter than three bytes does not have. */
  datatype MidiMessage = MidiMessage(command: Command, note: string, velocity: Option<bv8>)

  /** What parseMidiNote makes of an `undefined` note number:
      `KEYS[NaN] + String(NaN)`. */
  const UNDEFINED_NOTE: string := "undefinedNaN"

  const NOTE_ON_STATUS: bv8 := 0x90
  const NOTE_OFF_STATUS: bv8 := 0x80

  /** `data[i]`: the byte, or `undefined` past the end. */
  function ByteAt(data: seq<bv8>, i: nat): (r: Option<bv8>)
    ensures r.Some? <==> i < |data|
    ensures r.Some? ==> r.value == data[i]
  {
    if i < |data| then Some(data[i]) else None
  }

  /** `data[0] & 0xf0`: the status with the channel masked off
      (`undefined & 0xf0` is 0). */
  function Status(data: seq<bv8>): bv8 {
    if |data| > 0 then data[0] & 0xF0 else 0
  }

  /** The command a masked status and a velocity select, if any: 0x9_ is
      note-on when the velocity is above 0 and note-off when it is 0; 0x8_
      is note-off whatever the velocity. */
  function CommandOf(status: bv8, velocity: Option<bv8>): Option<Command> {
    if status == NOTE_ON_STATUS then
      match velocity
      case Some(v) => if v > 0 then Some(NoteOn) else Some(NoteOff)
      case None => None
    else if status == NOTE_OFF_STATUS then Some(NoteOff)
    else None
  }

  /** parseMidiMessage. `data == None` is a message without data. */
  function ParseMidiMessage(data: Option<seq<bv8>>): (r: Option<MidiMessage>)
    ensures r.Some? ==> data.Some? && Status(data.value) in {NOTE_ON_STATUS, NOTE_OFF_STATUS}
    ensures r.Some? ==> r.value.velocity == ByteAt(data.value, 2)
    ensures r.Some? && r.value.command == NoteOn ==>
              Status(data.value) == NOTE_ON_STATUS && |data.value| >= 3 && data.value[2] > 0
  {
    match data
    case None => None
    case Some(bytes) =>
      var velocity := ByteAt(bytes, 2);
      match CommandOf(Status(bytes), velocity)
      case None => None
      case Some(command) =>
        var note := match ByteAt(bytes, 1)
          case None => Some(UNDEFINED_NOTE)
          case Some(value) => ParseMidiNote(value as int);
        match note
        case None => None
        case Some(name) => Some(MidiMessage(command, name, velocity))
  }

  /** For a complete three-byte message: 0x9_ with velocity above 0 is a
      note-on, 0x9_ with velocity 0 and 0x8_ with any velocity are note-offs,
      any other status and any note number below 21 give nothing; the note is
      parseMidiNote's name and the velocity the third byte. */
  lemma ParseThreeByteMessage(status: bv8, note: bv8, velocity: bv8)
    ensures var r := ParseMidiMessage(Some([status, note, velocity]));
      var kind := status & 0xF0;
      if note as int < LOWEST_MIDI_NOTE || kind !in {NOTE_ON_STATUS, NOTE_OFF_STATUS} then r == None
      else r == Some(MidiMessage(
        if kind == NOTE_ON_STATUS && velocity > 0 then NoteOn else NoteOff,
        ParseMidiNote(note as int).value, Some(velocity)))
  {
  }

  /** The low nibble of the status byte (the MIDI channel) does not matter. */
  lemma ChannelIgnored(bytes: seq<bv8>, channel: bv8)
    requires |bytes| > 0 && channel < 16
    ensures ParseMidiMessage(Some([(bytes[0] & 0xF0) | channel] + bytes[1..])) == ParseMidiMessage(Some(bytes))
  {
    var other := [(bytes[0] & 0xF0) | channel] + bytes[1..];
    assert ((bytes[0] & 0xF0) | channel) & 0xF0 == bytes[0] & 0xF0;
    assert Status(other) == Status(bytes);
    assert ByteAt(other, 1) == ByteAt(bytes, 1) && ByteAt(other, 2) == ByteAt(bytes, 2);
  }

  /** A note-off status with fewer than three bytes still gives a message:
      with no velocity, and with no note number the note is "undefinedNaN". */
  lemma ShortNoteOff()
    ensures ParseMidiMessage(Some([0x80])) == Some(MidiMessage(NoteOff, UNDEFINED_NOTE, None))
    ensures ParseMidiMessage(Some([0x85, 60])) == Some(MidiMessage(NoteOff, "C4", None))
    ensures ParseMidiMessage(Some([0x90, 60])) == None
    ensures ParseMidiMessage(Some([])) == None
    ensures ParseMidiMessage(None) == None
  {
    ParseMidiNoteExamples();
  }

  // ---------------------------------------------------------------------
  // The redundant-note-on filter.

  /** The filter's per-note state: `true` is 'on', `false` is 'off', and a
      note never seen is absent (which is not 'on'). */
  predicate IsOn(noteState: map<string, bool>, note: string) {
    note in noteState && noteState[note]
  }

  /** One message through the filter: a note-on for a note already 'on'
      becomes a note-off. Afterwards the note's state is 'on' exactly when
      the message let through is a note-on; no other note changes. */
  function Filter(noteState: map<string, bool>, m: MidiMessage): (r: (map<string, bool>, MidiMessage))
    ensures r.1.note == m.note && r.1.velocity == m.velocity
    ensures r.1.command == NoteOn <==> m.command == NoteOn && !IsOn(noteState, m.note)
    ensures r.0 == noteState[m.note := r.1.command == NoteOn]
  {
    if m.command == NoteOn then
      if IsOn(noteState, m.note) then (noteState[m.note := false], m.(command := NoteOff))
      else (noteState[m.note := true], m)
    else (noteState[m.note := false], m)
  }

  /** The messages a sequence of parsed messages comes out as. */
  function Normalize(noteState: map<string, bool>, ms: seq<MidiMessage>): (r: seq<MidiMessage>)
    ensures |r| == |ms|
    decreases |ms|
  {
    if ms == [] then []
    else
      var (next, out) := Filter(noteState, ms[0]);
      [out] + Normalize(next, ms[1..])
  }

  /** In `ms`, the note-ons and note-offs of `note` alternate: no note-on
      follows a note-on (or a starting 'on' state) without a note-off between. */
  predicate Alternates(on: bool, note: string, ms: seq<MidiMessage>)
    decreases |ms|
  {
    if ms == [] then true
    else if ms[0].note != note then Alternates(on, note, ms[1..])
    else if ms[0].command == NoteOn then !on && Alternates(true, note, ms[1..])
    else Alternates(false, note, ms[1..])
  }

  /** Whatever comes in, what comes out alternates for every note. */
  lemma {:induction false} NormalizeAlternates(noteState: map<string, bool>, ms: seq<MidiMessage>, note: string)
    ensures Alternates(IsOn(noteState, note), note, Normalize(noteState, ms))
    decreases |ms|
  {
    if ms != [] {
      var (next, out) := Filter(noteState, ms[0]);
      NormalizeAlternates(next, ms[1..], note);
      assert Normalize(noteState, ms)[1..] == Normalize(next, ms[1..]);
    }
  }

  /** The filter changes nothing for a device that never repeats a note-on. */
  lemma {:induction false} NormalizeKeepsAlternating(noteState: map<string, bool>, ms: seq<MidiMessage>)
    requires forall n :: Alternates(IsOn(noteState, n), n, ms)
    ensures Normalize(noteState, ms) == ms
    decreases |ms|
  {
    if ms != [] {
      var m := ms[0];
      var (next, out) := Filter(noteState, m);
      assert Alternates(IsOn(noteState, m.note), m.note, ms);
      assert out == m;
      forall n ensures Alternates(IsOn(next, n), n, ms[1..]) {
        assert Alternates(IsOn(noteState, n), n, ms);
      }
      NormalizeKeepsAlternating(next, ms[1..]);
    }
  }

  /** The only change the filter makes is turning a note-on into a note-off. */
  lemma {:induction false} NormalizeOnlyTurnsOnsOff(noteState: map<string, bool>, ms: seq<MidiMessage>)
    ensures forall i :: 0 <= i < |ms| ==>
      Normalize(noteState, ms)[i] == ms[i] ||
      (ms[i].command == NoteOn && Normalize(noteState, ms)[i] == ms[i].(command := NoteOff))
    decreases |ms|
  {
    if ms != [] {
      var (next, out) := Filter(noteState, ms[0]);
      NormalizeOnlyTurnsOnsOff(next, ms[1..]);
      var r := Normalize(noteState, ms);
      forall i | 1 <= i < |ms|
        ensures r[i] == ms[i] || (ms[i].command == NoteOn && r[i] == ms[i].(command := NoteOff))
      {
        assert r[i] == Normalize(next, ms[1..])[i - 1];
      }
    }
  }

  /** on, on comes out as on, off; on, off, on comes out unchanged. */
  lemma RedundantOnExamples(noteState: map<string, bool>, note: string, v: bv8)
    requires !IsOn(noteState, note)
    ensures var on, off := MidiMessage(NoteOn, note, Some(v)), MidiMessage(NoteOff, note, Some(v));
      Normalize(noteState, [on, on]) == [on, off] &&
      Normalize(noteState, [on, off, on]) == [on, off, on]
  {
    var on, off := MidiMessage(NoteOn, note, Some(v)), MidiMessage(NoteOff, note, Some(v));
    var s1 := noteState[note := true];
    var s2 := s1[note := false];
    assert Normalize(s1, [on]) == [off];
    assert Normalize(s2, [on]) == [on];
    assert Normalize(s1, [off, on]) == [off, on];
  }

  /** The input currently listened to: its `noteState` dictionary, created
      empty when the input is chosen. */
  class MidiInput {
    var noteState: map<string, bool>

    constructor ()
      ensures noteState == map[]
    {
      noteState := map[];
    }

    /** `onmidimessage`: parse the message, drop it if it does not parse,
        otherwise pass it through the filter; the result is what the
        listeners receive. */
    method OnMidiMessage(data: Option<seq<bv8>>) returns (out: Option<MidiMessage>)
      modifies this
      ensures ParseMidiMessage(data).None? ==> out.None? && noteState == old(noteState)
      ensures ParseMidiMessage(data).Some? ==>
                var (next, m) := Filter(old(noteState), ParseMidiMessage(data).value);
                out == Some(m) && noteState == next
    {
      var parsed := ParseMidiMessage(data);
      if parsed.None? {
        return None;
      }
      var m := parsed.value;
      if m.command == NoteOn {
        if m.note in noteState && noteState[m.note] {
          noteState := noteState[m.note := false];
          m := m.(command := NoteOff);
        } else {
          noteState := noteState[m.note := true];
        }
      } else {
        noteState := noteState[m.note := false];
      }
      out := Some(m);
    }
  }
}
