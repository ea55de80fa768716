/** The wiring of keyboard.js: the keydown and keyup listeners of
    bindKeyboard and the MIDI listener of initMidi pass their notes to
    playNote and releaseNote. */
module Piano {
  import opened Wrappers
  import opened Midi
  import opened Keyboard
  import Voices
  import opened AudioEngine
  import opened KeyTables
  import Memo

  /** playNote's default velocity, used when the caller passes none. */
  const DEFAULT_VELOCITY: nat := 128

  /** The velocity playNote plays with: the message's, or the default when
      it is `undefined`. */
  function PlayVelocity(velocity: Option<bv8>): (r: nat)
    ensures velocity.Some? ==> r == velocity.value as nat && r < 256
    ensures velocity.None? ==> r == DEFAULT_VELOCITY
  {
    match velocity
    case Some(v) => v as nat
    case None => DEFAULT_VELOCITY
  }

  class Piano {
    const keyboard: KeyboardInput
    const midi: MidiInput
    const player: Player

    ghost predicate Valid()
      reads this, player, player.cache
    {
      player.Inv()
    }

    /** `init`: initAudio requests the samples of all 88 keys before any
        listener is bound, so the page starts with exactly those 88 requests
        and nothing active or playing. */
    constructor ()
      ensures Valid() && fresh(keyboard) && fresh(midi) && fresh(player) && fresh(player.cache)
      ensures keyboard.keyState == map[] && midi.noteState == map[]
      ensures player.State() == Voices.INITIAL.(requests := player.cache.mem)
      ensures forall k :: k in player.cache.mem <==> k in KEY_OCTAVES_STR
      ensures forall k :: k in player.cache.mem ==> player.cache.mem[k] == Voices.AudioRequest(Memo.OneArg(k))
    {
      keyboard := new KeyboardInput();
      midi := new MidiInput();
      player := new Player();
      new;
      player.InitAudio();
    }

    /** The keydown listener: a note that starts playing goes to playNote
        with the default velocity. */
    method OnKeyDown(code: string)
      requires Valid()
      modifies keyboard, player, player.cache
      ensures Valid()
      ensures var (next, action) := KeyStep(old(keyboard.keyState), KeyEvent.KeyDown(code));
              keyboard.keyState == next &&
              player.State() == (if action.Play? then Voices.PlayNote(old(player.State()), action.note, DEFAULT_VELOCITY)
                                 else old(player.State()))
    {
      var played := keyboard.KeyDown(code);
      if played.Some? {
        player.PlayNote(played.value, DEFAULT_VELOCITY);
      }
    }

    /** The keyup listener: a mapped code's note goes to releaseNote. */
    method OnKeyUp(code: string)
      requires Valid()
      modifies keyboard, player
      ensures Valid()
      ensures var (next, action) := KeyStep(old(keyboard.keyState), KeyEvent.KeyUp(code));
              keyboard.keyState == next &&
              player.State() == (if action.Release? then Voices.ReleaseNote(old(player.State()), action.note)
                                 else old(player.State()))
    {
      var released := keyboard.KeyUp(code);
      if released.Some? {
        player.ReleaseNote(released.value);
      }
    }

    /** A MIDI message through `onmidimessage` and the listener of initMidi:
        note-on plays with the message's velocity, note-off releases. */
    method OnMidiMessage(data: Option<seq<bv8>>)
      requires Valid()
      modifies midi, player, player.cache
      ensures Valid()
      ensures ParseMidiMessage(data).None? ==> midi.noteState == old(midi.noteState) && player.State() == old(player.State())
      ensures ParseMidiMessage(data).Some? ==>
                var (next, m) := Filter(old(midi.noteState), ParseMidiMessage(data).value);
                midi.noteState == next &&
                player.State() == (if m.command == NoteOn then Voices.PlayNote(old(player.State()), m.note, PlayVelocity(m.velocity))
                                   else Voices.ReleaseNote(old(player.State()), m.note))
    {
      var out := midi.OnMidiMessage(data);
      if out.Some? {
        var m := out.value;
        if m.command == NoteOn {
          player.PlayNote(m.note, PlayVelocity(m.velocity));
        } else {
          player.ReleaseNote(m.note);
        }
      }
    }
  }

  /** A note-on that reaches playNote from MIDI always carries the
      message's own velocity byte, which is above 0: the default velocity
      is never used for MIDI. */
  lemma MidiNoteOnVelocity(noteState: map<string, bool>, data: Option<seq<bv8>>)
    requires ParseMidiMessage(data).Some?
    ensures var (_, m) := Filter(noteState, ParseMidiMessage(data).value);
            m.command == NoteOn ==> m.velocity.Some? && 0 < PlayVelocity(m.velocity) < 256
  {
  }
}
