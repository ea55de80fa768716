/** Computer-keyboard input (keyboard.js: bindKeyboard). The `keyState`
    dictionary, keyed by note name, remembers which notes are held so that
    the operating system's key repeat does not play a note again. */
module Keyboard {
  import opened Wrappers
  import opened KeyTables

  datatype KeyEvent = KeyDown(code: string) | KeyUp(code: string)

  /** What a handler does: call playNote, call releaseNote, or nothing. */
  datatype Action = Play(note: string) | Release(note: string) | Ignore

  predicate Held(keyState: map<string, bool>, note: string) {
    note in keyState && keyState[note]
  }

  /** One key event. A keydown of a mapped code plays its note unless the
      note is held, and marks it held; a keyup of a mapped code marks its
      note released and releases it; an unmapped code changes nothing. */
  function KeyStep(keyState: map<string, bool>, e: KeyEvent): (r: (map<string, bool>, Action))
    ensures e.code !in KEY_CODE_NOTES ==> r == (keyState, Ignore)
    ensures r.1.Play? <==> e.KeyDown? && e.code in KEY_CODE_NOTES && !Held(keyState, KEY_CODE_NOTES[e.code])
    ensures r.1.Release? <==> e.KeyUp? && e.code in KEY_CODE_NOTES
    ensures r.1.Play? ==> r.1.note == KEY_CODE_NOTES[e.code] && r.0 == keyState[r.1.note := true]
    ensures r.1.Release? ==> r.1.note == KEY_CODE_NOTES[e.code] && r.0 == keyState[r.1.note := false]
    ensures r.1.Ignore? ==> r.0 == keyState
  {
    match e
    case KeyDown(code) =>
      if code !in KEY_CODE_NOTES then (keyState, Ignore)
      else
        KeyCodeNotesAreValidKeys();
        if IsValidKey(KEY_CODE_NOTES[code]) && !Held(keyState, KEY_CODE_NOTES[code]) then
          (keyState[KEY_CODE_NOTES[code] := true], Play(KEY_CODE_NOTES[code]))
        else (keyState, Ignore)
    case KeyUp(code) =>
      if code in KEY_CODE_NOTES then (keyState[KEY_CODE_NOTES[code] := false], Release(KEY_CODE_NOTES[code]))
      else (keyState, Ignore)
  }

  /** `key in VALID_KEYS`. */
  predicate IsValidKey(key: string) {
    key in VALID_KEYS
  }

  /** The actions a sequence of key events causes. */
  function KeyRun(keyState: map<string, bool>, events: seq<KeyEvent>): (r: seq<Action>)
    ensures |r| == |events|
    decreases |events|
  {
    if events == [] then []
    else
      var (next, action) := KeyStep(keyState, events[0]);
      [action] + KeyRun(next, events[1..])
  }

  /** The number of times `note` is played in `actions`. */
  function Plays(note: string, actions: seq<Action>): nat
    decreases |actions|
  {
    if actions == [] then 0
    else (if actions[0] == Play(note) then 1 else 0) + Plays(note, actions[1..])
  }

  /** In `actions`, `note` is never played twice (or played while it starts
      out held) without being released in between. */
  predicate PlaysAlternate(held: bool, note: string, actions: seq<Action>)
    decreases |actions|
  {
    if actions == [] then true
    else if actions[0] == Play(note) then !held && PlaysAlternate(true, note, actions[1..])
    else if actions[0] == Release(note) then PlaysAlternate(false, note, actions[1..])
    else PlaysAlternate(held, note, actions[1..])
  }

  /** Every run of key events plays each note only after it was released. */
  lemma {:induction false} KeyRunAlternates(keyState: map<string, bool>, events: seq<KeyEvent>, note: string)
    ensures PlaysAlternate(Held(keyState, note), note, KeyRun(keyState, events))
    decreases |events|
  {
    if events != [] {
      var (next, action) := KeyStep(keyState, events[0]);
      KeyRunAlternates(next, events[1..], note);
      assert KeyRun(keyState, events)[1..] == KeyRun(next, events[1..]);
    }
  }

  /** `n` keydowns of `code`, as key repeat delivers them. */
  function KeyDowns(code: string, n: nat): (r: seq<KeyEvent>)
    ensures |r| == n
  {
    if n == 0 then [] else [KeyDown(code)] + KeyDowns(code, n - 1)
  }

  /** Keydowns of one code with no keyup between (key repeat) play its note
      at most once, and exactly once when the note was not held before. */
  lemma {:induction false} KeyRepeatPlaysOnce(keyState: map<string, bool>, code: string, n: nat)
    requires code in KEY_CODE_NOTES
    ensures Plays(KEY_CODE_NOTES[code], KeyRun(keyState, KeyDowns(code, n)))
              == if n > 0 && !Held(keyState, KEY_CODE_NOTES[code]) then 1 else 0
    decreases n
  {
    if n > 0 {
      var (next, action) := KeyStep(keyState, KeyDown(code));
      assert Held(next, KEY_CODE_NOTES[code]);
      HeldRepeatPlaysNothing(next, code, n - 1);
    }
  }

  lemma {:induction false} HeldRepeatPlaysNothing(keyState: map<string, bool>, code: string, n: nat)
    requires code in KEY_CODE_NOTES && Held(keyState, KEY_CODE_NOTES[code])
    ensures Plays(KEY_CODE_NOTES[code], KeyRun(keyState, KeyDowns(code, n))) == 0
    decreases n
  {
    if n > 0 {
      HeldRepeatPlaysNothing(keyState, code, n - 1);
    }
  }

  /** Events for codes outside the key map change nothing and do nothing. */
  lemma {:induction false} UnmappedCodesIgnored(keyState: map<string, bool>, events: seq<KeyEvent>)
    requires forall i :: 0 <= i < |events| ==> events[i].code !in KEY_CODE_NOTES
    ensures forall i :: 0 <= i < |events| ==> KeyRun(keyState, events)[i] == Ignore
    decreases |events|
  {
    if events != [] {
      UnmappedCodesIgnored(keyState, events[1..]);
      var r := KeyRun(keyState, events);
      forall i | 1 <= i < |events| ensures r[i] == Ignore {
        assert r[i] == KeyRun(keyState, events[1..])[i - 1];
      }
    }
  }

  /** bindKeyboard's listeners and their `keyState` dictionary. */
  class KeyboardInput {
    var keyState: map<string, bool>

    constructor ()
      ensures keyState == map[]
    {
      keyState := map[];
    }

    /** The keydown listener; `played` is the note passed to playNote. */
    method KeyDown(code: string) returns (played: Option<string>)
      modifies this
      ensures var (next, action) := KeyStep(old(keyState), KeyEvent.KeyDown(code));
        keyState == next && played == (if action.Play? then Some(action.note) else None)
    {
      if code !in KEY_CODE_NOTES {
        return None;
      }
      var key := KEY_CODE_NOTES[code];
      KeyCodeNotesAreValidKeys();
      if key in VALID_KEYS && !(key in keyState && keyState[key]) {
        keyState := keyState[key := true];
        return Some(key);
      }
      return None;
    }

    /** The keyup listener; `released` is the note passed to releaseNote. */
    method KeyUp(code: string) returns (released: Option<string>)
      modifies this
      ensures var (next, action) := KeyStep(old(keyState), KeyEvent.KeyUp(code));
        keyState == next && released == (if action.Release? then Some(action.note) else None)
    {
      if code in KEY_CODE_NOTES {
        var key := KEY_CODE_NOTES[code];
        keyState := keyState[key := false];
        return Some(key);
      }
      return None;
    }
  }
}
