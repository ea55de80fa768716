/** The constant tables of keyboard.js: which physical key codes play which
    notes (KEY_NOTE_MAPPING, KEY_CODE_NOTES), the 88 keys of the piano
    (KEY_OCTAVES, KEY_OCTAVES_STR) and the set of valid note names
    (VALID_KEYS). */
module KeyTables {
  import opened Wrappers
  import opened Notes

  // The four rows of a computer keyboard, left to right, as KEY_NOTE_MAPPING
  // builds them with `map(prepend(...))` and `concat`.
  const DIGIT_ROW: seq<string> :=
    ["Digit1", "Digit2", "Digit3", "Digit4", "Digit5", "Digit6", "Digit7", "Digit8", "Digit9", "Digit0", "Minus", "Equal"]
  const TOP_ROW: seq<string> :=
    ["KeyQ", "KeyW", "KeyE", "KeyR", "KeyT", "KeyY", "KeyU", "KeyI", "KeyO", "KeyP", "BracketLeft", "BracketRight"]
  const MID_ROW: seq<string> :=
    ["KeyA", "KeyS", "KeyD", "KeyF", "KeyG", "KeyH", "KeyJ", "KeyK", "KeyL", "Semicolon", "Quote", "Enter"]
  const BOTTOM_ROW: seq<string> :=
    ["ShiftLeft", "KeyZ", "KeyX", "KeyC", "KeyV", "KeyB", "KeyN", "KeyM", "Comma", "Period", "Slash", "ShiftRight"]

  /** KEY_NOTE_MAPPING, in the order Object.keys lists it: octave => row of key codes. */
  const KEY_ROWS: seq<(nat, seq<string>)> :=
    [(2, DIGIT_ROW), (3, TOP_ROW), (4, MID_ROW), (5, BOTTOM_ROW)]

  /** `KEYS[i]`, which is `undefined` past the twelfth pitch class. */
  function KeyAt(i: nat): string {
    if i < 12 then KEYS[i] else "undefined"
  }

  /** One row's `[key, KEYS[i] + octave]` pairs. */
  function RowPairs(octave: nat, codes: seq<string>): (r: seq<(string, string)>)
    ensures |r| == |codes|
  {
    seq(|codes|, i requires 0 <= i < |codes| => (codes[i], KeyAt(i) + Decimal(octave)))
  }

  /** flatMap of RowPairs over the rows. */
  function FlatPairs(rows: seq<(nat, seq<string>)>): seq<(string, string)>
  {
    if rows == [] then [] else RowPairs(rows[0].0, rows[0].1) + FlatPairs(rows[1..])
  }

  /** The `reduce` that writes each pair into a dictionary, left to right. */
  function PairsToMap(pairs: seq<(string, string)>): map<string, string>
  {
    if pairs == [] then map[]
    else PairsToMap(pairs[..|pairs| - 1])[pairs[|pairs| - 1].0 := pairs[|pairs| - 1].1]
  }

  /** A code is mapped exactly when some pair has it, and to the value of the
      last pair that has it. */
  lemma {:induction false} PairsToMapLookup(pairs: seq<(string, string)>)
    ensures forall k :: k in PairsToMap(pairs) <==> exists i :: 0 <= i < |pairs| && pairs[i].0 == k
    ensures forall i :: 0 <= i < |pairs| && (forall j :: i < j < |pairs| ==> pairs[j].0 != pairs[i].0) ==>
              pairs[i].0 in PairsToMap(pairs) && PairsToMap(pairs)[pairs[i].0] == pairs[i].1
    decreases |pairs|
  {
    if pairs != [] {
      var n := |pairs| - 1;
      var front, last := pairs[..n], pairs[n];
      PairsToMapLookup(front);
      var m, m' := PairsToMap(front), PairsToMap(pairs);
      assert m' == m[last.0 := last.1];
      forall k
        ensures k in m' <==> exists i :: 0 <= i < |pairs| && pairs[i].0 == k
      {
        if k in m' && k != last.0 {
          var i :| 0 <= i < |front| && front[i].0 == k;
          assert pairs[i].0 == k;
        }
        if k !in m' {
          forall i | 0 <= i < |pairs| ensures pairs[i].0 != k {
            if i < n { assert front[i] == pairs[i]; }
          }
        }
      }
      forall i | 0 <= i < |pairs| && (forall j :: i < j < |pairs| ==> pairs[j].0 != pairs[i].0)
        ensures pairs[i].0 in m' && m'[pairs[i].0] == pairs[i].1
      {
        if i < n {
          assert front[i] == pairs[i];
          assert pairs[i].0 != last.0;
          assert forall j :: i < j < |front| ==> front[j] == pairs[j];
        }
      }
    }
  }

  /** KEY_CODE_NOTES: physical key code => note name. */
  const KEY_CODE_NOTES: map<string, string> := PairsToMap(FlatPairs(KEY_ROWS))

  /** The pitch classes of one full octave, `KEYS.map(key => [key, octave])`. */
  function OctaveKeys(octave: nat): (r: seq<(string, nat)>)
    ensures |r| == 12
  {
    seq(12, i requires 0 <= i < 12 => (KEYS[i], octave))
  }

  /** flatMap of OctaveKeys over a list of octaves. */
  function FlatOctaves(octaves: seq<nat>): seq<(string, nat)>
  {
    if octaves == [] then [] else OctaveKeys(octaves[0]) + FlatOctaves(octaves[1..])
  }

  /** KEY_OCTAVES: the 88 piano keys as [pitch class, octave], lowest first. */
  const KEY_OCTAVES: seq<(string, nat)> :=
    [("A", 0), ("Bb", 0), ("B", 0)] + FlatOctaves([1, 2, 3, 4, 5, 6, 7]) + [("C", 8)]

  /** KEY_OCTAVES_STR: the names of the 88 keys. */
  const KEY_OCTAVES_STR: seq<string> := JoinNames(KEY_OCTAVES)

  /** `keyOctaves.map(([key, octave]) => key + octave)`. */
  function JoinNames(keyOctaves: seq<(string, nat)>): (r: seq<string>)
    ensures |r| == |keyOctaves|
    ensures forall i :: 0 <= i < |r| ==> r[i] == keyOctaves[i].0 + Decimal(keyOctaves[i].1)
  {
    if keyOctaves == [] then []
    else [keyOctaves[0].0 + Decimal(keyOctaves[0].1)] + JoinNames(keyOctaves[1..])
  }

  /** The `reduce` that records each name of a list as a key of a dictionary. */
  function NameSet(names: seq<string>): (r: set<string>)
    ensures forall x :: x in r <==> x in names
  {
    if names == [] then {} else NameSet(names[..|names| - 1]) + {names[|names| - 1]}
  }

  /** VALID_KEYS: the set of the 88 key names. */
  const VALID_KEYS: set<string> := NameSet(KEY_OCTAVES_STR)

  lemma {:induction false} FlatOctavesAt(octaves: seq<nat>, k: nat)
    requires k < 12 * |octaves|
    ensures |FlatOctaves(octaves)| == 12 * |octaves|
    ensures FlatOctaves(octaves)[k] == (KEYS[k % 12], octaves[k / 12])
    decreases |octaves|
  {
    var head, tail := OctaveKeys(octaves[0]), FlatOctaves(octaves[1..]);
    assert FlatOctaves(octaves) == head + tail;
    if k < 12 {
      FlatOctavesLength(octaves[1..]);
      assert k / 12 == 0 && k % 12 == k;
      assert (head + tail)[k] == head[k];
    } else {
      FlatOctavesAt(octaves[1..], k - 12);
      assert (k - 12) / 12 == k / 12 - 1 && (k - 12) % 12 == k % 12;
      assert (head + tail)[k] == tail[k - 12];
      assert octaves[1..][k / 12 - 1] == octaves[k / 12];
    }
  }

  lemma {:induction false} FlatOctavesLength(octaves: seq<nat>)
    ensures |FlatOctaves(octaves)| == 12 * |octaves|
    decreases |octaves|
  {
    if octaves != [] {
      FlatOctavesLength(octaves[1..]);
    }
  }

  /** KEY_OCTAVES has 88 entries: A0, Bb0, B0, then every pitch class of
      octaves 1 to 7 in order, then C8. */
  lemma KeyOctavesLayout()
    ensures |KEY_OCTAVES| == 88
    ensures KEY_OCTAVES[..3] == [("A", 0), ("Bb", 0), ("B", 0)]
    ensures forall k :: 3 <= k < 87 ==> KEY_OCTAVES[k] == (KEYS[(k - 3) % 12], (k - 3) / 12 + 1)
    ensures KEY_OCTAVES[87] == ("C", 8)
  {
    var full: seq<nat> := [1, 2, 3, 4, 5, 6, 7];
    FlatOctavesLength(full);
    forall k | 3 <= k < 87
      ensures KEY_OCTAVES[k] == (KEYS[(k - 3) % 12], (k - 3) / 12 + 1)
    {
      FlatOctavesAt(full, k - 3);
    }
  }

  /** The i-th key of the piano is MIDI note 21 + i, named as parseMidiNote names it. */
  lemma KeyOctavesAreMidiNotes()
    ensures |KEY_OCTAVES_STR| == 88
    ensures forall j :: 0 <= j < 88 ==> ParseMidiNote(LOWEST_MIDI_NOTE + j) == Some(KEY_OCTAVES_STR[j])
  {
    KeyOctavesLayout();
    forall j | 0 <= j < 88
      ensures ParseMidiNote(LOWEST_MIDI_NOTE + j) == Some(KEY_OCTAVES_STR[j])
    {
      var v := LOWEST_MIDI_NOTE + j;
      if j < 3 {
        assert KEY_OCTAVES[j] == [("A", 0), ("Bb", 0), ("B", 0)][j];
        assert v / 12 - 1 == 0 && v % 12 == j + 9;
      } else if j < 87 {
        assert v % 12 == (j - 3) % 12 && v / 12 - 1 == (j - 3) / 12 + 1;
      } else {
        assert v % 12 == 0 && v / 12 - 1 == 8;
      }
    }
  }

  /** A MIDI note number names a valid key exactly when it is a piano key, 21 to 108. */
  lemma ValidKeysAreMidiRange(v: int)
    ensures (ParseMidiNote(v).Some? && ParseMidiNote(v).value in VALID_KEYS) <==> LOWEST_MIDI_NOTE <= v <= 108
  {
    KeyOctavesAreMidiNotes();
    if LOWEST_MIDI_NOTE <= v <= 108 {
      assert ParseMidiNote(v) == Some(KEY_OCTAVES_STR[v - LOWEST_MIDI_NOTE]);
    }
    if ParseMidiNote(v).Some? && ParseMidiNote(v).value in VALID_KEYS {
      var j :| 0 <= j < 88 && KEY_OCTAVES_STR[j] == ParseMidiNote(v).value;
      ParseMidiNoteInjective(v, LOWEST_MIDI_NOTE + j);
    }
  }

  /** The 88 key names are pairwise distinct. */
  lemma KeyNamesDistinct()
    ensures |VALID_KEYS| == 88
    ensures forall i, j :: 0 <= i < j < |KEY_OCTAVES_STR| ==> KEY_OCTAVES_STR[i] != KEY_OCTAVES_STR[j]
  {
    KeyOctavesAreMidiNotes();
    forall i, j | 0 <= i < j < |KEY_OCTAVES_STR|
      ensures KEY_OCTAVES_STR[i] != KEY_OCTAVES_STR[j]
    {
      if KEY_OCTAVES_STR[i] == KEY_OCTAVES_STR[j] {
        ParseMidiNoteInjective(LOWEST_MIDI_NOTE + i, LOWEST_MIDI_NOTE + j);
      }
    }
    DistinctCard(KEY_OCTAVES_STR);
    assert VALID_KEYS == set x | x in KEY_OCTAVES_STR;
  }

  lemma {:induction false} DistinctCard(s: seq<string>)
    requires forall i, j :: 0 <= i < j < |s| ==> s[i] != s[j]
    ensures |set x | x in s| == |s|
    decreases |s|
  {
    if s != [] {
      var rest := s[1..];
      DistinctCard(rest);
      assert (set x | x in s) == {s[0]} + (set x | x in rest);
      assert s[0] !in rest;
    }
  }

  predicate RowsDisjoint(a: seq<string>, b: seq<string>) {
    forall i, j :: 0 <= i < |a| && 0 <= j < |b| ==> a[i] != b[j]
  }

  predicate RowDistinct(a: seq<string>) {
    forall i, j :: 0 <= i < j < |a| ==> a[i] != a[j]
  }

  lemma RowsEachDistinct()
    ensures RowDistinct(DIGIT_ROW) && RowDistinct(TOP_ROW) && RowDistinct(MID_ROW) && RowDistinct(BOTTOM_ROW)
  {
  }

  lemma DigitRowDisjoint()
    ensures RowsDisjoint(DIGIT_ROW, TOP_ROW) && RowsDisjoint(DIGIT_ROW, MID_ROW) && RowsDisjoint(DIGIT_ROW, BOTTOM_ROW)
  {
  }

  lemma TopRowDisjoint()
    ensures RowsDisjoint(TOP_ROW, MID_ROW) && RowsDisjoint(TOP_ROW, BOTTOM_ROW)
  {
  }

  lemma MidRowDisjoint()
    ensures RowsDisjoint(MID_ROW, BOTTOM_ROW)
  {
  }

  /** No key code appears twice in KEY_NOTE_MAPPING. */
  lemma KeyCodesDistinct()
    ensures forall r :: 0 <= r < |KEY_ROWS| ==> |KEY_ROWS[r].1| == 12
    ensures forall r1, i1, r2, i2 ::
      0 <= r1 < |KEY_ROWS| && 0 <= i1 < 12 && 0 <= r2 < |KEY_ROWS| && 0 <= i2 < 12 && (r1, i1) != (r2, i2) ==>
        KEY_ROWS[r1].1[i1] != KEY_ROWS[r2].1[i2]
  {
    RowsEachDistinct();
    DigitRowDisjoint();
    TopRowDisjoint();
    MidRowDisjoint();
    forall r1, i1, r2, i2 |
      0 <= r1 < |KEY_ROWS| && 0 <= i1 < 12 && 0 <= r2 < |KEY_ROWS| && 0 <= i2 < 12 && (r1, i1) != (r2, i2)
      ensures KEY_ROWS[r1].1[i1] != KEY_ROWS[r2].1[i2]
    {
      var a, b := KEY_ROWS[r1].1, KEY_ROWS[r2].1;
      if r1 == r2 {
        assert RowDistinct(a);
      } else if r1 < r2 {
        assert RowsDisjoint(a, b);
      } else {
        assert RowsDisjoint(b, a);
      }
    }
  }

  lemma {:induction false} FlatPairsAt(rows: seq<(nat, seq<string>)>, k: nat)
    requires forall r :: 0 <= r < |rows| ==> |rows[r].1| == 12
    requires k < 12 * |rows|
    ensures |FlatPairs(rows)| == 12 * |rows|
    ensures FlatPairs(rows)[k] == (rows[k / 12].1[k % 12], KeyAt(k % 12) + Decimal(rows[k / 12].0))
    decreases |rows|
  {
    FlatPairsLength(rows);
    var head, tail := RowPairs(rows[0].0, rows[0].1), FlatPairs(rows[1..]);
    assert FlatPairs(rows) == head + tail;
    if k < 12 {
      assert k / 12 == 0 && k % 12 == k;
      assert (head + tail)[k] == head[k];
    } else {
      FlatPairsAt(rows[1..], k - 12);
      assert (k - 12) / 12 == k / 12 - 1 && (k - 12) % 12 == k % 12;
      assert (head + tail)[k] == tail[k - 12];
      assert rows[1..][k / 12 - 1] == rows[k / 12];
    }
  }

  lemma {:induction false} FlatPairsLength(rows: seq<(nat, seq<string>)>)
    requires forall r :: 0 <= r < |rows| ==> |rows[r].1| == 12
    ensures |FlatPairs(rows)| == 12 * |rows|
    decreases |rows|
  {
    if rows != [] {
      FlatPairsLength(rows[1..]);
    }
  }

  /** KEY_CODE_NOTES maps exactly the 48 codes of the four rows, the i-th code
      of the row for octave o to `KEYS[i] + o`. */
  lemma KeyCodeNotesRows()
    ensures forall r, i :: 0 <= r < |KEY_ROWS| && 0 <= i < 12 ==>
      KEY_ROWS[r].1[i] in KEY_CODE_NOTES && KEY_CODE_NOTES[KEY_ROWS[r].1[i]] == NoteName(i, KEY_ROWS[r].0)
    ensures forall c :: c in KEY_CODE_NOTES <==>
      exists r, i :: 0 <= r < |KEY_ROWS| && 0 <= i < 12 && KEY_ROWS[r].1[i] == c
  {
    KeyCodesDistinct();
    var pairs := FlatPairs(KEY_ROWS);
    FlatPairsLength(KEY_ROWS);
    PairsToMapLookup(pairs);
    forall r, i | 0 <= r < |KEY_ROWS| && 0 <= i < 12
      ensures KEY_ROWS[r].1[i] in KEY_CODE_NOTES && KEY_CODE_NOTES[KEY_ROWS[r].1[i]] == NoteName(i, KEY_ROWS[r].0)
    {
      var k := 12 * r + i;
      FlatPairsAt(KEY_ROWS, k);
      assert k / 12 == r && k % 12 == i;
      forall j | k < j < |pairs| ensures pairs[j].0 != pairs[k].0 {
        FlatPairsAt(KEY_ROWS, j);
      }
    }
    forall c | c in KEY_CODE_NOTES
      ensures exists r, i :: 0 <= r < |KEY_ROWS| && 0 <= i < 12 && KEY_ROWS[r].1[i] == c
    {
      var k :| 0 <= k < |pairs| && pairs[k].0 == c;
      FlatPairsAt(KEY_ROWS, k);
      assert KEY_ROWS[k / 12].1[k % 12] == c;
    }
  }

  /** Every note a key code plays is a valid key of the piano. */
  lemma KeyCodeNotesAreValidKeys()
    ensures forall c :: c in KEY_CODE_NOTES ==> KEY_CODE_NOTES[c] in VALID_KEYS
  {
    KeyCodeNotesRows();
    KeyOctavesLayout();
    forall c | c in KEY_CODE_NOTES ensures KEY_CODE_NOTES[c] in VALID_KEYS {
      var r, i :| 0 <= r < |KEY_ROWS| && 0 <= i < 12 && KEY_ROWS[r].1[i] == c;
      var o := KEY_ROWS[r].0;
      assert 2 <= o <= 5;
      var k := 3 + 12 * (o - 1) + i;
      assert (k - 3) % 12 == i && (k - 3) / 12 + 1 == o;
      assert KEY_OCTAVES_STR[k] == NoteName(i, o);
    }
  }
}
