/** Note names and MIDI note numbers (keyboard.js: KEYS, parseMidiNote).

    A note is named by its pitch class followed by its octave in decimal,
    "C4" or "Bb0". The per-note dictionaries of keyboard.js (`keyState`,
    `noteState`, `state.keyActive`, `gainNodes`, VALID_KEYS and the
    memoized requests) are keyed by such a name. */
module Notes {
  import opened Wrappers

  /** The twelve pitch-class names, in semitone order starting from C. */
  const KEYS: seq<string> := ["C", "Db", "D", "Eb", "E", "F", "Gb", "G", "Ab", "A", "Bb", "B"]

  /** The lowest MIDI note number with a name: 21 is A0, the lowest piano key. */
  const LOWEST_MIDI_NOTE: int := 21

  lemma KeysDistinct()
    ensures |KEYS| == 12
    ensures forall i, j :: 0 <= i < j < 12 ==> KEYS[i] != KEYS[j]
  {
  }

  predicate IsDigit(c: char) {
    '0' <= c <= '9'
  }

  predicate AllDigits(s: string) {
    forall i :: 0 <= i < |s| ==> IsDigit(s[i])
  }

  function DigitChar(d: nat): (c: char)
    requires d < 10
    ensures IsDigit(c) && c as int - '0' as int == d
  {
    ('0' as int + d) as char
  }

  /** `String(n)` for a natural number: its decimal digits, most significant first. */
  function Decimal(n: nat): (s: string)
    ensures |s| > 0 && AllDigits(s)
    decreases n
  {
    if n < 10 then [DigitChar(n)] else Decimal(n / 10) + [DigitChar(n % 10)]
  }

  /** The value of a string of decimal digits. */
  function ParseDecimal(s: string): nat
    requires AllDigits(s)
  {
    if s == [] then 0
    else 10 * ParseDecimal(s[..|s| - 1]) + (s[|s| - 1] as int - '0' as int)
  }

  /** Reading back what Decimal writes gives the number again. */
  lemma {:induction false} DecimalRoundTrip(n: nat)
    ensures ParseDecimal(Decimal(n)) == n
    decreases n
  {
    if n >= 10 {
      var s := Decimal(n);
      assert s[..|s| - 1] == Decimal(n / 10);
      DecimalRoundTrip(n / 10);
    }
  }

  /** The position of the first `x` in `xs`. */
  function IndexOf(xs: seq<string>, x: string): (r: Option<nat>)
    ensures r.Some? ==> r.value < |xs| && xs[r.value] == x && x !in xs[..r.value]
    ensures r.None? <==> x !in xs
  {
    if xs == [] then None
    else if xs[0] == x then Some(0)
    else match IndexOf(xs[1..], x)
      case None => None
      case Some(i) => assert xs[1..][..i] == xs[1..i + 1]; Some(i + 1)
  }

  /** The name of the key with pitch class `step` in octave `octave`:
      `KEYS[step] + String(octave)`. */
  function NoteName(step: nat, octave: nat): string
    requires step < 12
  {
    KEYS[step] + Decimal(octave)
  }

  /** parseMidiNote: a MIDI note number becomes a note name, with the octave
      `floor(value / 12) - 1` and the pitch class `value mod 12`; numbers
      below 21 have no name. */
  function ParseMidiNote(value: int): (r: Option<string>)
    ensures r.None? <==> value < LOWEST_MIDI_NOTE
  {
    if value < LOWEST_MIDI_NOTE then None
    else Some(NoteName(value % 12, value / 12 - 1))
  }

  /** The inverse of ParseMidiNote: the MIDI note number a note name stands
      for, if the name is a pitch class followed by decimal digits. */
  function NoteNumber(name: string): Option<nat>
  {
    var split := if |name| >= 2 && name[1] == 'b' then 2 else 1;
    if |name| <= split || !AllDigits(name[split..]) then None
    else match IndexOf(KEYS, name[..split])
      case None => None
      case Some(step) => Some(12 * (ParseDecimal(name[split..]) + 1) + step)
  }

  /** A name built from a pitch class and an octave reads back as both. */
  lemma NoteNameRoundTrip(step: nat, octave: nat, value: nat)
    requires step < 12 && value == 12 * (octave + 1) + step
    ensures NoteNumber(NoteName(step, octave)) == Some(value)
  {
    KeysDistinct();
    var name := NoteName(step, octave);
    var key, digits := KEYS[step], Decimal(octave);
    assert name == key + digits;
    var split := |key|;
    assert split == 1 || split == 2;
    assert split == 2 ==> name[1] == 'b';
    assert split == 1 ==> name[1] == digits[0] && IsDigit(name[1]);
    assert name[..split] == key;
    assert name[split..] == digits;
    DecimalRoundTrip(octave);
    var idx := IndexOf(KEYS, key);
    assert key in KEYS;
    assert idx == Some(step);
  }

  /** Every name ParseMidiNote produces reads back as the number it came from. */
  lemma ParseMidiNoteRoundTrip(value: int)
    requires value >= LOWEST_MIDI_NOTE
    ensures ParseMidiNote(value).Some?
    ensures NoteNumber(ParseMidiNote(value).value) == Some(value)
  {
    var step, octave := DivModTwelve(value);
    NoteNameRoundTrip(step, octave, value);
  }

  /** A note number from 21 on splits into a pitch class and an octave,
      the ones ParseMidiNote names. */
  lemma DivModTwelve(value: int) returns (step: nat, octave: nat)
    requires value >= LOWEST_MIDI_NOTE
    ensures step < 12 && value == 12 * (octave + 1) + step
    ensures ParseMidiNote(value) == Some(NoteName(step, octave))
  {
    step, octave := value % 12, value / 12 - 1;
  }

  /** Distinct MIDI note numbers (from 21 on) get distinct names. */
  lemma ParseMidiNoteInjective(v1: int, v2: int)
    requires v1 >= LOWEST_MIDI_NOTE && v2 >= LOWEST_MIDI_NOTE
    requires ParseMidiNote(v1) == ParseMidiNote(v2)
    ensures v1 == v2
  {
    ParseMidiNoteRoundTrip(v1);
    ParseMidiNoteRoundTrip(v2);
  }

  /** The examples the comment in parseMidiNote gives, and middle C. */
  lemma ParseMidiNoteExamples()
    ensures ParseMidiNote(24) == Some("C1")
    ensures ParseMidiNote(36) == Some("C2")
    ensures ParseMidiNote(60) == Some("C4")
    ensures ParseMidiNote(21) == Some("A0")
    ensures ParseMidiNote(20) == None
  {
    assert DigitChar(0) == '0' && DigitChar(1) == '1' && DigitChar(2) == '2' && DigitChar(4) == '4';
    assert NoteName(0, 1) == "C1" && NoteName(0, 2) == "C2" && NoteName(0, 4) == "C4" && NoteName(9, 0) == "A0";
  }
}
