/** Voice bookkeeping (keyboard.js: getAudioData, audioPath, playNote,
    playAudioData, releaseNote, the `onended` handler, initAudio).

    A voice is one buffer source with its own gain node. The Web Audio graph
    is not modelled: a voice records its note, the velocity it was played
    with, whether its gain was diminished (the release envelope started)
    and whether its source ended. `gainNodes[key]` names the voice of the
    newest gain node for a note, as an index into `voices`.

    Loading is asynchronous in the source. Here the memoized getAudioData
    requests are a map from note to request; the network's answer for a
    request arrives by `Settle`, and a `.then` continuation queued by
    playNote runs by `Resume` once its request has settled. */
module Voices {
  import opened Wrappers
  import opened Memo
  import opened KeyTables

  const AUDIO_PREFIX: string := "assets/audio/Piano.ff."
  const AUDIO_SUFFIX: string := ".ogg"

  /** audioPath: the sample file of a note. */
  function AudioPath(key: string): string {
    AUDIO_PREFIX + key + AUDIO_SUFFIX
  }

  /** The note a sample path names, if it is one. */
  function KeyOfPath(path: string): Option<string> {
    if |path| >= |AUDIO_PREFIX| + |AUDIO_SUFFIX| && path[..|AUDIO_PREFIX|] == AUDIO_PREFIX
       && path[|path| - |AUDIO_SUFFIX|..] == AUDIO_SUFFIX
    then Some(path[|AUDIO_PREFIX|..|path| - |AUDIO_SUFFIX|])
    else None
  }

  /** Every note has its own sample file: the path gives the note back. */
  lemma AudioPathRoundTrip(key: string)
    ensures KeyOfPath(AudioPath(key)) == Some(key)
  {
    var p := AudioPath(key);
    assert p[..|AUDIO_PREFIX|] == AUDIO_PREFIX;
    assert p[|p| - |AUDIO_SUFFIX|..] == AUDIO_SUFFIX;
    assert p[|AUDIO_PREFIX|..|p| - |AUDIO_SUFFIX|] == key;
  }

  /** What getAudioData's promise is made of: a rejection when the key is
      missing or empty (`!key`), otherwise a request for the sample file. */
  datatype Request = KeyMissing | Fetch(path: string)

  /** The function getAudioData memoizes. */
  function AudioRequest(args: Args): Request {
    match args
    case NoArgs => KeyMissing
    case OneArg(key) => if key == "" then KeyMissing else Fetch(AudioPath(key))
  }

  /** Two notes never share a request: a non-empty note fetches its own
      file, and only a missing or empty key is rejected outright. */
  lemma AudioRequestsDistinct(k1: string, k2: string)
    ensures AudioRequest(OneArg(k1)) == KeyMissing <==> k1 == ""
    ensures k1 != "" && k1 != k2 ==> AudioRequest(OneArg(k1)) != AudioRequest(OneArg(k2))
  {
    if k1 != "" && k2 != "" && AudioRequest(OneArg(k1)) == AudioRequest(OneArg(k2)) {
      AudioPathRoundTrip(k1);
      AudioPathRoundTrip(k2);
    }
  }

  /** A buffer source and its gain node. */
  datatype Voice = Voice(key: string, velocity: nat, diminished: bool, ended: bool)

  /** A `.then` continuation of playNote waiting for its load. */
  datatype Continuation = Continuation(key: string, velocity: nat)

  /** The state of a getAudioData promise. */
  datatype Settlement = Waiting | Resolved | Rejected

  /** The engine's state: `state.keyActive`, `gainNodes`, the voices made
      so far, the memoized requests, the network's answers (true: the
      sample was fetched and decoded) and the queued continuations. */
  datatype Engine = Engine(keyActive: map<string, bool>, gainNodes: map<string, nat>, voices: seq<Voice>,
                           requests: map<string, Request>, answers: map<string, bool>,
                           waiting: seq<Continuation>)

  /** The page as it starts: nothing active, nothing loaded. */
  const INITIAL: Engine := Engine(map[], map[], [], map[], map[], [])

  /** `state.keyActive[key]` is truthy. */
  predicate Active(e: Engine, key: string) {
    key in e.keyActive && e.keyActive[key]
  }

  /** The state of the promise for `key`. */
  function LoadStatus(e: Engine, key: string): Settlement
    requires key in e.requests
  {
    if e.requests[key].KeyMissing? then Rejected
    else if key !in e.answers then Waiting
    else if e.answers[key] then Resolved
    else Rejected
  }

  /** A voice of `key` at full gain: created and not yet diminished. */
  predicate Undiminished(voices: seq<Voice>, i: int, key: string) {
    0 <= i < |voices| && voices[i].key == key && !voices[i].diminished
  }

  /** Each gain node entry names a voice of its note, and every voice not
      yet diminished is the one its note's entry names; so a note has at
      most one voice at full gain. */
  predicate OneLive(voices: seq<Voice>, gainNodes: map<string, nat>) {
    (forall k :: k in gainNodes ==> gainNodes[k] < |voices| && voices[gainNodes[k]].key == k)
    && (forall i :: 0 <= i < |voices| && !voices[i].diminished ==>
          voices[i].key in gainNodes && gainNodes[voices[i].key] == i)
  }

  /** The engine's invariant: OneLive, and every queued continuation has
      its request. */
  predicate Valid(e: Engine) {
    OneLive(e.voices, e.gainNodes)
    && (forall c :: c in e.waiting ==> c.key in e.requests)
  }

  /** Under OneLive a note has at most one voice at full gain. */
  lemma {:induction false} AtMostOneUndiminished(voices: seq<Voice>, gainNodes: map<string, nat>, key: string, i: int, j: int)
    requires OneLive(voices, gainNodes)
    requires Undiminished(voices, i, key) && Undiminished(voices, j, key)
    ensures i == j
  {
    assert gainNodes[voices[i].key] == i;
    assert gainNodes[voices[j].key] == j;
  }

  /** diminishGain on the newest gain node of `key`, if it has one. */
  function Diminish(voices: seq<Voice>, gainNodes: map<string, nat>, key: string): (r: seq<Voice>)
    ensures |r| == |voices|
  {
    if key in gainNodes && gainNodes[key] < |voices| then
      voices[gainNodes[key] := voices[gainNodes[key]].(diminished := true)]
    else voices
  }

  /** playAudioData: diminish the note's previous gain node, then start a
      new voice and make its gain node the note's. */
  function PlayAudioData(e: Engine, key: string, velocity: nat): Engine {
    e.(voices := Diminish(e.voices, e.gainNodes, key) + [Voice(key, velocity, false, false)],
       gainNodes := e.gainNodes[key := |e.voices|])
  }

  /** playNote: mark the note active, request its sample (once per note),
      and queue the continuation that plays it. */
  function PlayNote(e: Engine, key: string, velocity: nat): Engine {
    e.(keyActive := e.keyActive[key := true],
       requests := Remember(AudioRequest, e.requests, OneArg(key)),
       waiting := e.waiting + [Continuation(key, velocity)])
  }

  /** The network answers the pending request for `key`. */
  function Settle(e: Engine, key: string, ok: bool): Engine
    requires key in e.requests && LoadStatus(e, key) == Waiting
  {
    e.(answers := e.answers[key := ok])
  }

  /** The continuation at `i` runs after its request settled: it plays the
      note only if the sample arrived and the note is still active. */
  function Resume(e: Engine, i: nat): Engine
    requires i < |e.waiting| && e.waiting[i].key in e.requests
    requires LoadStatus(e, e.waiting[i].key) != Waiting
  {
    var c := e.waiting[i];
    var rest := e.waiting[..i] + e.waiting[i + 1..];
    if LoadStatus(e, c.key) == Resolved && Active(e, c.key) then PlayAudioData(e, c.key, c.velocity).(waiting := rest)
    else e.(waiting := rest)
  }

  /** releaseNote: diminish the note's newest gain node if it has one.
      `keyActive` is left as it is. */
  function ReleaseNote(e: Engine, key: string): Engine {
    e.(voices := Diminish(e.voices, e.gainNodes, key))
  }

  /** A voice's source reaches its end: `onended` clears its note's
      `keyActive` flag. */
  function SourceEnded(e: Engine, i: nat): Engine
    requires i < |e.voices| && !e.voices[i].ended
  {
    e.(keyActive := e.keyActive[e.voices[i].key := false],
       voices := e.voices[i := e.voices[i].(ended := true)])
  }

  /** playAudioData leaves exactly one voice of the note at full gain, the
      new one, keeps OneLive, and touches no voice of another note. */
  lemma {:induction false} PlayAudioDataKeepsOneLive(e: Engine, key: string, velocity: nat)
    requires OneLive(e.voices, e.gainNodes)
    ensures OneLive(PlayAudioData(e, key, velocity).voices, PlayAudioData(e, key, velocity).gainNodes)
    ensures forall i :: Undiminished(PlayAudioData(e, key, velocity).voices, i, key) <==> i == |e.voices|
    ensures forall i :: 0 <= i < |e.voices| && e.voices[i].key != key ==> PlayAudioData(e, key, velocity).voices[i] == e.voices[i]
  {
    var e' := PlayAudioData(e, key, velocity);
    var d := Diminish(e.voices, e.gainNodes, key);
    assert forall i :: 0 <= i < |d| && e.voices[i].key != key ==> d[i] == e.voices[i];
    forall i | 0 <= i < |e.voices| && !e'.voices[i].diminished
      ensures e'.voices[i].key != key
    {
      assert e'.voices[i] == d[i];
    }
  }

  /** After releaseNote no voice of the note is at full gain; OneLive holds
      and the voices of other notes are untouched. */
  lemma {:induction false} ReleaseSilences(e: Engine, key: string)
    requires OneLive(e.voices, e.gainNodes)
    ensures OneLive(ReleaseNote(e, key).voices, ReleaseNote(e, key).gainNodes)
    ensures forall i :: !Undiminished(ReleaseNote(e, key).voices, i, key)
    ensures forall i :: 0 <= i < |e.voices| && e.voices[i].key != key ==> ReleaseNote(e, key).voices[i] == e.voices[i]
    ensures ReleaseNote(e, key).keyActive == e.keyActive
  {
    var d := ReleaseNote(e, key).voices;
    forall i | 0 <= i < |d| && d[i].key == key
      ensures d[i].diminished
    {
      if !e.voices[i].diminished {
        assert e.gainNodes[key] == i;
      }
    }
  }

  /** playNote marks the note active, queues its continuation last, and
      creates a request only when the note has none yet. */
  lemma PlayNoteRequestsOnce(e: Engine, key: string, velocity: nat)
    ensures Active(PlayNote(e, key, velocity), key)
    ensures key in PlayNote(e, key, velocity).requests
    ensures key in e.requests ==> PlayNote(e, key, velocity).requests == e.requests
    ensures key !in e.requests ==> PlayNote(e, key, velocity).requests == e.requests[key := AudioRequest(OneArg(key))]
    ensures PlayNote(e, key, velocity).waiting == e.waiting + [Continuation(key, velocity)]
    ensures PlayNote(e, key, velocity).voices == e.voices
  {
  }

  /** A continuation starts a voice exactly when its sample arrived and its
      note is still active, and the voice it starts is then the note's only
      one at full gain. */
  lemma {:induction false} ResumePlaysIffActive(e: Engine, i: nat)
    requires Valid(e)
    requires i < |e.waiting| && e.waiting[i].key in e.requests
    requires LoadStatus(e, e.waiting[i].key) != Waiting
    ensures Valid(Resume(e, i))
    ensures |Resume(e, i).voices| == |e.voices| + 1 <==>
              LoadStatus(e, e.waiting[i].key) == Resolved && Active(e, e.waiting[i].key)
    ensures |Resume(e, i).voices| != |e.voices| + 1 ==> Resume(e, i).voices == e.voices
    ensures |Resume(e, i).voices| == |e.voices| + 1 ==>
              forall j :: Undiminished(Resume(e, i).voices, j, e.waiting[i].key) <==> j == |e.voices|
    ensures |Resume(e, i).waiting| == |e.waiting| - 1
  {
    var c := e.waiting[i];
    var rest := e.waiting[..i] + e.waiting[i + 1..];
    forall x | x in rest
      ensures x in e.waiting
    {
      var k :| 0 <= k < |rest| && rest[k] == x;
      if k < i { assert x == e.waiting[k]; } else { assert x == e.waiting[k + 1]; }
    }
    if LoadStatus(e, c.key) == Resolved && Active(e, c.key) {
      PlayAudioDataKeepsOneLive(e, c.key, c.velocity);
    }
  }

  /** Every step keeps the engine's invariant. */
  lemma StepsKeepValid(e: Engine, key: string, velocity: nat, ok: bool, i: nat)
    requires Valid(e)
    ensures Valid(PlayNote(e, key, velocity))
    ensures Valid(ReleaseNote(e, key))
    ensures key in e.requests && LoadStatus(e, key) == Waiting ==> Valid(Settle(e, key, ok))
    ensures i < |e.voices| && !e.voices[i].ended ==> Valid(SourceEnded(e, i))
  {
    ReleaseSilences(e, key);
    if i < |e.voices| && !e.voices[i].ended {
      var e' := SourceEnded(e, i);
      assert forall j :: 0 <= j < |e.voices| ==>
                e'.voices[j].key == e.voices[j].key && e'.voices[j].diminished == e.voices[j].diminished;
    }
  }

  /** releaseNote does not clear `keyActive`: a note released before its
      sample arrived still starts a voice when the sample arrives. */
  lemma ReleaseBeforeLoadStillSounds()
    ensures var e1 := PlayNote(INITIAL, "C4", 128);
            var e2 := ReleaseNote(e1, "C4");
            "C4" in e2.requests && LoadStatus(e2, "C4") == Waiting &&
            var e3 := Settle(e2, "C4", true);
            0 < |e3.waiting| && e3.waiting[0].key in e3.requests && LoadStatus(e3, e3.waiting[0].key) == Resolved &&
            Undiminished(Resume(e3, 0).voices, 0, "C4")
  {
    var e1 := PlayNote(INITIAL, "C4", 128);
    assert AudioRequest(OneArg("C4")).Fetch?;
    var e3 := Settle(ReleaseNote(e1, "C4"), "C4", true);
    assert e3.waiting[0] == Continuation("C4", 128);
  }

  /** A press of a note whose sample has already loaded sounds: the
      promise is settled, so the continuation playNote queues runs next
      and starts a voice at the press's velocity, the note's only one at
      full gain. */
  lemma {:induction false} LoadedPressSounds(e: Engine, key: string, velocity: nat)
    requires Valid(e) && key in e.requests && LoadStatus(e, key) == Resolved
    ensures var e1 := PlayNote(e, key, velocity);
            var i := |e.waiting|;
            i < |e1.waiting| && e1.waiting[i].key in e1.requests && LoadStatus(e1, e1.waiting[i].key) == Resolved &&
            var e2 := Resume(e1, i);
            Valid(e2) && e2.waiting == e.waiting && |e2.voices| == |e.voices| + 1 &&
            e2.voices[|e.voices|] == Voice(key, velocity, false, false) &&
            (forall j :: Undiminished(e2.voices, j, key) <==> j == |e.voices|)
  {
    var e1 := PlayNote(e, key, velocity);
    PlayNoteRequestsOnce(e, key, velocity);
    StepsKeepValid(e, key, velocity, true, 0);
    var i := |e.waiting|;
    assert e1.waiting[i] == Continuation(key, velocity);
    ResumePlaysIffActive(e1, i);
    assert e1.waiting[..i] == e.waiting;
  }

  /** A missing or empty key never sounds: its request is rejected. */
  lemma EmptyKeyNeverSounds(e: Engine, velocity: nat)
    requires "" !in e.requests || e.requests[""] == KeyMissing
    ensures LoadStatus(PlayNote(e, "", velocity), "") == Rejected
  {
  }
}
