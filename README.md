# piano-js keyboard: a Dafny model

piano-js is a browser piano. `assets/javascripts/keyboard.js` maps computer-keyboard
keys and MIDI note messages to notes, and plays a recorded sample per note. It
manages one gain node per note so that a retriggered note fades out its previous voice.
It also keeps a small `state` object whose subscribers are notified of changes,
which drives the MIDI status line.

This project models the logic of that file and proves what it promises:

- `notes.dfy` (module `Notes`): the twelve pitch classes and `parseMidiNote`. It
  proves a round trip from note numbers to names and back.
- `key_tables.dfy` (module `KeyTables`): the constant tables. `KEY_NOTE_MAPPING`
  and `KEY_CODE_NOTES` map physical key codes to notes. `KEY_OCTAVES` and
  `KEY_OCTAVES_STR` list the 88 piano keys. `VALID_KEYS` is the set of their
  names. The tables are built the way the source builds them, with `flatMap`,
  `map` and a `reduce` into a dictionary, and their layout is proved.
- `midi.dfy` (module `Midi`): `parseMidiMessage`, byte by byte, including
  JavaScript's `undefined` for a missing byte. It also has the redundant-note-on
  filter of `onmidimessage`, both as a function and as the `noteState`
  dictionary of a `MidiInput` object.
- `keyboard.dfy` (module `Keyboard`): `bindKeyboard`'s keydown and keyup
  listeners and their `keyState` dictionary, which suppresses key repeat.
- `state_hub.dfy` (module `StateHub`): `state`, `stateSubscribe` and
  `updateState` as a `Hub` object. `Object.assign` is a loop over the new fields.
  A `notified` dictionary filled inside nested `forEach` loops ensures one
  notification per subscriber id. The `setTimeout` delivery is a `pending`
  queue. This module also has the four-way MIDI status classification of
  `initMidi`.
- `memo.dfy` (module `Memo`): `memoize`, as a `Memoized` object whose `mem`
  dictionary is filled in place.
- `voices.dfy` (module `Voices`): the voice engine as transitions of an
  `Engine` value. The transitions are `playNote`, `playAudioData`, `releaseNote`,
  the `onended` handler, and the arrival of a sample and the `.then`
  continuation that follows it.
- `player.dfy` (module `AudioEngine`): the same engine as a `Player` object
  whose fields (`keyActive`, `gainNodes`, the memoized `getAudioData`) are
  updated in place. `PlayNote`, `Settle`, `Resume`, `PlayAudioData`,
  `ReleaseNote` and `SourceEnded` are each proved to perform the `Voices`
  transition of the same name. `InitAudio` and its loop `RequestAll` have no
  `Voices` counterpart; they are proved against the memoized request
  function `Voices.AudioRequest`.
- `piano.dfy` (module `Piano`): the wiring of the keyboard and MIDI listeners
  to `playNote` and `releaseNote`.
- `wrappers.dfy` (module `Wrappers`): an `Option` type.

How things are represented:

- Note names are strings. The per-note dictionaries (`keyState`, `noteState`,
  `state.keyActive`, `gainNodes`, `VALID_KEYS` and the memoized requests) are
  keyed by them. The other dictionaries have other keys: `KEY_CODE_NOTES` key
  codes, `KEY_NOTE_MAPPING` octaves, `state` and `subscriptions` field names,
  and `notified` subscriber ids.
- MIDI data is `Option<seq<bv8>>`, where `None` is a message without data.
- A callback function object is an identity of type `Callback`. Its
  `__subscriber_id` and `__subscriber_keys` properties are two maps of the hub.
- The `keyActive` part of `state` belongs to the voice engine (`Player`), the
  only modelled code that reads or writes it (the mouse handlers, which also
  read it, are not modelled). The hub holds `hasMidiSupport` and
  `hasMidiInput`.

One observation about the code. playNote checks `state.keyActive[key]` when
the sample arrives (keyboard.js:192), which suggests that a note released
before its sample has loaded is meant to stay silent. But `releaseNote`
(keyboard.js:200-205) does not clear `state.keyActive`; only a source's
`onended` handler (keyboard.js:175-177) does. So a note pressed and released
before its sample arrives still starts a voice when the sample arrives. The
model follows the code, and `Voices.ReleaseBeforeLoadStillSounds` exhibits the
case.

## Model

| member | source | states |
|---|---|---|
| Notes.KeysDistinct | assets/javascripts/keyboard.js:17-20 | There are twelve pitch-class names, pairwise distinct. |
| Notes.DecimalRoundTrip | assets/javascripts/keyboard.js:250 | The decimal digits `String(octave)` writes read back as the octave. |
| Notes.ParseMidiNote | assets/javascripts/keyboard.js:243-251 | parseMidiNote gives no name exactly when the number is below 21. |
| Notes.NoteName | assets/javascripts/keyboard.js:250 | `KEYS[step] + String(octave)`. Its inverse is NoteNumber, by NoteNameRoundTrip. |
| Notes.DivModTwelve | assets/javascripts/keyboard.js:248-249 | A number from 21 on is `12 * (octave + 1) + step` with `step < 12`, and parseMidiNote names it `KEYS[step] + octave`. |
| Notes.NoteNameRoundTrip | assets/javascripts/keyboard.js:250 | The name `KEYS[step] + String(octave)` reads back as the note number `12 * (octave + 1) + step`. |
| Notes.ParseMidiNoteRoundTrip | assets/javascripts/keyboard.js:243-251 | Every note number from 21 on gets a name, and the name reads back as that number. |
| Notes.ParseMidiNoteInjective | assets/javascripts/keyboard.js:243-251 | Distinct note numbers from 21 on get distinct names. |
| Notes.ParseMidiNoteExamples | assets/javascripts/keyboard.js:244-247 | 24 is C1, 36 is C2, 60 is C4, 21 is A0, and 20 has no name. |
| KeyTables.RowPairs | assets/javascripts/keyboard.js:69 | One row yields one `[code, KEYS[i] + octave]` pair per code. |
| KeyTables.FlatPairs | assets/javascripts/keyboard.js:68-69 | The `flatMap` of the rows' pairs. Its layout is FlatPairsLength and FlatPairsAt. |
| KeyTables.PairsToMap | assets/javascripts/keyboard.js:70 | The left-to-right `reduce` into a dictionary. What it maps is PairsToMapLookup. |
| KeyTables.PairsToMapLookup | assets/javascripts/keyboard.js:70 | The `reduce` into a dictionary maps exactly the codes some pair has, each to the note of the last pair with that code. |
| KeyTables.FlatPairsLength | assets/javascripts/keyboard.js:67-71 | Rows of 12 codes flatten to 12 pairs per row. |
| KeyTables.FlatPairsAt | assets/javascripts/keyboard.js:67-71 | Pair `k` of the flattened rows is code `k % 12` of row `k / 12`, with note `KEYS[k % 12]` plus that row's octave. |
| KeyTables.KeyCodesDistinct | assets/javascripts/keyboard.js:25-42 | Each of the four rows has 12 codes, and no code appears twice in KEY_NOTE_MAPPING. |
| KeyTables.KeyCodeNotesRows | assets/javascripts/keyboard.js:67-71 | KEY_CODE_NOTES maps exactly the 48 codes of the rows, the i-th code of the row for octave o (2 to 5) to `KEYS[i] + o`. |
| KeyTables.KeyCodeNotesAreValidKeys | assets/javascripts/keyboard.js:67-76 | Every note a key code plays is in VALID_KEYS. |
| KeyTables.FlatOctaves | assets/javascripts/keyboard.js:46-48 | The `flatMap` of each full octave's pitch classes. Its layout is FlatOctavesLength and FlatOctavesAt. |
| KeyTables.FlatOctavesLength | assets/javascripts/keyboard.js:46-48 | flatMap over n octaves gives 12n entries. |
| KeyTables.FlatOctavesAt | assets/javascripts/keyboard.js:46-48 | Entry `k` of the flatMap is `[KEYS[k % 12], octaves[k / 12]]`. |
| KeyTables.KeyOctavesLayout | assets/javascripts/keyboard.js:44-55 | KEY_OCTAVES has 88 entries: A0, Bb0, B0, then every pitch class of octaves 1 to 7 in order, then C8. |
| KeyTables.JoinNames | assets/javascripts/keyboard.js:57 | KEY_OCTAVES_STR has one name per entry, the pitch class followed by the octave in decimal. |
| KeyTables.KeyOctavesAreMidiNotes | assets/javascripts/keyboard.js:44-57 | The j-th of the 88 names is what parseMidiNote gives for MIDI note 21 + j. |
| KeyTables.NameSet | assets/javascripts/keyboard.js:73-76 | A name is in the `reduce`'s dictionary exactly when it is in the list. |
| KeyTables.ValidKeysAreMidiRange | assets/javascripts/keyboard.js:73-76 | A MIDI note number names a key of VALID_KEYS exactly when it is between 21 and 108. |
| KeyTables.KeyNamesDistinct | assets/javascripts/keyboard.js:57-76 | The 88 names are pairwise distinct, so VALID_KEYS has 88 members. |
| Midi.Status | assets/javascripts/keyboard.js:264 | `data[0] & 0xf0`, with an absent first byte masking to 0. ChannelIgnored states its effect. |
| Midi.CommandOf | assets/javascripts/keyboard.js:264-283 | The `switch` on the masked status and the velocity check. Its decision table is ParseThreeByteMessage. |
| Midi.ParseMidiMessage | assets/javascripts/keyboard.js:253-293 | A message is produced only for data whose masked status is 0x90 or 0x80. Its velocity is `data[2]`. A note-on needs status 0x90 and a third byte above 0. |
| Midi.ParseThreeByteMessage | assets/javascripts/keyboard.js:264-292 | For three bytes: 0x9_ with velocity above 0 is note-on, 0x9_ with velocity 0 and 0x8_ with any velocity are note-off. Any other status, and any note number below 21, gives nothing. The note is parseMidiNote's name and the velocity is the third byte. |
| Midi.ChannelIgnored | assets/javascripts/keyboard.js:264 | Changing the channel nibble of the status byte does not change the result. |
| Midi.ShortNoteOff | assets/javascripts/keyboard.js:253-286 | A short 0x8_ message still parses, with velocity `undefined` and, with no note byte, the note "undefinedNaN". A short 0x9_ message, empty data and missing data give nothing. |
| Midi.Filter | assets/javascripts/keyboard.js:333-342 | The filter keeps the note and velocity. It passes a note-on exactly when the note is not 'on', and otherwise emits a note-off. Afterwards the note is 'on' exactly when a note-on passed, and no other note changes. |
| Midi.Normalize | assets/javascripts/keyboard.js:330-345 | A message sequence comes out with the same length. |
| Midi.NormalizeAlternates | assets/javascripts/keyboard.js:329-345 | Whatever comes in, the note-ons of each note that come out alternate with its note-offs. |
| Midi.NormalizeKeepsAlternating | assets/javascripts/keyboard.js:329-345 | For input that already alternates, the filter changes nothing. |
| Midi.NormalizeOnlyTurnsOnsOff | assets/javascripts/keyboard.js:333-342 | Each output message is the input message, or a note-on turned into a note-off. |
| Midi.RedundantOnExamples | assets/javascripts/keyboard.js:333-342 | on, on comes out as on, off; on, off, on comes out unchanged. |
| Midi.MidiInput.constructor | assets/javascripts/keyboard.js:329 | The filter's `noteState` starts empty. |
| Midi.MidiInput.OnMidiMessage | assets/javascripts/keyboard.js:330-345 | A message that does not parse is dropped and the state is kept. Otherwise the listeners get the filtered message and `noteState` takes the filter's new state. |
| Keyboard.KeyStep | assets/javascripts/keyboard.js:399-414 | A keydown plays its code's note exactly when the code is mapped and the note is not held, and marks the note held. A keyup of a mapped code releases its note and marks it not held. An unmapped code changes nothing. |
| Keyboard.KeyRun | assets/javascripts/keyboard.js:399-414 | A run of key events gives one action per event. |
| Keyboard.KeyRunAlternates | assets/javascripts/keyboard.js:403-412 | In any run of key events, a note is played again only after a release of it. |
| Keyboard.KeyRepeatPlaysOnce | assets/javascripts/keyboard.js:399-407 | n keydowns of one code without a keyup play its note once if it was not held and n > 0, else never. |
| Keyboard.HeldRepeatPlaysNothing | assets/javascripts/keyboard.js:403 | Keydowns of a held note play nothing. |
| Keyboard.UnmappedCodesIgnored | assets/javascripts/keyboard.js:399-414 | Events of unmapped codes do nothing. |
| Keyboard.KeyboardInput.constructor | assets/javascripts/keyboard.js:398 | `keyState` starts empty. |
| Keyboard.KeyboardInput.KeyDown | assets/javascripts/keyboard.js:399-407 | The keydown listener updates `keyState` and returns the note it passes to playNote, as KeyStep says. |
| Keyboard.KeyboardInput.KeyUp | assets/javascripts/keyboard.js:408-414 | The keyup listener updates `keyState` and returns the note it passes to releaseNote, as KeyStep says. |
| StateHub.Merge | assets/javascripts/keyboard.js:95 | `Object.assign(state, newState)`, field by field in order. What it gives is MergeLast and MergeUntouched; Assign computes it by a loop. |
| StateHub.MergeLast | assets/javascripts/keyboard.js:95 | After `Object.assign`, a field holds the value its last occurrence in `newState` gives it. |
| StateHub.MergeUntouched | assets/javascripts/keyboard.js:95 | After `Object.assign`, a field not in `newState` keeps its value. |
| StateHub.Assign | assets/javascripts/keyboard.js:95 | The loop of `Object.assign` computes the merge. |
| StateHub.Keys | assets/javascripts/keyboard.js:97 | `Object.keys(newState)` lists the fields' keys in order. |
| StateHub.Snapshot | assets/javascripts/keyboard.js:103-106 | The `reduce` that builds `subState` yields exactly the subscriber's watched keys, each with its value in the state (proved by induction over the fold). |
| StateHub.Candidates | assets/javascripts/keyboard.js:97-100 | The callbacks the walk visits: each key's list in turn, keys with no list skipped. CandidatesMembers states which ones. |
| StateHub.CandidatesStep | assets/javascripts/keyboard.js:97-100 | Walking one more key appends that key's subscription list, or nothing when it has none. |
| StateHub.CandidatesMembers | assets/javascripts/keyboard.js:97-100 | A callback is walked exactly when it is on the list of one of the keys. |
| StateHub.CandidatesTagged | assets/javascripts/keyboard.js:97-100 | Every walked callback carries an id and watched keys. |
| StateHub.SeenMembers | assets/javascripts/keyboard.js:101-102 | `notified` holds exactly the ids of the walked callbacks. |
| StateHub.Notify | assets/javascripts/keyboard.js:100-111 | Every queued delivery goes to a callback with an id and watched keys. |
| StateHub.NotifyFrom | assets/javascripts/keyboard.js:100-111 | Every delivery goes to a walked callback and carries that callback's snapshot. |
| StateHub.NotifyStep | assets/javascripts/keyboard.js:100-111 | Walking one more callback queues its delivery exactly when its id was not yet notified. |
| StateHub.WalkStep | assets/javascripts/keyboard.js:100-111 | The same step, taken within one subscription list. |
| StateHub.NotifyDistinct | assets/javascripts/keyboard.js:100-111 | No two deliveries of one walk share a subscriber id. |
| StateHub.NotifyComplete | assets/javascripts/keyboard.js:100-111 | Every walked callback's id gets a delivery. |
| StateHub.NotifyAll | assets/javascripts/keyboard.js:96-111 | The outer `forEach` over the keys of `newState`, with its `notified` dictionary, appends exactly the walk's deliveries to the queue. |
| StateHub.NotifyKey | assets/javascripts/keyboard.js:97-100 | One key's step of the outer `forEach`: its list, if it has one, is walked after those of the earlier keys. |
| StateHub.NotifyList | assets/javascripts/keyboard.js:100-111 | The inner `forEach` over one list extends the queue and `notified` as the walk defines. |
| StateHub.AddSubscriber | assets/javascripts/keyboard.js:87-91 | The pushes of stateSubscribe, one per key. What the lists then hold is AddSubscriberMembers. |
| StateHub.AddSubscriberMembers | assets/javascripts/keyboard.js:86-92 | After subscribing, a callback is on a key's list exactly when it was before or it subscribed with that key. No other callback joins a list. |
| StateHub.SubscribeKeepsTags | assets/javascripts/keyboard.js:86-92 | Subscribing with at least one key keeps every listed callback tagged, every id drawn from the serial and all ids distinct: `cb` gets the last serial drawn, above every earlier id. |
| StateHub.Hub.constructor | assets/javascripts/keyboard.js:78-85 | The state starts with MIDI support and input `null`, and nothing is subscribed, numbered or queued. |
| StateHub.SubscribeAll | assets/javascripts/keyboard.js:86-92 | The loop of stateSubscribe: the lists become AddSubscriber of the old ones, the serial advances by the number of keys, and `cb` ends with the last serial drawn and its keys. |
| StateHub.Hub.Subscribe | assets/javascripts/keyboard.js:86-92 | `cb` goes on the list of each key. The serial advances by the number of keys, and `cb` ends with the last serial drawn and a copy of its keys. The hub's invariant is kept. |
| StateHub.Hub.Update | assets/javascripts/keyboard.js:94-112 | The state becomes the merge. The queue gains the walk's deliveries, with snapshots of the merged state. Nothing else changes. |
| StateHub.Hub.Deliver | assets/javascripts/keyboard.js:107-109 | The oldest queued notification is handed out and removed. |
| StateHub.UpdateNotifiesWatchersOnce | assets/javascripts/keyboard.js:94-111 | One updateState call queues a notification for a callback exactly when it is on the list of a key of `newState`, and never twice for the same callback. Each snapshot holds the callback's watched keys with their values right after the merge. |
| StateHub.Classify | assets/javascripts/keyboard.js:428-443 | Connected exactly when `hasMidiInput` is truthy. Otherwise Disconnected when `hasMidiSupport` is truthy, Unsupported when it is `false`, and Initializing when it is `null` or `undefined`. |
| StateHub.StatusRenderingDistinct | assets/javascripts/keyboard.js:429-445 | Each status has its own text and its own class. |
| StateHub.StatusLifecycle | assets/javascripts/keyboard.js:428-443 | What Classify returns for given snapshots: Initializing for `hasMidiSupport: null` (the values `state` starts with), Unsupported for `false`, Disconnected for `true` with no input, Connected once `hasMidiInput` is `true`. It says what Classify computes, not what the page shows: the callback runs only after an updateState call, and those at keyboard.js:299, 316 and 356 leave `hasMidiSupport` `true` or `false`, so the line is blank until then and never shows Initializing. |
| Memo.MemoKey | assets/javascripts/keyboard.js:127 | The cache key: `'(null)'` for no arguments, the argument for one. NoArgsSharesKey states the collision. |
| Memo.Cache | assets/javascripts/keyboard.js:124-131 | The `mem` dictionary after a sequence of calls. What it holds is CacheHoldsFirstValue and CacheEntriesStay. |
| Memo.FirstWithKey | assets/javascripts/keyboard.js:128 | Finds the first call using a cache key. |
| Memo.CacheHoldsFirstValue | assets/javascripts/keyboard.js:122-133 | The cache holds a key exactly when some call used it, with the value the function returned on the first such call. |
| Memo.FirstOfPrefix | assets/javascripts/keyboard.js:128 | A key already used by earlier calls was first used among them. |
| Memo.InvokedOncePerKey | assets/javascripts/keyboard.js:128-130 | The wrapped function runs at most once per key, and the keys it ran for are exactly the cache's keys. |
| Memo.CacheEntriesStay | assets/javascripts/keyboard.js:128-131 | A cache entry, once stored, is never replaced. |
| Memo.SameKeySameResult | assets/javascripts/keyboard.js:125-132 | Two calls with the same key return the identical value. |
| Memo.NoArgsSharesKey | assets/javascripts/keyboard.js:127 | A call with no arguments and a call with the argument `'(null)'` share a key. |
| Memo.Memoized.constructor | assets/javascripts/keyboard.js:122-124 | `mem` starts empty. |
| Memo.Memoized.Call | assets/javascripts/keyboard.js:125-132 | The function runs exactly when the key is new, and only then is `mem` written. The result is the cached value. |
| Voices.AudioPath | assets/javascripts/keyboard.js:145-147 | `'assets/audio/Piano.ff.' + key + '.ogg'`. Its inverse is KeyOfPath, by AudioPathRoundTrip. |
| Voices.AudioRequest | assets/javascripts/keyboard.js:149-156 | The function getAudioData memoizes: a rejection for a missing or empty key, otherwise a fetch of the note's sample. AudioRequestsDistinct states what it gives. |
| Voices.AudioPathRoundTrip | assets/javascripts/keyboard.js:145-147 | The sample path gives its note back. |
| Voices.AudioRequestsDistinct | assets/javascripts/keyboard.js:149-156 | A missing or empty key is rejected. Distinct non-empty notes request distinct files. |
| Voices.AtMostOneUndiminished | assets/javascripts/keyboard.js:169-186 | Under the engine's invariant, a note has at most one voice at full gain. |
| Voices.Diminish | assets/javascripts/keyboard.js:172-174 | diminishGain on the note's newest gain node leaves the number of voices unchanged. |
| Voices.PlayAudioData | assets/javascripts/keyboard.js:169-186 | playAudioData: diminish the note's previous gain node, then start a voice whose gain node becomes the note's. PlayAudioDataKeepsOneLive states its effect. |
| Voices.PlayNote | assets/javascripts/keyboard.js:188-197 | playNote: mark the note active, request its sample through the memo, queue the `.then` continuation. PlayNoteRequestsOnce states its effect. |
| Voices.Settle | assets/javascripts/keyboard.js:154-166 | The network's answer to a pending request: resolved or rejected. |
| Voices.Resume | assets/javascripts/keyboard.js:191-196 | The `.then` continuation: it plays only if the sample arrived and the note is still active. ResumePlaysIffActive states its effect. |
| Voices.ReleaseNote | assets/javascripts/keyboard.js:200-205 | releaseNote: diminish the note's newest gain node, if any, leaving `keyActive` alone. ReleaseSilences states its effect. |
| Voices.SourceEnded | assets/javascripts/keyboard.js:175-177 | `onended`: clear the note's `keyActive` and mark the voice ended. StepsKeepValid states that it keeps the invariant. |
| Voices.PlayAudioDataKeepsOneLive | assets/javascripts/keyboard.js:169-186 | After playAudioData, the new voice is the note's only voice at full gain. The invariant holds, and voices of other notes are untouched. |
| Voices.ReleaseSilences | assets/javascripts/keyboard.js:200-205 | After releaseNote, no voice of the note is at full gain. Other notes' voices and `keyActive` are untouched. |
| Voices.PlayNoteRequestsOnce | assets/javascripts/keyboard.js:188-191 | playNote marks the note active, creates a request only when the note has none, queues its continuation and starts no voice. |
| Voices.ResumePlaysIffActive | assets/javascripts/keyboard.js:191-196 | A continuation starts a voice exactly when its sample arrived and its note is still active. That voice is then the note's only one at full gain. |
| Voices.StepsKeepValid | assets/javascripts/keyboard.js:169-205 | playNote, releaseNote, a settled load and `onended` keep the engine's invariant. |
| Voices.ReleaseBeforeLoadStillSounds | assets/javascripts/keyboard.js:188-205 | Pressing C4, releasing it, and then having its sample arrive still leaves a C4 voice at full gain. |
| Voices.LoadedPressSounds | assets/javascripts/keyboard.js:188-197 | Pressing a note whose sample has loaded, with its continuation run at once, starts a voice of that note at the press's velocity. That voice is the note's only one at full gain, and the invariant holds. |
| Voices.EmptyKeyNeverSounds | assets/javascripts/keyboard.js:151-153 | The load for an empty key is rejected. |
| AudioEngine.Player.constructor | assets/javascripts/keyboard.js:78-82 | The engine starts with nothing active, loaded or playing. |
| AudioEngine.Player.InitAudio | assets/javascripts/keyboard.js:417-421 | Every one of the 88 names gets its request. Existing cache entries are kept, new ones are getAudioData's request, and no key outside the 88 names is added. |
| AudioEngine.Player.RequestAll | assets/javascripts/keyboard.js:418-420 | The `forEach` requests every name in the list and adds no other key to the cache. |
| AudioEngine.Player.PlayNote | assets/javascripts/keyboard.js:188-197 | Performs the `Voices.PlayNote` transition in place and keeps the invariant. |
| AudioEngine.Player.Settle | assets/javascripts/keyboard.js:154-165 | The network's answer for a pending request is recorded. |
| AudioEngine.Player.Resume | assets/javascripts/keyboard.js:191-196 | Performs the `Voices.Resume` transition: the `.then` continuation runs. |
| AudioEngine.Player.PlayAudioData | assets/javascripts/keyboard.js:169-186 | Performs the `Voices.PlayAudioData` transition in place. |
| AudioEngine.Player.ReleaseNote | assets/javascripts/keyboard.js:200-205 | Performs the `Voices.ReleaseNote` transition in place. |
| AudioEngine.Player.SourceEnded | assets/javascripts/keyboard.js:175-177 | `onended` clears the note's `keyActive` flag and the voice is marked ended. |
| Piano.Piano.constructor | assets/javascripts/keyboard.js:461-467 | A fresh page after `init`: the key and note states are empty, nothing is active or playing, and the cache holds getAudioData's request for exactly the 88 key names (initAudio at line 462). |
| Piano.Piano.OnKeyDown | assets/javascripts/keyboard.js:399-407 | A keydown that plays its note calls playNote with velocity 128. Otherwise only `keyState` changes. |
| Piano.Piano.OnKeyUp | assets/javascripts/keyboard.js:408-414 | A keyup of a mapped code calls releaseNote. |
| Piano.Piano.OnMidiMessage | assets/javascripts/keyboard.js:448-455 | A filtered note-on calls playNote with the message's velocity, and a note-off calls releaseNote. A message that does not parse does nothing. |
| Piano.MidiNoteOnVelocity | assets/javascripts/keyboard.js:448-455 | A note-on from MIDI always carries its own velocity, above 0, never the default. |

## Left out

- The Web Audio graph (`AudioContext`, compressor, buffer sources, gain ramps, `setTargetAtTime`, keyboard.js:3-15, 169-186, 207-209) is foreign API and floating-point timing. A voice records only its note, velocity, whether it was diminished and whether it ended.
- The gain `0.66 * velocity / 128` (keyboard.js:194) is floating point. The voice keeps the velocity instead.
- The XMLHttpRequest and `decodeAudioData` of getAudioData (keyboard.js:154-166) are network and decoding I/O. The model keeps the request the memoized function makes. The outcome arrives as `Settle(key, ok)`.
- Promises and `setTimeout` are not modelled as concurrency. A load completing is the explicit step `Settle`, and its `.then` continuation is `Resume`. A deferred notification is an entry of `pending` that `Deliver` hands out.
- The DOM and mouse handling are not modelled: `makeKey`, `buildPiano`, `renderKeyActive`/`renderKeyInactive`, `innerHTML` writes and the mouse listeners (keyboard.js:211-241, 361-395, 423-427, 444-445). Only the status classification and its text and class are kept.
- `navigator.requestMIDIAccess`, `onstatechange` and input discovery (keyboard.js:295-328, 346-359) are host I/O. The model covers only the `hasMidiSupport`/`hasMidiInput` values they write, through `StateHub.Classify`. When `navigator.requestMIDIAccess` does not exist, the call at keyboard.js:353 throws before the `.catch` at 355 is attached, so `hasMidiSupport` is never set to `false` and `init` stops before `bindMouse` and `bindKeyboard` (keyboard.js:464-466); that path is not modelled.
- `memoize` keys a call with two or more arguments by `JSON.stringify(args)`. The program never makes such a call, so `Memo.Args` has only the no-argument and one-argument forms.
- The source's dictionaries are plain objects, so a lookup can find an inherited property such as `constructor`. The model's maps are exact. This matters only for keys that are not note names, key codes or field names.
- Console logging is left out.
- Voices.Resume: it may run any queued continuation whose load has settled, at any later point and in any order. In the program the `.then` reactions of one promise run as microtasks, in FIFO order, as soon as it settles, before any other event such as `onended`. So the model admits runs the event loop excludes: a re-press of a loaded note whose old voice ends before the continuation runs stays silent, and two continuations of one note may run in reverse order. Every property proved about `Resume` holds whatever the order.
- AudioEngine.Player.PlayAudioData: it diminishes `gainNodes[key]` only when that entry names an existing voice. This always holds under the engine's invariant, and the method is not required to keep the invariant on its own; `Player.Resume` calls it and does.
- StateHub.Hub.Subscribe and StateHub.Hub.Update compute the hub's new fields in locals and store them at the end. The source mutates the fields in place, but no code runs in between that could observe the difference.
