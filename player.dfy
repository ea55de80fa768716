/** The voice engine as the page holds it: `state.keyActive`, `gainNodes`
    and the memoized getAudioData, updated in place. Each method is tied to
    the step of the same name in module Voices. */
module AudioEngine {
  import opened Memo
  import opened KeyTables
  import opened Voices

  /** The engine of the page: the fields of `Engine` plus the memoized
      getAudioData, whose `mem` is the engine's `requests`. */
  class Player {
    var keyActive: map<string, bool>
    var gainNodes: map<string, nat>
    var voices: seq<Voice>
    var answers: map<string, bool>
    var waiting: seq<Continuation>
    const cache: Memoized<Request>

    function State(): Engine
      reads this, cache
    {
      Engine(keyActive, gainNodes, voices, cache.mem, answers, waiting)
    }

    ghost predicate Inv()
      reads this, cache
    {
      cache.Valid() && cache.fn == AudioRequest && Valid(State())
    }

    constructor ()
      ensures Inv() && State() == INITIAL && fresh(cache)
    {
      keyActive := map[];
      gainNodes := map[];
      voices := [];
      answers := map[];
      waiting := [];
      cache := new Memoized(AudioRequest);
    }

    /** initAudio: call getAudioData for each of the 88 notes, so that every
        note has its request before it is first played. */
    method InitAudio()
      requires Inv()
      modifies cache
      ensures Inv()
      ensures forall k :: k in KEY_OCTAVES_STR ==> k in cache.mem
      ensures forall k :: k in old(cache.mem) ==> k in cache.mem && cache.mem[k] == old(cache.mem)[k]
      ensures forall k :: k in cache.mem && k !in old(cache.mem) ==> cache.mem[k] == AudioRequest(OneArg(k))
      ensures forall k :: k in cache.mem ==> k in old(cache.mem) || k in KEY_OCTAVES_STR
      ensures unchanged(this)
    {
      RequestAll(KEY_OCTAVES_STR);
    }

    /** The `forEach` of initAudio over `names`. */
    method RequestAll(names: seq<string>)
      requires Inv()
      modifies cache
      ensures Inv()
      ensures forall k :: k in names ==> k in cache.mem
      ensures forall k :: k in old(cache.mem) ==> k in cache.mem && cache.mem[k] == old(cache.mem)[k]
      ensures forall k :: k in cache.mem && k !in old(cache.mem) ==> cache.mem[k] == AudioRequest(OneArg(k))
      ensures forall k :: k in cache.mem ==> k in old(cache.mem) || k in names
      ensures unchanged(this)
    {
      var i := 0;
      while i < |names|
        invariant 0 <= i <= |names|
        invariant Inv()
        invariant forall j :: 0 <= j < i ==> names[j] in cache.mem
        invariant forall k :: k in old(cache.mem) ==> k in cache.mem && cache.mem[k] == old(cache.mem)[k]
        invariant forall k :: k in cache.mem && k !in old(cache.mem) ==> cache.mem[k] == AudioRequest(OneArg(k))
        invariant forall k :: k in cache.mem ==> k in old(cache.mem) || k in names[..i]
        invariant unchanged(this)
      {
        var _, _ := cache.Call(OneArg(names[i]));
        assert names[..i + 1] == names[..i] + [names[i]];
        i := i + 1;
      }
      assert names[..|names|] == names;
    }

    /** playNote. */
    method PlayNote(key: string, velocity: nat)
      requires Inv()
      modifies this, cache
      ensures Inv() && State() == Voices.PlayNote(old(State()), key, velocity)
    {
      StepsKeepValid(State(), key, velocity, false, 0);
      keyActive := keyActive[key := true];
      var _, _ := cache.Call(OneArg(key));
      waiting := waiting + [Continuation(key, velocity)];
    }

    /** The network answers the request for `key`. */
    method Settle(key: string, ok: bool)
      requires Inv() && key in cache.mem && LoadStatus(State(), key) == Waiting
      modifies this
      ensures Inv() && State() == Voices.Settle(old(State()), key, ok)
    {
      StepsKeepValid(State(), key, 0, ok, 0);
      answers := answers[key := ok];
    }

    /** The `.then` continuation of playNote at `i` runs. */
    method Resume(i: nat)
      requires Inv() && i < |waiting| && waiting[i].key in cache.mem
      requires LoadStatus(State(), waiting[i].key) != Waiting
      modifies this
      ensures Inv() && State() == Voices.Resume(old(State()), i)
    {
      ResumePlaysIffActive(State(), i);
      var c := waiting[i];
      waiting := waiting[..i] + waiting[i + 1..];
      if LoadStatus(State(), c.key) == Resolved && c.key in keyActive && keyActive[c.key] {
        PlayAudioData(c.key, c.velocity);
      }
    }

    /** playAudioData. */
    method PlayAudioData(key: string, velocity: nat)
      modifies this
      ensures State() == Voices.PlayAudioData(old(State()), key, velocity)
    {
      if key in gainNodes && gainNodes[key] < |voices| {
        voices := voices[gainNodes[key] := voices[gainNodes[key]].(diminished := true)];
      }
      gainNodes := gainNodes[key := |voices|];
      voices := voices + [Voice(key, velocity, false, false)];
    }

    /** releaseNote. */
    method ReleaseNote(key: string)
      requires Inv()
      modifies this
      ensures Inv() && State() == Voices.ReleaseNote(old(State()), key)
    {
      StepsKeepValid(State(), key, 0, false, 0);
      if key in gainNodes && gainNodes[key] < |voices| {
        voices := voices[gainNodes[key] := voices[gainNodes[key]].(diminished := true)];
      }
    }

    /** The `onended` handler of voice `i`. */
    method SourceEnded(i: nat)
      requires Inv() && i < |voices| && !voices[i].ended
      modifies this
      ensures Inv() && State() == Voices.SourceEnded(old(State()), i)
    {
      StepsKeepValid(State(), "", 0, false, i);
      keyActive := keyActive[voices[i].key := false];
      voices := voices[i := voices[i].(ended := true)];
    }
  }
}
