/** keyboard.js: memoize. The wrapped function runs on the first call for a
    cache key; every later call with that key returns the value stored then.

    The wrapped function is a pure function value here: what it does
    besides returning (the XMLHttpRequest of getAudioData, the MIDI access
    request of getMidiListener) is not part of this model. */
module Memo {
  /** The argument lists the program passes: none (getMidiListener) or one
      string (getAudioData). */
  datatype Args = NoArgs | OneArg(arg: string)

  /** The cache key: `'(null)'` for no arguments, the argument itself for
      one. */
  function MemoKey(args: Args): string {
    match args
    case NoArgs => "(null)"
    case OneArg(a) => a
  }

  /** One call's effect on `mem`: a new key stores the wrapped function's
      value, a known key leaves `mem` as it is. */
  function Remember<R>(fn: Args -> R, mem: map<string, R>, args: Args): map<string, R>
  {
    if MemoKey(args) in mem then mem else mem[MemoKey(args) := fn(args)]
  }

  /** The `mem` dictionary after the calls `calls`, in order. */
  function Cache<R>(fn: Args -> R, calls: seq<Args>): map<string, R>
  {
    if calls == [] then map[] else Remember(fn, Cache(fn, calls[..|calls| - 1]), calls[|calls| - 1])
  }

  /** The calls among `calls` that ran the wrapped function. */
  function Invocations<R>(fn: Args -> R, calls: seq<Args>): seq<Args>
  {
    if calls == [] then []
    else
      var front := calls[..|calls| - 1];
      var last := calls[|calls| - 1];
      if MemoKey(last) in Cache(fn, front) then Invocations(fn, front) else Invocations(fn, front) + [last]
  }

  /** The index of the first call whose key is `key`. */
  function FirstWithKey(calls: seq<Args>, key: string): (i: nat)
    requires exists j :: 0 <= j < |calls| && MemoKey(calls[j]) == key
    ensures i < |calls| && MemoKey(calls[i]) == key
    ensures forall j :: 0 <= j < i ==> MemoKey(calls[j]) != key
  {
    if MemoKey(calls[0]) == key then 0
    else
      assert exists j :: 0 <= j < |calls[1..]| && MemoKey(calls[1..][j]) == key by {
        var j :| 0 <= j < |calls| && MemoKey(calls[j]) == key;
        assert calls[1..][j - 1] == calls[j];
      }
      1 + FirstWithKey(calls[1..], key)
  }

  /** The cache holds a key exactly when some call used it, and then holds
      the value the wrapped function returned for the first such call. */
  lemma {:induction false} CacheHoldsFirstValue<R>(fn: Args -> R, calls: seq<Args>, key: string)
    ensures key in Cache(fn, calls) <==> exists j :: 0 <= j < |calls| && MemoKey(calls[j]) == key
    ensures key in Cache(fn, calls) ==> Cache(fn, calls)[key] == fn(calls[FirstWithKey(calls, key)])
    decreases |calls|
  {
    if calls != [] {
      var front := calls[..|calls| - 1];
      CacheHoldsFirstValue(fn, front, key);
      assert forall j :: 0 <= j < |front| ==> front[j] == calls[j];
      if key in Cache(fn, front) {
        FirstOfPrefix(calls, key);
      } else if MemoKey(calls[|calls| - 1]) == key {
        assert FirstWithKey(calls, key) == |calls| - 1;
      }
    }
  }

  /** The first call with a key that a prefix already has lies in the prefix. */
  lemma FirstOfPrefix(calls: seq<Args>, key: string)
    requires calls != []
    requires exists j :: 0 <= j < |calls| - 1 && MemoKey(calls[j]) == key
    ensures FirstWithKey(calls, key) == FirstWithKey(calls[..|calls| - 1], key)
  {
    var front := calls[..|calls| - 1];
    assert forall j :: 0 <= j < |front| ==> front[j] == calls[j];
    var i, k := FirstWithKey(calls, key), FirstWithKey(front, key);
    assert i < |front| ==> MemoKey(front[i]) == key;
    assert MemoKey(calls[k]) == key;
  }

  /** The wrapped function runs once per key: the calls that ran it have
      pairwise distinct keys, and their keys are exactly the cache's keys. */
  lemma {:induction false} InvokedOncePerKey<R>(fn: Args -> R, calls: seq<Args>)
    ensures forall i, j :: 0 <= i < j < |Invocations(fn, calls)| ==>
              MemoKey(Invocations(fn, calls)[i]) != MemoKey(Invocations(fn, calls)[j])
    ensures forall k :: k in Cache(fn, calls) <==> exists i :: 0 <= i < |Invocations(fn, calls)| && MemoKey(Invocations(fn, calls)[i]) == k
    decreases |calls|
  {
    if calls != [] {
      var front := calls[..|calls| - 1];
      var last := calls[|calls| - 1];
      InvokedOncePerKey(fn, front);
      var inv := Invocations(fn, front);
      if MemoKey(last) !in Cache(fn, front) {
        var inv' := inv + [last];
        assert Invocations(fn, calls) == inv';
        forall k
          ensures k in Cache(fn, calls) <==> exists i :: 0 <= i < |inv'| && MemoKey(inv'[i]) == k
        {
          if k == MemoKey(last) {
            assert MemoKey(inv'[|inv|]) == k;
          } else if k in Cache(fn, front) {
            var i :| 0 <= i < |inv| && MemoKey(inv[i]) == k;
            assert inv'[i] == inv[i];
          } else {
            assert forall i :: 0 <= i < |inv| ==> inv'[i] == inv[i];
          }
        }
      } else {
        assert Cache(fn, calls) == Cache(fn, front);
        assert Invocations(fn, calls) == inv;
      }
    }
  }

  /** A cache entry, once stored, is never replaced by a later call. */
  lemma {:induction false} CacheEntriesStay<R>(fn: Args -> R, calls: seq<Args>, n: nat, key: string)
    requires n <= |calls| && key in Cache(fn, calls[..n])
    ensures key in Cache(fn, calls) && Cache(fn, calls)[key] == Cache(fn, calls[..n])[key]
    decreases |calls|
  {
    if n == |calls| {
      assert calls[..n] == calls;
    } else {
      var front := calls[..|calls| - 1];
      assert front[..n] == calls[..n];
      CacheEntriesStay(fn, front, n, key);
    }
  }

  /** Two calls with the same key return the identical value. */
  lemma SameKeySameResult<R>(fn: Args -> R, calls: seq<Args>, i: nat, j: nat)
    requires i < j < |calls| && MemoKey(calls[i]) == MemoKey(calls[j])
    ensures MemoKey(calls[i]) in Cache(fn, calls[..i + 1]) && MemoKey(calls[j]) in Cache(fn, calls[..j + 1])
    ensures Cache(fn, calls[..i + 1])[MemoKey(calls[i])] == Cache(fn, calls[..j + 1])[MemoKey(calls[j])]
  {
    var b := calls[..j + 1];
    assert calls[..i + 1][..i] == calls[..i] && calls[..i + 1][i] == calls[i];
    assert b[..i + 1] == calls[..i + 1];
    CacheEntriesStay(fn, b, i + 1, MemoKey(calls[i]));
  }

  /** A call with no arguments and a call with the single argument
      `'(null)'` share a cache entry. */
  lemma NoArgsSharesKey()
    ensures MemoKey(NoArgs) == MemoKey(OneArg("(null)"))
    ensures NoArgs != OneArg("(null)")
  {
  }

  /** The function memoize returns, with its `mem` dictionary; `calls` is
      the history of calls made so far. */
  class Memoized<R> {
    const fn: Args -> R
    var mem: map<string, R>
    ghost var calls: seq<Args>

    ghost predicate Valid()
      reads this
    {
      mem == Cache(fn, calls)
    }

    constructor (f: Args -> R)
      ensures Valid() && fn == f && calls == []
    {
      fn := f;
      mem := map[];
      calls := [];
    }

    /** One call: run the wrapped function if the key is new, then return
        the cached value. `invoked` says whether the function ran. */
    method Call(args: Args) returns (r: R, invoked: bool)
      requires Valid()
      modifies this
      ensures Valid() && calls == old(calls) + [args] && mem == Remember(fn, old(mem), args)
      ensures invoked <==> MemoKey(args) !in old(mem)
      ensures Invocations(fn, calls) == Invocations(fn, old(calls)) + (if invoked then [args] else [])
      ensures MemoKey(args) in mem && r == mem[MemoKey(args)]
      ensures !invoked ==> r == old(mem)[MemoKey(args)]
      ensures invoked ==> r == fn(args)
    {
      var key := MemoKey(args);
      invoked := key !in mem;
      if invoked {
        mem := mem[key := fn(args)];
      }
      calls := calls + [args];
      assert calls[..|calls| - 1] == old(calls);
      r := mem[key];
    }
  }
}
