/** The page state and its subscribers (keyboard.js: `state`,
    stateSubscribe, updateState) and the MIDI status line that watches it.

    A subscriber callback is a function object; the source tags it with
    `__subscriber_id` and `__subscriber_keys`, which the hub keeps here as
    two maps keyed by the callback. A notification is deferred with
    `setTimeout`; the hub appends it to the `pending` queue instead, and
    `Deliver` hands out the oldest one. */
module StateHub {
  import opened Wrappers

  /** A state field: `undefined` (never set), `null` (unknown) or a boolean. */
  datatype Value = Undefined | Null | Bool(b: bool)

  /** The identity of a callback function object. */
  type Callback = nat

  /** A queued `cb(subState)` call. */
  datatype Delivery = Delivery(cb: Callback, snapshot: map<string, Value>)

  /** `state[key]`: a field never set reads as `undefined`. */
  function Lookup(st: map<string, Value>, key: string): Value {
    if key in st then st[key] else Undefined
  }

  /** `Object.assign(state, newState)`: the fields are written in order. */
  function Merge(st: map<string, Value>, fields: seq<(string, Value)>): map<string, Value>
  {
    if fields == [] then st
    else Merge(st, fields[..|fields| - 1])[fields[|fields| - 1].0 := fields[|fields| - 1].1]
  }

  /** A field the update gives a value last holds that value after the merge. */
  lemma {:induction false} MergeLast(st: map<string, Value>, fields: seq<(string, Value)>, i: nat)
    requires i < |fields|
    requires forall j :: i < j < |fields| ==> fields[j].0 != fields[i].0
    ensures Lookup(Merge(st, fields), fields[i].0) == fields[i].1
    decreases |fields|
  {
    if i < |fields| - 1 {
      MergeLast(st, fields[..|fields| - 1], i);
    }
  }

  /** A field the update does not mention keeps its value. */
  lemma {:induction false} MergeUntouched(st: map<string, Value>, fields: seq<(string, Value)>, key: string)
    requires forall j :: 0 <= j < |fields| ==> fields[j].0 != key
    ensures Lookup(Merge(st, fields), key) == Lookup(st, key)
    decreases |fields|
  {
    if fields != [] {
      MergeUntouched(st, fields[..|fields| - 1], key);
    }
  }

  /** `subState`: the `reduce` over the subscriber's watched keys that writes
      `acc[next] = state[next]` for each. It holds exactly the watched keys,
      each with its value in `st`. */
  function Snapshot(st: map<string, Value>, watched: seq<string>): (r: map<string, Value>)
    ensures forall k :: k in r <==> k in watched
    ensures forall k :: k in r ==> r[k] == Lookup(st, k)
  {
    if watched == [] then map[]
    else
      var front, next := watched[..|watched| - 1], watched[|watched| - 1];
      assert watched == front + [next];
      Snapshot(st, front)[next := Lookup(st, next)]
  }

  /** The keys of `newState`, in order. */
  function Keys(fields: seq<(string, Value)>): (r: seq<string>)
    ensures |r| == |fields|
    ensures forall i :: 0 <= i < |r| ==> r[i] == fields[i].0
  {
    if fields == [] then [] else Keys(fields[..|fields| - 1]) + [fields[|fields| - 1].0]
  }

  /** The callbacks updateState walks: the subscription list of each key in
      turn, skipping keys nobody subscribed to. */
  function Candidates(subscriptions: map<string, seq<Callback>>, keys: seq<string>): seq<Callback>
  {
    if keys == [] then []
    else
      var last := keys[|keys| - 1];
      Candidates(subscriptions, keys[..|keys| - 1]) + (if last in subscriptions then subscriptions[last] else [])
  }

  /** Walking the list of one more key. */
  lemma CandidatesStep(subscriptions: map<string, seq<Callback>>, keys: seq<string>, i: nat)
    requires i < |keys|
    ensures Candidates(subscriptions, keys[..i + 1]) ==
              Candidates(subscriptions, keys[..i]) + (if keys[i] in subscriptions then subscriptions[keys[i]] else [])
  {
    assert keys[..i + 1][..i] == keys[..i];
  }

  /** A callback is walked exactly when it is on the list of one of the keys. */
  lemma {:induction false} CandidatesMembers(subscriptions: map<string, seq<Callback>>, keys: seq<string>, cb: Callback)
    ensures cb in Candidates(subscriptions, keys) <==>
              exists i :: 0 <= i < |keys| && keys[i] in subscriptions && cb in subscriptions[keys[i]]
    decreases |keys|
  {
    if keys != [] {
      var front := keys[..|keys| - 1];
      CandidatesMembers(subscriptions, front, cb);
      assert forall i :: 0 <= i < |front| ==> front[i] == keys[i];
    }
  }

  /** Every callback on a subscription list has an id and watched keys. */
  predicate Tagged(ids: map<Callback, nat>, watched: map<Callback, seq<string>>, cbs: seq<Callback>) {
    forall i :: 0 <= i < |cbs| ==> cbs[i] in ids && cbs[i] in watched
  }

  /** The ids in the `notified` dictionary after walking `cbs`. */
  function Seen(ids: map<Callback, nat>, cbs: seq<Callback>): set<nat>
    requires forall i :: 0 <= i < |cbs| ==> cbs[i] in ids
  {
    if cbs == [] then {} else Seen(ids, cbs[..|cbs| - 1]) + {ids[cbs[|cbs| - 1]]}
  }

  /** `notified` holds exactly the ids of the walked callbacks. */
  lemma {:induction false} SeenMembers(ids: map<Callback, nat>, cbs: seq<Callback>)
    requires forall i :: 0 <= i < |cbs| ==> cbs[i] in ids
    ensures forall n :: n in Seen(ids, cbs) <==> exists i :: 0 <= i < |cbs| && ids[cbs[i]] == n
    decreases |cbs|
  {
    if cbs != [] {
      var front := cbs[..|cbs| - 1];
      SeenMembers(ids, front);
      assert forall i :: 0 <= i < |front| ==> front[i] == cbs[i];
    }
  }

  /** The inner `forEach` over `cbs` with the `notified` dictionary: a
      callback whose id was not yet notified gets a delivery of its snapshot
      of `st`. */
  function Notify(ids: map<Callback, nat>, watched: map<Callback, seq<string>>, st: map<string, Value>,
                  cbs: seq<Callback>): (r: seq<Delivery>)
    requires Tagged(ids, watched, cbs)
    ensures forall d :: d in r ==> d.cb in ids && d.cb in watched
  {
    if cbs == [] then []
    else
      var front := cbs[..|cbs| - 1];
      var cb := cbs[|cbs| - 1];
      assert forall i :: 0 <= i < |front| ==> front[i] == cbs[i];
      if ids[cb] in Seen(ids, front) then Notify(ids, watched, st, front)
      else Notify(ids, watched, st, front) + [Delivery(cb, Snapshot(st, watched[cb]))]
  }

  /** Every delivery goes to a walked callback and carries that callback's
      snapshot. */
  lemma {:induction false} NotifyFrom(ids: map<Callback, nat>, watched: map<Callback, seq<string>>,
                                      st: map<string, Value>, cbs: seq<Callback>)
    requires Tagged(ids, watched, cbs)
    ensures forall d :: d in Notify(ids, watched, st, cbs) ==>
              d.cb in cbs && d.cb in watched && d.snapshot == Snapshot(st, watched[d.cb])
    decreases |cbs|
  {
    if cbs != [] {
      var front := cbs[..|cbs| - 1];
      assert forall i :: 0 <= i < |front| ==> front[i] == cbs[i];
      NotifyFrom(ids, watched, st, front);
    }
  }

  /** Walking one more callback. */
  lemma NotifyStep(ids: map<Callback, nat>, watched: map<Callback, seq<string>>, st: map<string, Value>,
                   cbs: seq<Callback>, cb: Callback)
    requires Tagged(ids, watched, cbs + [cb])
    ensures Tagged(ids, watched, cbs) && cb in ids && cb in watched
    ensures Seen(ids, cbs + [cb]) == Seen(ids, cbs) + {ids[cb]}
    ensures Notify(ids, watched, st, cbs + [cb]) ==
              if ids[cb] in Seen(ids, cbs) then Notify(ids, watched, st, cbs)
              else Notify(ids, watched, st, cbs) + [Delivery(cb, Snapshot(st, watched[cb]))]
  {
    assert (cbs + [cb])[..|cbs|] == cbs;
    assert (cbs + [cb])[|cbs|] == cb;
  }

  /** Walking the next callback of a subscription list. */
  lemma WalkStep(ids: map<Callback, nat>, watched: map<Callback, seq<string>>, st: map<string, Value>,
                 walked: seq<Callback>, subList: seq<Callback>, j: nat)
    requires j < |subList|
    requires Tagged(ids, watched, walked + subList)
    ensures Tagged(ids, watched, walked + subList[..j]) && Tagged(ids, watched, walked + subList[..j + 1])
    ensures subList[j] in ids && subList[j] in watched
    ensures Seen(ids, walked + subList[..j + 1]) == Seen(ids, walked + subList[..j]) + {ids[subList[j]]}
    ensures Notify(ids, watched, st, walked + subList[..j + 1]) ==
              if ids[subList[j]] in Seen(ids, walked + subList[..j]) then Notify(ids, watched, st, walked + subList[..j])
              else Notify(ids, watched, st, walked + subList[..j]) + [Delivery(subList[j], Snapshot(st, watched[subList[j]]))]
  {
    assert walked + subList[..j + 1] == (walked + subList[..j]) + [subList[j]];
    assert (walked + subList)[|walked| + j] == subList[j];
    assert forall i :: 0 <= i < |walked| + j + 1 ==> (walked + subList[..j + 1])[i] == (walked + subList)[i];
    assert forall i :: 0 <= i < |walked| + j ==> (walked + subList[..j])[i] == (walked + subList)[i];
    NotifyStep(ids, watched, st, walked + subList[..j], subList[j]);
  }

  /** No two deliveries of one walk share an id. */
  lemma {:induction false} NotifyDistinct(ids: map<Callback, nat>, watched: map<Callback, seq<string>>,
                                          st: map<string, Value>, cbs: seq<Callback>)
    requires Tagged(ids, watched, cbs)
    ensures forall i, j :: 0 <= i < j < |Notify(ids, watched, st, cbs)| ==>
              ids[Notify(ids, watched, st, cbs)[i].cb] != ids[Notify(ids, watched, st, cbs)[j].cb]
    decreases |cbs|
  {
    if cbs != [] {
      var front := cbs[..|cbs| - 1];
      var cb := cbs[|cbs| - 1];
      NotifyDistinct(ids, watched, st, front);
      NotifyFrom(ids, watched, st, front);
      SeenMembers(ids, front);
      var out := Notify(ids, watched, st, front);
      if ids[cb] !in Seen(ids, front) {
        forall i | 0 <= i < |out|
          ensures ids[out[i].cb] != ids[cb]
        {
          assert out[i] in out;
          var k :| 0 <= k < |front| && front[k] == out[i].cb;
        }
      }
    }
  }

  /** Every walked callback's id gets a delivery. */
  lemma {:induction false} NotifyComplete(ids: map<Callback, nat>, watched: map<Callback, seq<string>>,
                                          st: map<string, Value>, cbs: seq<Callback>, c: Callback)
    requires Tagged(ids, watched, cbs)
    requires c in cbs
    ensures exists i :: 0 <= i < |Notify(ids, watched, st, cbs)| && ids[Notify(ids, watched, st, cbs)[i].cb] == ids[c]
    decreases |cbs|
  {
    var front := cbs[..|cbs| - 1];
    var cb := cbs[|cbs| - 1];
    var out := Notify(ids, watched, st, front);
    var r := Notify(ids, watched, st, cbs);
    if c in front {
      NotifyComplete(ids, watched, st, front, c);
      var i :| 0 <= i < |out| && ids[out[i].cb] == ids[c];
      assert r[i] == out[i];
    } else if ids[cb] in Seen(ids, front) {
      assert c == cb;
      SeenMembers(ids, front);
      var k :| 0 <= k < |front| && ids[front[k]] == ids[cb];
      NotifyComplete(ids, watched, st, front, front[k]);
    } else {
      assert r[|out|].cb == c;
    }
  }

  /** stateSubscribe's pushes: `cb` goes on the end of the list of every key
      of `keys` (twice for a key listed twice). */
  function AddSubscriber(subscriptions: map<string, seq<Callback>>, keys: seq<string>, cb: Callback): map<string, seq<Callback>>
  {
    if keys == [] then subscriptions
    else
      var before := AddSubscriber(subscriptions, keys[..|keys| - 1], cb);
      var key := keys[|keys| - 1];
      before[key := (if key in before then before[key] else []) + [cb]]
  }

  /** After subscribing, a callback is on the list of a key exactly when it
      was before or the key is one it subscribed with; no other callback
      joins a list. */
  lemma {:induction false} AddSubscriberMembers(subscriptions: map<string, seq<Callback>>, keys: seq<string>,
                                                cb: Callback, key: string, c: Callback)
    ensures key in AddSubscriber(subscriptions, keys, cb) <==> key in subscriptions || key in keys
    ensures key in AddSubscriber(subscriptions, keys, cb) ==>
              (c in AddSubscriber(subscriptions, keys, cb)[key] <==>
                 (key in subscriptions && c in subscriptions[key]) || (c == cb && key in keys))
    decreases |keys|
  {
    if keys != [] {
      var front := keys[..|keys| - 1];
      AddSubscriberMembers(subscriptions, front, cb, key, c);
      assert keys == front + [keys[|keys| - 1]];
    }
  }

  /** Every callback on a subscription list has an id and watched keys. */
  predicate ListsTagged(subscriptions: map<string, seq<Callback>>, ids: map<Callback, nat>,
                        watched: map<Callback, seq<string>>) {
    forall key, c :: key in subscriptions && c in subscriptions[key] ==> c in ids && c in watched
  }

  /** Every id was drawn from the serial counter. */
  predicate IdsDrawn(ids: map<Callback, nat>, serial: nat) {
    forall c :: c in ids ==> 0 < ids[c] <= serial
  }

  /** No two callbacks share an id. */
  predicate IdsDistinct(ids: map<Callback, nat>) {
    forall c1, c2 :: c1 in ids && c2 in ids && c1 != c2 ==> ids[c1] != ids[c2]
  }

  /** AddSubscriber over one more key pushes `cb` on that key's list. */
  lemma AddSubscriberStep(subscriptions: map<string, seq<Callback>>, keys: seq<string>, i: nat, cb: Callback)
    requires i < |keys|
    ensures var before := AddSubscriber(subscriptions, keys[..i], cb);
            AddSubscriber(subscriptions, keys[..i + 1], cb)
              == before[keys[i] := (if keys[i] in before then before[keys[i]] else []) + [cb]]
  {
    assert keys[..i + 1][..i] == keys[..i];
  }

  /** Subscribing with at least one key keeps the three invariants: every
      callback now listed was listed before or is `cb`, and `cb`'s id, the
      last serial drawn, is above every id drawn before. */
  lemma {:induction false} SubscribeKeepsTags(subscriptions: map<string, seq<Callback>>, ids: map<Callback, nat>,
                                              watched: map<Callback, seq<string>>, serial: nat, keys: seq<string>,
                                              cb: Callback)
    requires ListsTagged(subscriptions, ids, watched) && IdsDrawn(ids, serial) && IdsDistinct(ids)
    requires keys != []
    ensures ListsTagged(AddSubscriber(subscriptions, keys, cb), ids[cb := serial + |keys|], watched[cb := keys])
    ensures IdsDrawn(ids[cb := serial + |keys|], serial + |keys|) && IdsDistinct(ids[cb := serial + |keys|])
  {
    var subs := AddSubscriber(subscriptions, keys, cb);
    forall key, c | key in subs && c in subs[key]
      ensures c in ids[cb := serial + |keys|] && c in watched[cb := keys]
    {
      AddSubscriberMembers(subscriptions, keys, cb, key, c);
    }
  }

  /** The loop of stateSubscribe on the hub's fields: each key draws the
      next serial as `cb`'s id, records `cb`'s keys and pushes `cb` on the
      key's list. */
  method SubscribeAll(subscriptions: map<string, seq<Callback>>, ids: map<Callback, nat>,
                      watched: map<Callback, seq<string>>, serial: nat, keys: seq<string>, cb: Callback)
    returns (subs: map<string, seq<Callback>>, ids': map<Callback, nat>, watched': map<Callback, seq<string>>, ser: nat)
    ensures subs == AddSubscriber(subscriptions, keys, cb)
    ensures ser == serial + |keys|
    ensures keys != [] ==> ids' == ids[cb := ser] && watched' == watched[cb := keys]
    ensures keys == [] ==> ids' == ids && watched' == watched
  {
    subs, ids', watched', ser := subscriptions, ids, watched, serial;
    var i := 0;
    while i < |keys|
      invariant 0 <= i <= |keys|
      invariant ser == serial + i
      invariant subs == AddSubscriber(subscriptions, keys[..i], cb)
      invariant i > 0 ==> ids' == ids[cb := ser] && watched' == watched[cb := keys]
      invariant i == 0 ==> ids' == ids && watched' == watched
    {
      var key := keys[i];
      AddSubscriberStep(subscriptions, keys, i, cb);
      ser := ser + 1;
      ids' := ids'[cb := ser];
      watched' := watched'[cb := keys];
      var list := if key in subs then subs[key] else [];
      subs := subs[key := list + [cb]];
      i := i + 1;
    }
    assert keys[..|keys|] == keys;
  }

  /** Walking the lists of tagged callbacks walks only tagged callbacks. */
  lemma {:induction false} CandidatesTagged(subscriptions: map<string, seq<Callback>>, ids: map<Callback, nat>,
                                            watched: map<Callback, seq<string>>, keys: seq<string>)
    requires ListsTagged(subscriptions, ids, watched)
    ensures Tagged(ids, watched, Candidates(subscriptions, keys))
    decreases |keys|
  {
    if keys != [] {
      CandidatesTagged(subscriptions, ids, watched, keys[..|keys| - 1]);
      var last := keys[|keys| - 1];
      if last in subscriptions {
        var list := subscriptions[last];
        assert forall i :: 0 <= i < |list| ==> list[i] in subscriptions[last];
      }
    }
  }

  /** The hub's state: the `state` object's fields, the `subscriptions`
      lists, each callback's `__subscriber_id` and `__subscriber_keys`,
      `subscriberSerial`, and the queue of notifications not yet delivered.
      The methods build the new field values in locals and store them when
      they finish; nothing runs in between that could see the difference. */
  class Hub {
    var state: map<string, Value>
    var subscriptions: map<string, seq<Callback>>
    var subscriberId: map<Callback, nat>
    var subscriberKeys: map<Callback, seq<string>>
    var serial: nat
    var pending: seq<Delivery>

    /** Every listed callback is tagged, every id was drawn from the serial,
        and no two callbacks share an id. */
    predicate Valid()
      reads this
    {
      ListsTagged(subscriptions, subscriberId, subscriberKeys) && IdsDrawn(subscriberId, serial) && IdsDistinct(subscriberId)
    }

    /** The `state` object as the page starts: MIDI support and input unknown. */
    constructor ()
      ensures Valid()
      ensures state == map["hasMidiSupport" := Null, "hasMidiInput" := Null]
      ensures subscriptions == map[] && subscriberId == map[] && subscriberKeys == map[]
      ensures serial == 0 && pending == []
    {
      state := map["hasMidiSupport" := Null, "hasMidiInput" := Null];
      subscriptions := map[];
      subscriberId := map[];
      subscriberKeys := map[];
      serial := 0;
      pending := [];
    }

    /** stateSubscribe: for each key, draw the next serial as the callback's
        id, record its keys and push it on the key's list. The callback ends
        with the last serial drawn; with no keys nothing changes. */
    method Subscribe(keys: seq<string>, cb: Callback)
      requires Valid()
      modifies this
      ensures Valid()
      ensures subscriptions == AddSubscriber(old(subscriptions), keys, cb)
      ensures serial == old(serial) + |keys|
      ensures keys != [] ==> subscriberId == old(subscriberId)[cb := serial] && subscriberKeys == old(subscriberKeys)[cb := keys]
      ensures keys == [] ==> subscriberId == old(subscriberId) && subscriberKeys == old(subscriberKeys)
      ensures state == old(state) && pending == old(pending)
    {
      var subs, ids, watched, ser := SubscribeAll(subscriptions, subscriberId, subscriberKeys, serial, keys, cb);
      if keys != [] {
        SubscribeKeepsTags(subscriptions, subscriberId, subscriberKeys, serial, keys, cb);
      }
      subscriptions, subscriberId, subscriberKeys, serial := subs, ids, watched, ser;
    }

    /** updateState: merge the fields, then walk the subscription lists of the
        fields' keys and queue one snapshot, taken after the merge, for each
        id not yet notified in this call. */
    method Update(newState: seq<(string, Value)>)
      requires Valid()
      modifies this
      ensures Valid()
      ensures state == Merge(old(state), newState)
      ensures subscriptions == old(subscriptions) && subscriberId == old(subscriberId)
      ensures subscriberKeys == old(subscriberKeys) && serial == old(serial)
      ensures Tagged(subscriberId, subscriberKeys, Candidates(subscriptions, Keys(newState)))
      ensures pending == old(pending) + Notify(subscriberId, subscriberKeys, state, Candidates(subscriptions, Keys(newState)))
    {
      var merged := Assign(state, newState);
      var queue := NotifyAll(subscriptions, subscriberId, subscriberKeys, merged, Keys(newState), pending);
      state, pending := merged, queue;
    }

    /** The timer of the oldest queued notification fires: `cb(subState)`. */
    method Deliver() returns (d: Option<Delivery>)
      modifies this
      ensures old(pending) == [] ==> d == None && pending == []
      ensures old(pending) != [] ==> d == Some(old(pending)[0]) && pending == old(pending)[1..]
      ensures unchanged(`state, `subscriptions, `subscriberId, `subscriberKeys, `serial)
    {
      if pending == [] {
        return None;
      }
      d := Some(pending[0]);
      pending := pending[1..];
    }
  }

  /** `Object.assign(state, newState)`. */
  method Assign(st: map<string, Value>, fields: seq<(string, Value)>) returns (merged: map<string, Value>)
    ensures merged == Merge(st, fields)
  {
    merged := st;
    var i := 0;
    while i < |fields|
      invariant 0 <= i <= |fields|
      invariant merged == Merge(st, fields[..i])
    {
      merged := merged[fields[i].0 := fields[i].1];
      assert fields[..i + 1][..i] == fields[..i];
      i := i + 1;
    }
    assert fields[..|fields|] == fields;
  }

  /** The outer `forEach` of updateState over the keys of `newState`, with
      its `notified` dictionary, appending to the queue `base`. */
  method NotifyAll(subscriptions: map<string, seq<Callback>>, ids: map<Callback, nat>,
                   watched: map<Callback, seq<string>>, st: map<string, Value>,
                   keys: seq<string>, base: seq<Delivery>)
    returns (queue: seq<Delivery>)
    requires ListsTagged(subscriptions, ids, watched)
    ensures Tagged(ids, watched, Candidates(subscriptions, keys))
    ensures queue == base + Notify(ids, watched, st, Candidates(subscriptions, keys))
  {
    queue := base;
    var notified: set<nat> := {};
    var i := 0;
    assert Candidates(subscriptions, keys[..0]) == [] by {
      assert keys[..0] == [];
    }
    while i < |keys|
      invariant 0 <= i <= |keys|
      invariant Tagged(ids, watched, Candidates(subscriptions, keys[..i]))
      invariant queue == base + Notify(ids, watched, st, Candidates(subscriptions, keys[..i]))
      invariant notified == Seen(ids, Candidates(subscriptions, keys[..i]))
    {
      queue, notified := NotifyKey(subscriptions, ids, watched, st, keys, i, keys[i], base, queue, notified);
      i := i + 1;
    }
    assert keys[..|keys|] == keys;
  }

  /** One step of updateState's outer `forEach`: the subscription list of
      `keys[i]`, if the key has one, is walked after those of `keys[..i]`. */
  method NotifyKey(subscriptions: map<string, seq<Callback>>, ids: map<Callback, nat>,
                   watched: map<Callback, seq<string>>, st: map<string, Value>,
                   keys: seq<string>, i: nat, key: string, base: seq<Delivery>,
                   queue0: seq<Delivery>, notified0: set<nat>)
    returns (queue: seq<Delivery>, notified: set<nat>)
    requires ListsTagged(subscriptions, ids, watched) && i < |keys| && key == keys[i]
    requires Tagged(ids, watched, Candidates(subscriptions, keys[..i]))
    requires queue0 == base + Notify(ids, watched, st, Candidates(subscriptions, keys[..i]))
    requires notified0 == Seen(ids, Candidates(subscriptions, keys[..i]))
    ensures Tagged(ids, watched, Candidates(subscriptions, keys[..i + 1]))
    ensures queue == base + Notify(ids, watched, st, Candidates(subscriptions, keys[..i + 1]))
    ensures notified == Seen(ids, Candidates(subscriptions, keys[..i + 1]))
  {
    CandidatesStep(subscriptions, keys, i);
    CandidatesTagged(subscriptions, ids, watched, keys[..i + 1]);
    ghost var walked := Candidates(subscriptions, keys[..i]);
    if key in subscriptions {
      queue, notified := NotifyList(ids, watched, st, walked, subscriptions[key], base, queue0, notified0);
    } else {
      assert Candidates(subscriptions, keys[..i + 1]) == walked;
      queue, notified := queue0, notified0;
    }
  }

  /** The inner `forEach` of updateState over one subscription list,
      continuing a walk that has visited `walked` and queued `queue0`. */
  method NotifyList(ids: map<Callback, nat>, watched: map<Callback, seq<string>>, st: map<string, Value>,
                    ghost walked: seq<Callback>, subList: seq<Callback>, ghost base: seq<Delivery>,
                    queue0: seq<Delivery>, notified0: set<nat>)
    returns (queue: seq<Delivery>, notified: set<nat>)
    requires Tagged(ids, watched, walked) && Tagged(ids, watched, walked + subList)
    requires queue0 == base + Notify(ids, watched, st, walked) && notified0 == Seen(ids, walked)
    ensures queue == base + Notify(ids, watched, st, walked + subList) && notified == Seen(ids, walked + subList)
  {
    queue, notified := queue0, notified0;
    var j := 0;
    assert walked + subList[..0] == walked;
    while j < |subList|
      invariant 0 <= j <= |subList|
      invariant Tagged(ids, watched, walked + subList[..j])
      invariant queue == base + Notify(ids, watched, st, walked + subList[..j])
      invariant notified == Seen(ids, walked + subList[..j])
    {
      var cb := subList[j];
      WalkStep(ids, watched, st, walked, subList, j);
      if ids[cb] !in notified {
        queue := queue + [Delivery(cb, Snapshot(st, watched[cb]))];
      }
      notified := notified + {ids[cb]};
      j := j + 1;
    }
    assert subList[..|subList|] == subList;
  }

  /** What one updateState call queues, for a hub whose ids are distinct:
      one delivery for each callback on the list of a key of `newState` and
      for no other callback, never two for the same callback, each carrying
      that callback's watched keys with their values after the merge. */
  lemma UpdateNotifiesWatchersOnce(subscriptions: map<string, seq<Callback>>, ids: map<Callback, nat>,
                                   watched: map<Callback, seq<string>>, st: map<string, Value>,
                                   newState: seq<(string, Value)>, cb: Callback)
    requires ListsTagged(subscriptions, ids, watched) && IdsDistinct(ids)
    ensures Tagged(ids, watched, Candidates(subscriptions, Keys(newState)))
    ensures var out := Notify(ids, watched, Merge(st, newState), Candidates(subscriptions, Keys(newState)));
              (exists i :: 0 <= i < |out| && out[i].cb == cb) <==>
                (exists i :: 0 <= i < |newState| && newState[i].0 in subscriptions && cb in subscriptions[newState[i].0])
    ensures var out := Notify(ids, watched, Merge(st, newState), Candidates(subscriptions, Keys(newState)));
              forall i, j :: 0 <= i < j < |out| ==> out[i].cb != out[j].cb
    ensures var out := Notify(ids, watched, Merge(st, newState), Candidates(subscriptions, Keys(newState)));
              forall i :: 0 <= i < |out| ==> out[i].cb in watched && out[i].snapshot == Snapshot(Merge(st, newState), watched[out[i].cb])
  {
    var keys := Keys(newState);
    CandidatesTagged(subscriptions, ids, watched, keys);
    var cbs := Candidates(subscriptions, keys);
    var st' := Merge(st, newState);
    NotifyDistinct(ids, watched, st', cbs);
    NotifyFrom(ids, watched, st', cbs);
    CandidatesMembers(subscriptions, keys, cb);
    assert forall i :: 0 <= i < |newState| ==> keys[i] == newState[i].0;
    var out := Notify(ids, watched, st', cbs);
    if cb in cbs {
      NotifyComplete(ids, watched, st', cbs, cb);
      var i :| 0 <= i < |out| && ids[out[i].cb] == ids[cb];
      assert out[i] in out;
      assert out[i].cb == cb;
    }
    forall i | 0 <= i < |out|
      ensures out[i].cb in watched && out[i].snapshot == Snapshot(st', watched[out[i].cb])
    {
      assert out[i] in out;
    }
  }

  /** The message of the MIDI status line. */
  datatype MidiStatus = Connected | Disconnected | Unsupported | Initializing

  /** JavaScript truthiness of a field. */
  predicate Truthy(v: Value) {
    v == Bool(true)
  }

  /** The status subscriber of initMidi: an input connected, else MIDI
      supported but no input, else support known to be missing (`=== false`),
      else still unknown. */
  function Classify(snapshot: map<string, Value>): (r: MidiStatus)
    ensures r == Connected <==> Truthy(Lookup(snapshot, "hasMidiInput"))
    ensures r == Disconnected <==> !Truthy(Lookup(snapshot, "hasMidiInput")) && Truthy(Lookup(snapshot, "hasMidiSupport"))
    ensures r == Unsupported <==> !Truthy(Lookup(snapshot, "hasMidiInput")) && Lookup(snapshot, "hasMidiSupport") == Bool(false)
    ensures r == Initializing <==>
              !Truthy(Lookup(snapshot, "hasMidiInput")) && Lookup(snapshot, "hasMidiSupport") in {Undefined, Null}
  {
    if Truthy(Lookup(snapshot, "hasMidiInput")) then Connected
    else if Truthy(Lookup(snapshot, "hasMidiSupport")) then Disconnected
    else if Lookup(snapshot, "hasMidiSupport") == Bool(false) then Unsupported
    else Initializing
  }

  /** The status line's text, `'MIDI: ' + mesg`. */
  function StatusText(s: MidiStatus): string {
    "MIDI: " + match s
      case Connected => "Device Connected"
      case Disconnected => "Device Disconnected"
      case Unsupported => "Not Supported"
      case Initializing => "Initializing"
  }

  /** The status line's class, the base class plus one modifier. */
  function StatusClass(s: MidiStatus): string {
    "midi-status " + match s
      case Connected => "connected"
      case Disconnected => "disconnected"
      case Unsupported => "unsupported"
      case Initializing => "initializing"
  }

  /** The keys initMidi subscribes the status line with. */
  const STATUS_KEYS: seq<string> := ["hasMidiInput", "hasMidiSupport"]

  /** The status line shows each status with its own text and class. */
  lemma StatusRenderingDistinct(s1: MidiStatus, s2: MidiStatus)
    ensures StatusText(s1) == StatusText(s2) <==> s1 == s2
    ensures StatusClass(s1) == StatusClass(s2) <==> s1 == s2
  {
    if s1 != s2 {
      var t1, t2 := StatusText(s1), StatusText(s2);
      var c1, c2 := StatusClass(s1), StatusClass(s2);
      assert t1[6..] != t2[6..] || |t1| != |t2|;
      assert c1[12..] != c2[12..] || |c1| != |c2|;
    }
  }

  /** What Classify returns for the snapshots of the status subscriber:
      Initializing while `hasMidiSupport` is `null` (the values `state` starts
      with), Unsupported once it is `false` (a rejected MIDI request),
      Disconnected while it is `true` and `hasMidiInput` is not, Connected
      once `hasMidiInput` is `true`. */
  lemma StatusLifecycle()
    ensures Classify(Snapshot(map["hasMidiSupport" := Null, "hasMidiInput" := Null], STATUS_KEYS)) == Initializing
    ensures Classify(Snapshot(map["hasMidiSupport" := Bool(false), "hasMidiInput" := Null], STATUS_KEYS)) == Unsupported
    ensures Classify(Snapshot(map["hasMidiSupport" := Bool(true), "hasMidiInput" := Null], STATUS_KEYS)) == Disconnected
    ensures Classify(Snapshot(map["hasMidiSupport" := Bool(true), "hasMidiInput" := Bool(false)], STATUS_KEYS)) == Disconnected
    ensures Classify(Snapshot(map["hasMidiSupport" := Bool(true), "hasMidiInput" := Bool(true)], STATUS_KEYS)) == Connected
  {
    assert "hasMidiInput" in STATUS_KEYS && "hasMidiSupport" in STATUS_KEYS;
  }
}
