/** Properties of the observable store that relate several operations. */
module StoreLemmas {
  import opened Stores

  /** How many notifications in `ns` went to `id`. */
  function Count<V>(ns: seq<Notification<V>>, id: Id): nat {
    if ns == [] then 0
    else (if ns[0].id == id then 1 else 0) + Count(ns[1..], id)
  }

  /** A dispatch over a list without duplicates notifies each listed id
      exactly once and no other id at all. */
  lemma {:induction false} NotifyCount<V>(ids: seq<Id>, subscribers: map<Id, Callback>,
                                          state: State<V>, id: Id)
    requires forall x | x in ids :: x in subscribers
    requires NoDup(ids)
    ensures Count(Notify(ids, subscribers, state), id) == (if id in ids then 1 else 0)
  {
    if ids != [] {
      NoDupCons(ids[0], ids[1..]);
      assert ids == [ids[0]] + ids[1..];
      NotifyCount(ids[1..], subscribers, state, id);
      var ns := Notify(ids, subscribers, state);
      assert ns[1..] == Notify(ids[1..], subscribers, state);
    }
  }

  /** A `set` that changes the state notifies every `SET_STATE` subscriber
      exactly once, each with the new state, and nobody else. */
  lemma SetNotifiesEachSubscriberOnce<V>(s: Store<V>, upd: Update<V>, id: Id)
    requires WellFormed(s) && DispatchReady(s, SET_STATE)
    requires !AlreadyHolds(s.state, Resolve(s.state, upd))
    ensures var r := Set(s, upd);
      var sent := r.log[|s.log|..];
      && r.state != s.state
      && Count(sent, id)
           == (if SET_STATE in s.subscriptionMap && id in s.subscriptionMap[SET_STATE] then 1 else 0)
      && forall n | n in sent :: n.state == r.state && n.id in s.subscribers
           && n.callback == s.subscribers[n.id]
  {
    var r := Set(s, upd);
    if SET_STATE in s.subscriptionMap {
      assert r.log[|s.log|..] == Notify(s.subscriptionMap[SET_STATE], s.subscribers, r.state);
      NotifyCount(s.subscriptionMap[SET_STATE], s.subscribers, r.state, id);
    } else {
      assert r.log[|s.log|..] == [];
    }
  }

  /** A second `set` with the same partial state changes nothing. */
  lemma SetPartialIdempotent<V>(s: Store<V>, u: State<V>)
    requires !AlreadyHolds(s.state, u) ==> DispatchReady(s, SET_STATE)
    ensures var r := Set(s, Partial(u));
      AlreadyHolds(r.state, u) && Set(r, Partial(u)) == r
  {
  }

  /** The setter form is the partial form applied to the partial state the
      setter computes from the current state. */
  lemma SetterIsPartialOfCurrentState<V>(s: Store<V>, f: State<V> -> State<V>)
    requires !AlreadyHolds(s.state, f(s.state)) ==> DispatchReady(s, SET_STATE)
    ensures Set(s, Setter(f)) == Set(s, Partial(f(s.state)))
  {
  }

  /** A `set` that changes nothing is quiet even on a store whose `SET_STATE`
      list holds an id without a callback (left by a wrong-event
      `unsubscribe`): no dispatch happens, so nothing fails. */
  lemma NoOpSetOnDanglingStore(cb: Callback)
    ensures var s := Subscribe(NewStore<int>(map["k" := 1]), SET_STATE, cb);
      var id := GetLastSubscriberId(s);
      var t := Unsubscribe(Subscribe(s, "x", cb), "x", id);
      && !DispatchReady(t, SET_STATE)
      && Set(t, Partial(map["k" := 1])) == t
  {
  }

  /** Unsubscribing the id `subscribe` just issued restores the registry; the
      only trace left is the (possibly new, now empty) list of the event. */
  lemma UnsubscribeUndoesSubscribe<V>(s: Store<V>, e: EventName, cb: Callback)
    requires WellFormed(s)
    ensures var t := Subscribe(s, e, cb);
      var r := Unsubscribe(t, e, GetLastSubscriberId(t));
      && r.subscribers == s.subscribers
      && r.subscriptionMap
           == s.subscriptionMap[e := if e in s.subscriptionMap then s.subscriptionMap[e] else []]
  {
    UndoFreshSubscribe(s, e, cb);
  }

  lemma UndoFreshSubscribe<V>(s: Store<V>, e: EventName, cb: Callback)
    requires Generated(s.nextId) !in s.subscribers
    requires e in s.subscriptionMap ==> Generated(s.nextId) !in s.subscriptionMap[e]
    ensures var t := Subscribe(s, e, cb);
      var r := Unsubscribe(t, e, GetLastSubscriberId(t));
      && r.subscribers == s.subscribers
      && r.subscriptionMap
           == s.subscriptionMap[e := if e in s.subscriptionMap then s.subscriptionMap[e] else []]
  {
    UndoFreshSubscribers(s, e, cb);
    UndoFreshSubscriptions(s, e, cb);
  }

  lemma UndoFreshSubscribers<V>(s: Store<V>, e: EventName, cb: Callback)
    requires Generated(s.nextId) !in s.subscribers
    ensures var t := Subscribe(s, e, cb);
      Unsubscribe(t, e, GetLastSubscriberId(t)).subscribers == s.subscribers
  {
  }

  lemma UndoFreshSubscriptions<V>(s: Store<V>, e: EventName, cb: Callback)
    requires e in s.subscriptionMap ==> Generated(s.nextId) !in s.subscriptionMap[e]
    ensures var t := Subscribe(s, e, cb);
      Unsubscribe(t, e, GetLastSubscriberId(t)).subscriptionMap
        == s.subscriptionMap[e := if e in s.subscriptionMap then s.subscriptionMap[e] else []]
  {
    var id := Generated(s.nextId);
    var list := if e in s.subscriptionMap then s.subscriptionMap[e] else [];
    SubscribeMap(s, e, cb);
    UnsubscribeAppended(Subscribe(s, e, cb), s.subscriptionMap, e, list, id);
  }

  lemma UnsubscribeAppended<V>(t: Store<V>, m: map<EventName, seq<Id>>, e: EventName,
                               list: seq<Id>, id: Id)
    requires t.subscriptionMap == m[e := list + [id]] && id !in list
    ensures Unsubscribe(t, e, id).subscriptionMap == m[e := list]
  {
    RemoveAppended(list, id);
    UnsubscribeMap(t, e, id);
  }

  lemma SubscribeMap<V>(s: Store<V>, e: EventName, cb: Callback)
    ensures var t := Subscribe(s, e, cb);
      && t.lastSubscriber == Generated(s.nextId)
      && t.subscriptionMap == s.subscriptionMap[e := (if e in s.subscriptionMap
                                                    then s.subscriptionMap[e] else [])
                                                   + [Generated(s.nextId)]]
  {
  }

  lemma UnsubscribeMap<V>(s: Store<V>, e: EventName, id: Id)
    requires e in s.subscriptionMap
    ensures Unsubscribe(s, e, id).subscriptionMap
              == s.subscriptionMap[e := Remove(s.subscriptionMap[e], id)]
  {
  }

  lemma {:induction false} RemoveAppended(xs: seq<Id>, x: Id)
    requires x !in xs
    ensures Remove(xs + [x], x) == xs
  {
    if xs != [] {
      assert (xs + [x])[1..] == xs[1..] + [x];
      RemoveAppended(xs[1..], x);
      assert xs == [xs[0]] + xs[1..];
    }
  }

  /** Subscribe, unsubscribe with `getLastSubscriberId()`, dispatch: the
      dispatch does not reach the removed subscriber. */
  lemma SubscribeUnsubscribeDispatch<V>(s: Store<V>, e: EventName, cb: Callback)
    requires WellFormed(s) && DispatchReady(s, e)
    ensures var t := Subscribe(s, e, cb);
      var id := GetLastSubscriberId(t);
      var u := Unsubscribe(t, e, id);
      && DispatchReady(u, e)
      && var r := Dispatch(u, e);
         forall n | n in r.log[|s.log|..] :: n.id != id
  {
    var t := Subscribe(s, e, cb);
    var id := GetLastSubscriberId(t);
    assert OwnEvent(t, id, e);
    var u := Unsubscribe(t, e, id);
    assert DispatchReady(u, e);
  }

  /** A removed id is never issued again: unsubscribing it a second time,
      after a new subscription to the same event, removes nobody. */
  lemma StaleUnsubscribeRemovesNobody(cb: Callback)
    ensures var s := Subscribe(NewStore<int>(map[]), "a", cb);
      var id := GetLastSubscriberId(s);
      var t := Subscribe(Unsubscribe(s, "a", id), "a", cb);
      && GetLastSubscriberId(t) != id
      && Unsubscribe(t, "a", id) == t
  {
    var s := Subscribe(NewStore<int>(map[]), "a", cb);
    var id := GetLastSubscriberId(s);
    var u := Unsubscribe(s, "a", id);
    assert u.nextId == 1;
    var t := Subscribe(u, "a", cb);
    assert id == Generated(0) && t.lastSubscriber == Generated(1);
    assert WellFormed(t);
    UnsubscribeUnknownId(t, "a", id);
  }

  /** Unsubscribing an id that has no callback and is not listed under the
      event changes nothing. */
  lemma UnsubscribeUnknownId<V>(s: Store<V>, e: EventName, id: Id)
    requires id !in s.subscribers && (e in s.subscriptionMap ==> id !in s.subscriptionMap[e])
    ensures Unsubscribe(s, e, id) == s
  {
    if e in s.subscriptionMap {
      assert s.subscriptionMap[e := s.subscriptionMap[e]] == s.subscriptionMap;
      assert s.subscribers - {id} == s.subscribers;
    }
  }

  /** Unsubscribing with an event other than the id's own deletes the
      callback while the id stays listed: the registry invariant breaks. */
  lemma UnsubscribeWrongEventDangles(cb: Callback)
    ensures var s := Subscribe(NewStore<int>(map[]), "a", cb);
      var id := GetLastSubscriberId(s);
      var t := Subscribe(s, "b", cb);
      var r := Unsubscribe(t, "b", id);
      && Registered(t)
      && id in r.subscriptionMap["a"] && id !in r.subscribers
      && !DispatchReady(r, "a")
  {
  }

  /** `onSetState(cb)` followed by a state-changing `set`: `cb` is invoked
      once, with the new state. */
  lemma OnSetStateThenSet<V>(s: Store<V>, cb: Callback, upd: Update<V>)
    requires WellFormed(s) && DispatchReady(s, SET_STATE)
    requires !AlreadyHolds(s.state, Resolve(s.state, upd))
    ensures var t := OnSetState(s, cb);
      var id := GetLastSubscriberId(t);
      var r := Set(t, upd);
      && r.state == Merge(s.state, Resolve(s.state, upd))
      && Count(r.log[|t.log|..], id) == 1
      && Notification(id, cb, r.state) in r.log[|t.log|..]
  {
    var t := OnSetState(s, cb);
    var id := GetLastSubscriberId(t);
    SetNotifiesEachSubscriberOnce(t, upd, id);
    var r := Set(t, upd);
    var list := t.subscriptionMap[SET_STATE];
    assert r.log[|t.log|..] == Notify(list, t.subscribers, r.state);
    assert list[|list| - 1] == id;
    assert r.log[|t.log|..][|list| - 1] == Notification(id, cb, r.state);
  }

  /** A `set` never notifies an id that is not subscribed to `SET_STATE`. */
  lemma SetSkipsUnsubscribed<V>(s: Store<V>, upd: Update<V>, id: Id)
    requires WellFormed(s) && DispatchReady(s, SET_STATE)
    requires SET_STATE in s.subscriptionMap ==> id !in s.subscriptionMap[SET_STATE]
    ensures Count(Set(s, upd).log[|s.log|..], id) == 0
  {
    if !AlreadyHolds(s.state, Resolve(s.state, upd)) {
      SetNotifiesEachSubscriberOnce(s, upd, id);
    } else {
      assert Set(s, upd).log[|s.log|..] == [];
    }
  }

  /** Attach, a changing `set`, detach, another `set`: the component is
      invoked once by the first `set` and not at all by the second. */
  lemma AttachDetachComponent<V>(s: Store<V>, cb: Callback, u1: Update<V>, u2: Update<V>)
    requires WellFormed(s) && DispatchReady(s, SET_STATE)
    ensures var a := AttachComponent(s, cb);
      var id := a.mountedId;
      var r1 := Set(a, u1);
      var d := DetachComponent(r1);
      && WellFormed(d) && DispatchReady(d, SET_STATE)
      && (Registered(s) ==> Registered(d))
      && (!AlreadyHolds(a.state, Resolve(a.state, u1)) ==>
            Count(r1.log[|a.log|..], id) == 1)
      && Count(Set(d, u2).log[|d.log|..], id) == 0
  {
    var a := AttachComponent(s, cb);
    var id := a.mountedId;
    assert WellFormed(a) && DispatchReady(a, SET_STATE);
    if !AlreadyHolds(a.state, Resolve(a.state, u1)) {
      SetNotifiesEachSubscriberOnce(a, u1, id);
    }
    var r1 := Set(a, u1);
    SetKeepsInvariants(a, u1);
    DetachedNotNotified(r1, u2);
  }

  /** `set` touches neither the registry nor the recorded component id, so
      both store invariants survive it. */
  lemma SetKeepsInvariants<V>(s: Store<V>, upd: Update<V>)
    requires !AlreadyHolds(s.state, Resolve(s.state, upd)) ==> DispatchReady(s, SET_STATE)
    ensures var r := Set(s, upd);
      && (WellFormed(s) ==> WellFormed(r))
      && (Registered(s) ==> Registered(r))
      && (CallbacksListed(s) ==> CallbacksListed(r))
      && DispatchReady(r, SET_STATE) == DispatchReady(s, SET_STATE)
      && r.mountedId == s.mountedId
  {
  }

  /** After `detachComponent()` no `set` notifies the detached id. */
  lemma DetachedNotNotified<V>(s: Store<V>, upd: Update<V>)
    requires WellFormed(s) && DispatchReady(s, SET_STATE)
    ensures var d := DetachComponent(s);
      && WellFormed(d) && DispatchReady(d, SET_STATE)
      && Count(Set(d, upd).log[|d.log|..], s.mountedId) == 0
  {
    var d := DetachComponent(s);
    assert d.mountedId == s.mountedId;
    SetSkipsUnsubscribed(d, upd, s.mountedId);
  }

  /** Attaching twice overwrites the recorded id: detaching then removes only
      the second component, and the first stays subscribed to `SET_STATE`. */
  lemma AttachTwiceLeaksFirst<V>(s: Store<V>, c1: Callback, c2: Callback)
    requires WellFormed(s)
    ensures var a1 := AttachComponent(s, c1);
      var first := a1.mountedId;
      var r := DetachComponent(AttachComponent(a1, c2));
      && first in r.subscriptionMap[SET_STATE]
      && first in r.subscribers && r.subscribers[first] == c1
  {
    var a1 := AttachComponent(s, c1);
    var first := a1.mountedId;
    assert first in a1.subscriptionMap[SET_STATE] && a1.subscribers[first] == c1;
    var a2 := AttachComponent(a1, c2);
    assert first != a2.mountedId;
    assert first in a2.subscriptionMap[SET_STATE] && a2.subscribers[first] == c1;
    DetachKeepsOthers(a2, first);
  }

  /** Detaching leaves every other `SET_STATE` subscriber in place. */
  lemma DetachKeepsOthers<V>(s: Store<V>, id: Id)
    requires WellFormed(s) && SET_STATE in s.subscriptionMap
    requires id != s.mountedId && id in s.subscriptionMap[SET_STATE] && id in s.subscribers
    ensures var r := DetachComponent(s);
      && id in r.subscriptionMap[SET_STATE]
      && id in r.subscribers && r.subscribers[id] == s.subscribers[id]
  {
  }

  /** The setter of the counter scenario: `s => ({count: s.count + 1})`. */
  function Increment(st: State<int>): State<int> {
    if "count" in st then map["count" := st["count"] + 1] else map[]
  }

  /** The counter scenario: `set(s => ({count: s.count + 1}))` from
      `{count: 0}` yields `{count: 1}`, and a second time `{count: 2}`. */
  lemma SetterAppliedTwice()
    ensures var s := NewStore(map["count" := 0]);
      && Get(Set(s, Setter(Increment))) == map["count" := 1]
      && Get(Set(Set(s, Setter(Increment)), Setter(Increment))) == map["count" := 2]
  {
    var s := NewStore(map["count" := 0]);
    IncrementStep(s, 0);
    IncrementStep(Set(s, Setter(Increment)), 1);
  }

  lemma IncrementStep(s: Store<int>, n: int)
    requires s.state == map["count" := n] && DispatchReady(s, SET_STATE)
    ensures Set(s, Setter(Increment)).state == map["count" := n + 1]
  {
    var next: State<int> := map["count" := n + 1];
    assert Resolve(s.state, Setter(Increment)) == next;
    assert Merge(s.state, next) == next;
  }

}
