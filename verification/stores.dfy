/** The observable store: a state map, a registry of named subscriptions and a
    log of the callback invocations that `Dispatch` performs. Callbacks are
    opaque handles that are recorded, never executed. */
module Stores {

  type Key = string
  type EventName = string

  /** The reserved event that every state-changing `Set` dispatches. */
  const SET_STATE: EventName := "setState"

  /** Subscriber ids. `Blank` is the empty string the store starts its
      `lastSubscriber` and `mountedId` fields with; it is never issued.
      `Generated(n)` is the n-th id issued by the store's own counter. */
  datatype Id = Blank | Generated(n: nat)

  /** An opaque handle on a subscriber callback. */
  datatype Callback = Callback(handle: nat)

  /** The state: top-level keys mapped to opaque values. */
  type State<V> = map<Key, V>

  /** One invocation of a subscriber's callback with the state it received. */
  datatype Notification<V> = Notification(id: Id, callback: Callback, state: State<V>)

  /** The argument of `set`: a partial state, or a function of the current
      state that yields one. */
  datatype Update<!V> = Partial(fields: State<V>) | Setter(f: State<V> -> State<V>)

  datatype Store<V> = Store(
    state: State<V>,
    subscriptionMap: map<EventName, seq<Id>>,
    subscribers: map<Id, Callback>,
    lastSubscriber: Id,
    mountedId: Id,
    nextId: nat,
    log: seq<Notification<V>>)

  predicate NoDup<T(==)>(xs: seq<T>) {
    forall i, j | 0 <= i < j < |xs| :: xs[i] != xs[j]
  }

  /** `id` was handed out by a counter that now stands at `next`. */
  predicate IssuedBefore(id: Id, next: nat) {
    id.Generated? && id.n < next
  }

  /** Every id listed under `e` has a callback: without it the store would
      call an undefined subscriber while dispatching `e`. */
  predicate DispatchReady<V>(s: Store<V>, e: EventName) {
    e in s.subscriptionMap ==>
      forall id | id in s.subscriptionMap[e] :: id in s.subscribers
  }

  /** The registry invariant: every listed id has a callback. */
  predicate Registered<V>(s: Store<V>) {
    forall e | e in s.subscriptionMap :: DispatchReady(s, e)
  }

  /** The converse direction of the registry invariant: every id with a
      callback is listed under some event. */
  predicate CallbacksListed<V>(s: Store<V>) {
    forall id | id in s.subscribers ::
      exists e | e in s.subscriptionMap :: id in s.subscriptionMap[e]
  }

  /** `id` is listed under no event other than `e`. */
  predicate OwnEvent<V>(s: Store<V>, id: Id, e: EventName) {
    forall e' | e' in s.subscriptionMap && id in s.subscriptionMap[e'] :: e' == e
  }

  /** Structural facts every reachable store keeps, whatever the arguments
      of `Unsubscribe`: ids come from the counter, each id is listed at most
      once and under at most one event, and the attached component's id
      belongs to `SET_STATE`. */
  predicate WellFormed<V>(s: Store<V>) {
    && (forall id | id in s.subscribers :: IssuedBefore(id, s.nextId))
    && (forall e | e in s.subscriptionMap ::
          forall id | id in s.subscriptionMap[e] :: IssuedBefore(id, s.nextId))
    && (forall e | e in s.subscriptionMap :: NoDup(s.subscriptionMap[e]))
    && (forall e1, e2, id | e1 in s.subscriptionMap && e2 in s.subscriptionMap
          && id in s.subscriptionMap[e1] && id in s.subscriptionMap[e2] :: e1 == e2)
    && (s.mountedId == Blank || IssuedBefore(s.mountedId, s.nextId))
    && (s.mountedId != Blank ==> SET_STATE in s.subscriptionMap)
    && OwnEvent(s, s.mountedId, SET_STATE)
  }

  /** The constructor: the given state, no subscriptions, nothing notified. */
  function NewStore<V>(initial: State<V>): (s: Store<V>)
    ensures Get(s) == initial
    ensures s.subscriptionMap == map[] && s.subscribers == map[] && s.log == []
    ensures GetLastSubscriberId(s) == Blank && s.mountedId == Blank
    ensures WellFormed(s) && Registered(s) && CallbacksListed(s)
  {
    Store(initial, map[], map[], Blank, Blank, 0, [])
  }

  function Get<V>(s: Store<V>): State<V> {
    s.state
  }

  function GetLastSubscriberId<V>(s: Store<V>): Id {
    s.lastSubscriber
  }

  /** Registers `cb` under `e` with a fresh id appended to `e`'s list (the
      list is created when absent) and remembers that id as the last one. */
  function Subscribe<V>(s: Store<V>, e: EventName, cb: Callback): (r: Store<V>)
    ensures var id := GetLastSubscriberId(r);
      && e in r.subscriptionMap
      && r.subscriptionMap[e]
           == (if e in s.subscriptionMap then s.subscriptionMap[e] else []) + [id]
      && r.subscribers == s.subscribers[id := cb]
      && (WellFormed(s) ==>
            && id !in s.subscribers
            && forall e' | e' in s.subscriptionMap :: id !in s.subscriptionMap[e'])
    ensures forall e' | e' != e ::
      (e' in r.subscriptionMap <==> e' in s.subscriptionMap)
      && (e' in s.subscriptionMap ==> r.subscriptionMap[e'] == s.subscriptionMap[e'])
    ensures r.state == s.state && r.log == s.log && r.mountedId == s.mountedId
    ensures WellFormed(s) ==> WellFormed(r)
    ensures Registered(s) ==> Registered(r)
    ensures CallbacksListed(s) ==> CallbacksListed(r)
  {
    var id := Generated(s.nextId);
    var list := if e in s.subscriptionMap then s.subscriptionMap[e] else [];
    s.(subscriptionMap := s.subscriptionMap[e := list + [id]],
       subscribers := s.subscribers[id := cb],
       lastSubscriber := id,
       nextId := s.nextId + 1)
  }

  lemma NoDupCons(x: Id, xs: seq<Id>)
    ensures NoDup([x] + xs) <==> x !in xs && NoDup(xs)
  {
    var ys := [x] + xs;
    assert forall i | 0 <= i < |xs| :: ys[i + 1] == xs[i];
    if x !in xs && NoDup(xs) {
      forall i, j | 0 <= i < j < |ys| ensures ys[i] != ys[j] {
        if i > 0 { assert ys[i] == xs[i - 1] && ys[j] == xs[j - 1]; }
        else { assert ys[j] == xs[j - 1]; }
      }
    }
    if NoDup(ys) {
      forall i, j | 0 <= i < j < |xs| ensures xs[i] != xs[j] {
        assert ys[i + 1] != ys[j + 1];
      }
      forall k | 0 <= k < |xs| ensures xs[k] != x {
        assert ys[0] != ys[k + 1];
      }
    }
  }

  /** The list without any occurrence of `x`; `RemoveConcat` and `RemoveAt`
      state that the kept ids keep their order. */
  function Remove(xs: seq<Id>, x: Id): (r: seq<Id>)
    ensures forall y :: y in r <==> y in xs && y != x
    ensures x !in xs ==> r == xs
    ensures NoDup(xs) ==> NoDup(r)
    ensures |r| <= |xs|
  {
    if xs == [] then []
    else
      var rest := Remove(xs[1..], x);
      if xs[0] == x then rest
      else
        assert NoDup(xs) ==> NoDup(xs[1..]) && xs[0] !in rest;
        NoDupCons(xs[0], rest);
        [xs[0]] + rest
  }

  /** Filtering distributes over concatenation, so every kept id keeps its
      relative order. */
  lemma {:induction false} RemoveConcat(xs: seq<Id>, ys: seq<Id>, x: Id)
    ensures Remove(xs + ys, x) == Remove(xs, x) + Remove(ys, x)
  {
    if xs == [] {
      assert xs + ys == ys;
    } else {
      assert (xs + ys)[0] == xs[0] && (xs + ys)[1..] == xs[1..] + ys;
      RemoveConcat(xs[1..], ys, x);
    }
  }

  /** Removing an id that occurs once, at index `i`, cuts out exactly that
      element. */
  lemma {:induction false} RemoveAt(xs: seq<Id>, i: nat)
    requires i < |xs| && xs[i] !in xs[..i] && xs[i] !in xs[i + 1..]
    ensures Remove(xs, xs[i]) == xs[..i] + xs[i + 1..]
  {
    var x, tail := xs[i], xs[1..];
    if i == 0 {
      assert tail == xs[i + 1..];
    } else {
      assert xs[0] in xs[..i];
      assert tail[i - 1] == x && tail[..i - 1] == xs[1..i] && tail[i..] == xs[i + 1..];
      RemoveAt(tail, i - 1);
      assert xs[..i] == [xs[0]] + xs[1..i];
    }
  }

  lemma RemoveUniqueAt(xs: seq<Id>, i: nat)
    requires i < |xs| && NoDup(xs)
    ensures Remove(xs, xs[i]) == xs[..i] + xs[i + 1..]
  {
    assert forall j | 0 <= j < i :: xs[..i][j] == xs[j];
    assert forall j | i < j < |xs| :: xs[i + 1..][j - i - 1] == xs[j];
    RemoveAt(xs, i);
  }

  /** An unknown event changes nothing. Otherwise `id` leaves `e`'s list and
      its callback is deleted, even when `id` is listed under another event. */
  function Unsubscribe<V>(s: Store<V>, e: EventName, id: Id): (r: Store<V>)
    ensures e !in s.subscriptionMap ==> r == s
    ensures e in s.subscriptionMap ==>
      && r.subscriptionMap.Keys == s.subscriptionMap.Keys
      && r.subscriptionMap[e] == Remove(s.subscriptionMap[e], id)
      && id !in r.subscriptionMap[e]
      && (forall x :: x in r.subscriptionMap[e] <==> x in s.subscriptionMap[e] && x != id)
      && (forall e' | e' in s.subscriptionMap && e' != e ::
            r.subscriptionMap[e'] == s.subscriptionMap[e'])
      && r.subscribers == s.subscribers - {id}
    ensures r.state == s.state && r.log == s.log
    ensures r.lastSubscriber == s.lastSubscriber && r.mountedId == s.mountedId
    ensures r.nextId == s.nextId
    ensures WellFormed(s) ==> WellFormed(r)
    ensures Registered(s) && OwnEvent(s, id, e) ==> Registered(r)
    ensures CallbacksListed(s) ==> CallbacksListed(r)
  {
    if e !in s.subscriptionMap then s
    else
      s.(subscriptionMap := s.subscriptionMap[e := Remove(s.subscriptionMap[e], id)],
         subscribers := s.subscribers - {id})
  }

  /** In a list without duplicates, unsubscribing the id at index `i` cuts
      out exactly that element and keeps the others in order. */
  lemma UnsubscribeCutsOut<V>(s: Store<V>, e: EventName, id: Id, i: nat)
    requires e in s.subscriptionMap && NoDup(s.subscriptionMap[e])
    requires i < |s.subscriptionMap[e]| && s.subscriptionMap[e][i] == id
    ensures var xs := s.subscriptionMap[e];
      Unsubscribe(s, e, id).subscriptionMap[e] == xs[..i] + xs[i + 1..]
  {
    RemoveUniqueAt(s.subscriptionMap[e], i);
  }

  /** One notification per listed id, in list order, each carrying the id's
      callback and the given state. */
  function Notify<V>(ids: seq<Id>, subscribers: map<Id, Callback>, state: State<V>)
    : (ns: seq<Notification<V>>)
    requires forall id | id in ids :: id in subscribers
    ensures |ns| == |ids|
    ensures forall i | 0 <= i < |ids| ::
      ns[i] == Notification(ids[i], subscribers[ids[i]], state)
  {
    if ids == [] then []
    else [Notification(ids[0], subscribers[ids[0]], state)]
         + Notify(ids[1..], subscribers, state)
  }

  /** Invokes every callback listed under `e` with the current state. No
      callback body is run, so the state is the same for all of them. */
  function Dispatch<V>(s: Store<V>, e: EventName): (r: Store<V>)
    requires DispatchReady(s, e)
    ensures e !in s.subscriptionMap ==> r == s
    ensures e in s.subscriptionMap ==>
      r.log == s.log + Notify(s.subscriptionMap[e], s.subscribers, s.state)
    ensures r.(log := s.log) == s
  {
    if e !in s.subscriptionMap then s
    else s.(log := s.log + Notify(s.subscriptionMap[e], s.subscribers, s.state))
  }

  /** The partial state an update contributes in a given state. */
  function Resolve<V>(state: State<V>, upd: Update<V>): State<V> {
    match upd
    case Partial(u) => u
    case Setter(f) => f(state)
  }

  /** The object spread `{ ...state, ...u }`: `u`'s keys override. */
  function Merge<V>(state: State<V>, u: State<V>): (m: State<V>)
    ensures m.Keys == state.Keys + u.Keys
    ensures forall k | k in u :: m[k] == u[k]
    ensures forall k | k in state && k !in u :: m[k] == state[k]
  {
    state + u
  }

  /** Same number of top-level keys and an equal value in `m2` for every key
      of `m1`. */
  predicate ShallowEqual<V(==)>(m1: State<V>, m2: State<V>) {
    |m1.Keys| == |m2.Keys| && forall k | k in m1 :: k in m2 && m1[k] == m2[k]
  }

  /** Over the model's values, shallow equality of two states is equality. */
  lemma ShallowEqualIsEquality<V>(m1: State<V>, m2: State<V>)
    ensures ShallowEqual(m1, m2) <==> m1 == m2
  {
    if ShallowEqual(m1, m2) {
      SubsetSameSize(m1.Keys, m2.Keys);
    }
  }

  /** Every key of `u` is already present in `state` with an equal value. */
  predicate AlreadyHolds<V(==)>(state: State<V>, u: State<V>) {
    forall k | k in u :: k in state && state[k] == u[k]
  }

  lemma SubsetSameSize<T>(a: set<T>, b: set<T>)
    requires a <= b && |a| == |b|
    ensures a == b
  {
    assert a * b == a && a + b == b && a - b == {};
    assert |b - a| + |a - b| + |a * b| == |a + b|;
    assert b - a == {};
  }

  /** The gate of `set`: the merged state is shallow-equal to the current one
      exactly when the update only repeats what the state already holds, and
      then the merge changes nothing. */
  lemma ShallowEqualMerge<V>(state: State<V>, u: State<V>)
    ensures ShallowEqual(state, Merge(state, u)) <==> AlreadyHolds(state, u)
    ensures AlreadyHolds(state, u) <==> Merge(state, u) == state
  {
    var m := Merge(state, u);
    if ShallowEqual(state, m) {
      SubsetSameSize(state.Keys, m.Keys);
    }
    if AlreadyHolds(state, u) {
      assert m.Keys == state.Keys;
      assert forall k | k in m :: m[k] == state[k];
    }
  }

  /** Shallow merge, then, unless the result is shallow-equal to the current
      state, replacement of the state and one dispatch of `SET_STATE`. */
  function Set<V(==)>(s: Store<V>, upd: Update<V>): (r: Store<V>)
    requires !AlreadyHolds(s.state, Resolve(s.state, upd)) ==> DispatchReady(s, SET_STATE)
    ensures var u := Resolve(s.state, upd);
      && r.state == Merge(s.state, u)
      && ((r.state == s.state && r.log == s.log) <==> AlreadyHolds(s.state, u))
      && (!AlreadyHolds(s.state, u) ==>
            r.log == s.log
                     + (if SET_STATE in s.subscriptionMap
                        then Notify(s.subscriptionMap[SET_STATE], s.subscribers, r.state)
                        else []))
    ensures r.subscriptionMap == s.subscriptionMap && r.subscribers == s.subscribers
    ensures r.lastSubscriber == s.lastSubscriber && r.mountedId == s.mountedId
    ensures r.nextId == s.nextId
  {
    var u := Resolve(s.state, upd);
    var next := Merge(s.state, u);
    ShallowEqualMerge(s.state, u);
    if !ShallowEqual(s.state, next) then Dispatch(s.(state := next), SET_STATE)
    else s
  }

  /** `subscribe(SET_STATE, cb)`. */
  function OnSetState<V>(s: Store<V>, cb: Callback): (r: Store<V>)
    ensures var id := GetLastSubscriberId(r);
      && SET_STATE in r.subscriptionMap
      && r.subscriptionMap[SET_STATE]
           == (if SET_STATE in s.subscriptionMap then s.subscriptionMap[SET_STATE] else []) + [id]
      && r.subscribers == s.subscribers[id := cb]
      && (WellFormed(s) ==> id !in s.subscribers)
    ensures forall e | e != SET_STATE ::
      (e in r.subscriptionMap <==> e in s.subscriptionMap)
      && (e in s.subscriptionMap ==> r.subscriptionMap[e] == s.subscriptionMap[e])
    ensures r.state == s.state && r.log == s.log && r.mountedId == s.mountedId
    ensures WellFormed(s) ==> WellFormed(r)
    ensures Registered(s) ==> Registered(r)
    ensures CallbacksListed(s) ==> CallbacksListed(r)
  {
    Subscribe(s, SET_STATE, cb)
  }

  /** Subscribes `cb` to `SET_STATE` and records its id as the attached
      component, overwriting whatever id was recorded before. */
  function AttachComponent<V>(s: Store<V>, cb: Callback): (r: Store<V>)
    ensures r.mountedId == GetLastSubscriberId(r)
    ensures var id := r.mountedId;
      && SET_STATE in r.subscriptionMap
      && r.subscriptionMap[SET_STATE]
           == (if SET_STATE in s.subscriptionMap then s.subscriptionMap[SET_STATE] else []) + [id]
      && r.subscribers == s.subscribers[id := cb]
      && (WellFormed(s) ==> id !in s.subscribers)
    ensures forall e | e != SET_STATE ::
      (e in r.subscriptionMap <==> e in s.subscriptionMap)
      && (e in s.subscriptionMap ==> r.subscriptionMap[e] == s.subscriptionMap[e])
    ensures r.state == s.state && r.log == s.log
    ensures WellFormed(s) ==> WellFormed(r)
    ensures Registered(s) ==> Registered(r)
    ensures CallbacksListed(s) ==> CallbacksListed(r)
  {
    var t := Subscribe(s, SET_STATE, cb);
    t.(mountedId := GetLastSubscriberId(t))
  }

  /** `unsubscribe(SET_STATE, mountedId)`: in a well-formed store exactly the
      recorded id loses its callback and its place in the `SET_STATE` list. */
  function DetachComponent<V>(s: Store<V>): (r: Store<V>)
    ensures WellFormed(s) ==>
      && r.subscribers == s.subscribers - {s.mountedId}
      && r.subscriptionMap.Keys == s.subscriptionMap.Keys
      && (forall e | e in s.subscriptionMap && e != SET_STATE ::
            r.subscriptionMap[e] == s.subscriptionMap[e])
      && (SET_STATE in s.subscriptionMap ==>
            && r.subscriptionMap[SET_STATE] == Remove(s.subscriptionMap[SET_STATE], s.mountedId)
            && forall x :: x in r.subscriptionMap[SET_STATE]
                 <==> x in s.subscriptionMap[SET_STATE] && x != s.mountedId)
    ensures WellFormed(s) ==>
      && r.mountedId !in r.subscribers
      && forall e | e in r.subscriptionMap :: r.mountedId !in r.subscriptionMap[e]
    ensures WellFormed(s) ==> WellFormed(r)
    ensures Registered(s) && WellFormed(s) ==> Registered(r)
    ensures CallbacksListed(s) ==> CallbacksListed(r)
    ensures r.state == s.state && r.log == s.log
    ensures r.lastSubscriber == s.lastSubscriber && r.mountedId == s.mountedId
    ensures r.nextId == s.nextId
  {
    Unsubscribe(s, SET_STATE, s.mountedId)
  }

  /** Detaching an attached component cuts its id out of the `SET_STATE`
      list and keeps every other subscriber in order. */
  lemma DetachComponentCutsOut<V>(s: Store<V>, i: nat)
    requires WellFormed(s) && s.mountedId != Blank
    requires i < |s.subscriptionMap[SET_STATE]| && s.subscriptionMap[SET_STATE][i] == s.mountedId
    ensures var xs := s.subscriptionMap[SET_STATE];
      DetachComponent(s).subscriptionMap[SET_STATE] == xs[..i] + xs[i + 1..]
  {
    UnsubscribeCutsOut(s, SET_STATE, s.mountedId, i);
  }

}
