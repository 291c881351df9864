# store2state core in Dafny

A Dafny model of the two stateful pieces of store2state:

- **The observable store** (`store.ts`, module `Stores`). The state is a finite map from top-level keys to opaque values. A registry maps each event name to an ordered list of subscriber ids and each id to an opaque callback handle. Every callback invocation `dispatch` performs is appended to a notification log as `(id, callback, state)`. `Set` merges a partial state (or the partial state a setter function computes) over the current state. It gates the change on `shallowEqual` and dispatches the reserved `SET_STATE = "setState"` event on change.
- **The async action** (`async.ts`, module `AsyncActions`). It keeps a status (`Idle`, `Loading`, `Error`, `Success`), three ordered effect lists, and the two nullable bookkeeping fields `currentPromise` and `abortController`. One `call` is split into explicit events:
  - `CallStart` is the synchronous part of `call` and returns a token naming the invocation.
  - `Report` is the status callback handed to the operation.
  - `Settle` is what happens when the operation's promise resolves or rejects.
  - `Cancel` can happen at any time.

  Each token has its own abort flag (the set `aborted`). `pending` holds the tokens whose promise has not settled yet. Effects are recorded in an effect log as `(effect, category, payload)`; they are never run.

Id generation is a per-store counter. `Id.Blank` stands for the empty string that `lastSubscriber` and `mountedId` start with; it is never issued. The invariant `WellFormed` says that ids are issued by the counter, that each id is listed at most once and under at most one event, and that the attached component's id belongs to `SET_STATE`. Every store operation preserves it. The registry invariant `Registered` says every listed id has a callback. `Subscribe`, `Set`, `Dispatch` and the component operations preserve it. `Unsubscribe` preserves it only when the id is not listed under some other event: the source deletes `subscribers[id]` whenever the named event exists. `UnsubscribeWrongEventDangles` exhibits the dangling id this leaves behind. The converse direction, `CallbacksListed`, says every id with a callback is listed under some event. Every store operation preserves it, `Unsubscribe` whatever its arguments.

`Set` needs callbacks only where it dispatches: a `set` that changes nothing dispatches nothing, so it is defined on every store. `NoOpSetOnDanglingStore` shows such a `set` on a store with a dangling `SET_STATE` id.

The `finally` block of `call` clears both bookkeeping fields even when the settling invocation was superseded. The model follows the code. `call` cancels a running invocation before it starts a new one (async.ts:76-78), so at most one invocation should be live at a time; this property is `SingleLive`. It holds for a new action. It is preserved by effect registration, `CallStart`, `Report`, `Cancel` and the settlement of a non-aborted invocation. The settlement of an aborted invocation does not preserve it. `StaleSettleOrphansNewerCall` shows the trace in which that settlement leaves a newer invocation that a later `call` does not abort and that `cancel()` cannot reach.

In these places the model follows the code, where a reader might expect otherwise:
- `unsubscribe` deletes the callback even when the id is listed under another event.
- `call` does not guarantee a single live invocation.
- Cancellation works through per-invocation abort signals: a superseded invocation is silenced by its own signal, not by a comparison with the newest call.
- `attachComponent` overwrites the recorded id instead of detaching the previous component (`AttachTwiceLeaksFirst`).

## Model

| member | source | states |
|---|---|---|
| Stores.NewStore | store.ts:13-24 | A new store's `get()` is the initial state and `getLastSubscriberId()` is the empty id, as is the recorded component id; there are no subscriptions, no callbacks and no notifications; `WellFormed`, `Registered` and `CallbacksListed` hold |
| Stores.Subscribe | store.ts:26-40 | The id `getLastSubscriberId()` returns afterwards is fresh and appended at the end of the event's list (created empty when absent) and mapped to the callback; other events' lists, the state and the log are unchanged; `WellFormed`, `Registered` and `CallbacksListed` are preserved |
| Stores.Remove | store.ts:47-49 | Filtering an id out of a list keeps exactly the other elements, changes nothing when the id is absent and keeps a duplicate-free list duplicate-free |
| Stores.RemoveConcat | store.ts:47-49 | Filtering distributes over concatenation, so the kept ids keep their relative order |
| Stores.RemoveAt | store.ts:47-49 | Removing an id that occurs exactly once cuts out that one element and leaves the elements before and after it in place |
| Stores.RemoveUniqueAt | store.ts:47-49 | In a duplicate-free list, removing the element at any index cuts out exactly that element |
| Stores.Unsubscribe | store.ts:42-53 | Unknown event: nothing changes. The id counter never changes, so a removed id is never issued again. Otherwise that event's list becomes the list filtered by the id, other lists are untouched and the id's callback is deleted; `WellFormed` and `CallbacksListed` are always preserved, `Registered` only when the id is listed under no other event |
| Stores.UnsubscribeCutsOut | store.ts:42-53 | In a duplicate-free list, unsubscribing the id at index `i` leaves the list without exactly that element, the rest in order |
| Stores.Notify | store.ts:61-63 | Iteration over a subscriber list yields one invocation per listed id, in list order, with that id's callback and the given state |
| Stores.Dispatch | store.ts:55-66 | An unknown event notifies no one and changes nothing; otherwise the log grows by one invocation per listed id in list order with the current state, and nothing else changes |
| Stores.Merge | store.ts:68-74 | The spread merge has the keys of both maps; the update's keys override, all other keys keep their values |
| Stores.ShallowEqualIsEquality | store.ts:83-91 | Equal key counts plus an equal value in the second map for every key of the first hold exactly when the two states are equal |
| Stores.ShallowEqualMerge | store.ts:83-91 | The merged state is shallow-equal to the current one exactly when every key of the update is already present with an equal value, which is exactly when the merge changes nothing |
| Stores.Set | store.ts:68-81 | The next state is the current map overridden by the update (the setter form resolved against the current state first); state and log are unchanged exactly when the update already holds; otherwise the log grows by one `SET_STATE` dispatch with the new state; the registry is untouched. Callbacks are required only for a state-changing `set` |
| Stores.OnSetState | store.ts:93-95 | Exactly `subscribe(SET_STATE, cb)`: a fresh id ends the `SET_STATE` list and maps to `cb`; other lists, state, log and component id are unchanged; the three invariants are preserved |
| Stores.AttachComponent | store.ts:97-100 | A fresh id ends the `SET_STATE` list, maps to the callback and becomes the recorded component id; other lists, state and log are unchanged; the three invariants are preserved |
| Stores.DetachComponent | store.ts:102-104 | In a well-formed store exactly the recorded id loses its callback and leaves the `SET_STATE` list, every other id and list stays; afterwards that id is listed nowhere; invariants preserved; state, log, last subscriber id, recorded component id and id counter unchanged |
| Stores.DetachComponentCutsOut | store.ts:102-104 | Detaching cuts the recorded id out of the `SET_STATE` list at its index, the other subscribers in order |
| StoreLemmas.NotifyCount | store.ts:55-66 | A dispatch over a duplicate-free list notifies each listed id exactly once and no other id |
| StoreLemmas.SetNotifiesEachSubscriberOnce | store.ts:76-78 | A state-changing `set` changes the state and notifies every `SET_STATE` subscriber exactly once, each with its callback and the new state, and notifies nobody else |
| StoreLemmas.SetSkipsUnsubscribed | store.ts:76-78 | A `set` never notifies an id that is not subscribed to `SET_STATE` |
| StoreLemmas.SetPartialIdempotent | store.ts:68-81 | After `set(u)` the update already holds, and a second `set(u)` changes nothing |
| StoreLemmas.SetterIsPartialOfCurrentState | store.ts:68-74 | `set(f)` is `set` of the partial state `f` computes from the current state |
| StoreLemmas.SetKeepsInvariants | store.ts:68-81 | `set` preserves `WellFormed`, `Registered`, `CallbacksListed` and `SET_STATE` dispatch readiness, and keeps the component id |
| StoreLemmas.NoOpSetOnDanglingStore | store.ts:76-80 | A `set` that changes nothing returns the store unchanged even when a `SET_STATE` id has lost its callback |
| StoreLemmas.UnsubscribeUndoesSubscribe | store.ts:26-53 | Unsubscribing the id `subscribe` just issued restores the callbacks and every list; the event's list may remain as an empty list |
| StoreLemmas.SubscribeUnsubscribeDispatch | store.test.ts:24-30 | Subscribe, unsubscribe with `getLastSubscriberId()`, dispatch: the dispatch is possible and does not reach the removed subscriber |
| StoreLemmas.StaleUnsubscribeRemovesNobody | store.ts:26-53 | After subscribe, unsubscribe and a new subscribe to the same event, the new id differs from the removed one and unsubscribing the removed id again changes nothing |
| StoreLemmas.UnsubscribeWrongEventDangles | store.ts:42-53 | Unsubscribing an id under an event other than its own deletes its callback while it stays listed, so a dispatch of its own event would call a missing subscriber |
| StoreLemmas.OnSetStateThenSet | store.test.ts:32-38 | After `onSetState(cb)`, a state-changing `set` yields the merged state and invokes `cb` exactly once with it |
| StoreLemmas.AttachDetachComponent | store.test.ts:52-63 | On any well-formed store whose `SET_STATE` ids have callbacks, an attached component is notified once by a state-changing `set`; after `detachComponent()` no later `set` notifies it; well-formedness and `SET_STATE` dispatch readiness still hold, and the registry invariant too when it held before |
| StoreLemmas.DetachedNotNotified | store.ts:102-104 | On any well-formed store whose `SET_STATE` ids have callbacks, after `detachComponent()` `SET_STATE` can still be dispatched and no `set` notifies the id that was recorded |
| StoreLemmas.DetachKeepsOthers | store.ts:102-104 | `detachComponent()` keeps every other `SET_STATE` subscriber listed, with its callback |
| StoreLemmas.AttachTwiceLeaksFirst | store.ts:97-104 | Attaching twice and detaching once leaves the first component subscribed to `SET_STATE` with its callback |
| StoreLemmas.SetterAppliedTwice | store.test.ts:40-43 | Incrementing `count` through the setter form from `{count: 0}` yields `{count: 1}`, and a second increment `{count: 2}` |
| AsyncActions.NewAction | async.ts:28-37 | A new action is idle (and only idle), has three empty effect lists, null bookkeeping and an empty effect log |
| AsyncActions.OnError | async.ts:39-42 | The effect is appended to the error effects; nothing else changes |
| AsyncActions.OnSuccess | async.ts:44-47 | The effect is appended to the success effects; nothing else changes |
| AsyncActions.OnLoading | async.ts:49-52 | The effect is appended to the loading effects; nothing else changes |
| AsyncActions.Fire | async.ts:56-72 | Running an effect list yields one invocation per effect, in registration order, each with the category and the payload |
| AsyncActions.SetStatus | async.ts:54-73 | The status becomes the given one; the effect log grows by one entry per effect of that category, in registration order, with the payload (`undefined` for loading); idle appends nothing; nothing else changes |
| AsyncActions.Cancel | async.ts:112-119 | With a non-null abort controller: its token is aborted, both bookkeeping fields become null and the status becomes idle with no effect run; otherwise nothing changes; the effect lists never change |
| AsyncActions.CallStart | async.ts:75-93 | A running invocation (non-null `currentPromise`) is aborted first; the new token is the next one the counter issues, so it names no earlier invocation, and it is not aborted; the status is loading; the loading effects ran exactly once with no payload; both bookkeeping fields name the new token |
| AsyncActions.Report | async.ts:87-91 | A status report takes effect (as `setStatus`) exactly when the invocation's signal has not been aborted; an aborted report changes neither status nor log |
| AsyncActions.Settle | async.ts:95-109 | For effects that return normally: the caller gets the result or the rethrown error; unless aborted, the status becomes success or error and the matching effects run with the payload; if aborted, status and log are unchanged; in every case both bookkeeping fields become null and the effect lists stay |
| AsyncLemmas.ExactlyOneStatus | async.ts:121-135 | Exactly one of `isIdle`, `isLoading`, `isSuccess`, `isError` holds |
| AsyncLemmas.GettersReadSetStatus | async.ts:121-135 | After `setStatus(status)` exactly the getter of that status holds |
| AsyncLemmas.RegistrationAffectsOwnCategory | async.ts:39-72 | `onError`/`onSuccess`/`onLoading` add one effect that runs last on transitions of its own category and changes no other category's runs |
| AsyncLemmas.RegistrationKeepsSingleLive | async.ts:39-52 | Registering an effect keeps the bookkeeping invariant and at most one live invocation |
| AsyncLemmas.CallStartKeepsSingleLive | async.ts:76-83 | Starting a call keeps at most one invocation that is unsettled and not aborted |
| AsyncLemmas.CancelKeepsSingleLive | async.ts:112-119 | `cancel()` keeps at most one live invocation |
| AsyncLemmas.ReportKeepsSingleLive | async.ts:87-91 | A status report keeps at most one live invocation |
| AsyncLemmas.LiveSettleKeepsSingleLive | async.ts:95-109 | The settlement of a non-aborted invocation keeps at most one live invocation |
| AsyncLemmas.StaleSettleOrphansNewerCall | async.ts:106-109 | A superseded invocation's settlement nulls the newer invocation's bookkeeping. `cancel()` then does nothing, and the next `call` leaves two live invocations. The orphan's reports still change the status |
| AsyncLemmas.LateReportOfSettledCall | async.ts:80-91 | After `call`, settlement, a second `call` and `cancel()`, the first invocation's signal is still not aborted, so its late status report still changes the status |
| AsyncLemmas.CallThenSucceed | async.ts:95-100 | `call` then success: loading effects once, success effects once with the result, status success, result returned, bookkeeping null |
| AsyncLemmas.CallThenFail | async.ts:101-105 | `call` then failure: loading effects once, error effects once with the error, status error, error rethrown |
| AsyncLemmas.SupersededSettleIsSilent | async.ts:76-109 | A second `call` before the first settles: the first settlement leaves status loading and runs no effect, yet returns its outcome |
| AsyncLemmas.CancelSilencesInvocation | async.ts:112-119 | `cancel()` while loading gives idle with no effect; the cancelled invocation's reports and settlement then change neither status nor log |

## Left out

- The bodies of callbacks and effects are not run, so reentrant `set`, `subscribe` or `call` from inside them is not modelled. Because of this, every subscriber of one dispatch receives the same state.
- Callbacks and effects are assumed to return normally. A subscriber that throws inside `dispatch` (store.ts:62) stops the iteration after `set` has already replaced the state. A success effect that throws (async.ts:98) is caught by the `catch` at async.ts:101: the status becomes error, the error effects run and `call` rejects. Neither path is modelled.
- Stores.Set: requires a callback for every `SET_STATE` id when the update changes the state. In that case the source replaces the state (store.ts:77) and then throws a `TypeError` when the dispatch reaches the id without a callback; the model does not describe that partly applied `set`.
- Stores.Dispatch: requires every id listed under the event to have a callback. The source would throw a `TypeError` on calling the missing subscriber, after notifying the earlier ones; that error path is not modelled.
- Stores.ShallowEqual: it compares values with model equality. JavaScript `===` differs on `NaN` and on reading a missing key as `undefined`. At its only call site the second map's keys include the first's, so the missing-key case cannot arise there.
- `generateRandomString(100)` is replaced by a per-store counter, so collisions cannot occur.
- Keys inherited from `Object.prototype` (an event named `toString`, say) and other object-spread details beyond top-level override are not modelled.
- The `mounted` field is set to `false` by the constructor and never read, so the model omits it.
- `Get` and `GetLastSubscriberId` are plain field reads; they carry no contract of their own.
- `Resolve` and the four status getters carry no contract of their own. `SetterIsPartialOfCurrentState`, `ExactlyOneStatus` and `GettersReadSetStatus` state what they do.
- The async action's store reference and call arguments are passed through untouched, so they are not modelled. Every effect receives the same store.
- The success and error payload types are one type parameter `P`, which stands for their union as the status callback accepts it.
- Promise scheduling and `AbortController` are replaced by the explicit `CallStart`/`Report`/`Settle`/`Cancel` events. `Settle` requires a pending token because a promise settles at most once. `Report` requires an issued token because only a started invocation has a status callback.
- An operation that throws synchronously inside `call` (before the `try`) would leave `abortController` set and the status loading. The model assumes the operation returns a promise.
- `createStore`, `createAsyncAction`, the React hooks in `hooks.ts`, `index.ts`, `build.js` and the type aliases of `types.ts` (apart from `SET_STATE`) are not part of this model. The factories only call the constructors; the rest is UI binding, re-exports or build tooling.
