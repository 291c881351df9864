/** The async action: a lifecycle status, three ordered effect lists and the
    bookkeeping of the invocation in flight. One invocation of `call` is
    split into explicit events: `CallStart` (everything before the first
    `await`), `Report` (the status callback handed to the operation),
    `Settle` (the promise resolves or rejects) and, independently, `Cancel`.
    Each invocation is named by a token; `aborted` holds the tokens whose
    abort signal has fired. Effects are opaque handles whose invocations are
    appended to `log` instead of being run. */
module AsyncActions {
  import opened Optional

  datatype Status = Idle | Loading | Error | Success

  /** An opaque handle on a registered effect. */
  datatype Effect = Effect(handle: nat)

  type Token = nat

  /** One effect invocation: the effect, the status category that ran it,
      and the payload it received (`None` is `undefined`). The payload type
      `P` stands for both the success and the error payload. */
  datatype Fired<P> = Fired(effect: Effect, category: Status, payload: Option<P>)

  /** How an invocation's promise settles. */
  datatype Outcome<P> = Ok(result: P) | Err(error: P)

  datatype AsyncAction<P> = AsyncAction(
    status: Status,
    errorEffects: seq<Effect>,
    loadingEffects: seq<Effect>,
    successEffects: seq<Effect>,
    currentPromise: Option<Token>,
    abortController: Option<Token>,
    aborted: set<Token>,
    pending: set<Token>,
    nextToken: Token,
    log: seq<Fired<P>>)

  /** What every reachable action satisfies: the two bookkeeping fields are
      set and cleared together; when set, they name the most recent
      invocation, whose promise has not settled and whose signal has not
      fired; every aborted or pending token has been issued. */
  predicate Valid<P>(a: AsyncAction<P>) {
    && a.currentPromise == a.abortController
    && (a.abortController.Some? ==>
          && a.abortController.value + 1 == a.nextToken
          && a.abortController.value in a.pending
          && a.abortController.value !in a.aborted)
    && (forall t | t in a.aborted :: t < a.nextToken)
    && (forall t | t in a.pending :: t < a.nextToken)
  }

  /** The constructor: idle, no effects, nothing in flight. */
  function NewAction<P>(): (a: AsyncAction<P>)
    ensures IsIdle(a) && !IsLoading(a) && !IsSuccess(a) && !IsError(a)
    ensures a.errorEffects == [] && a.loadingEffects == [] && a.successEffects == []
    ensures a.currentPromise == None && a.abortController == None && a.log == []
    ensures Valid(a)
  {
    AsyncAction(Idle, [], [], [], None, None, {}, {}, 0, [])
  }

  /** Appends `effect` to the error effects; nothing else changes. */
  function OnError<P>(a: AsyncAction<P>, effect: Effect): (r: AsyncAction<P>)
    ensures r.errorEffects == a.errorEffects + [effect]
    ensures r.(errorEffects := a.errorEffects) == a
  {
    a.(errorEffects := a.errorEffects + [effect])
  }

  /** Appends `effect` to the success effects; nothing else changes. */
  function OnSuccess<P>(a: AsyncAction<P>, effect: Effect): (r: AsyncAction<P>)
    ensures r.successEffects == a.successEffects + [effect]
    ensures r.(successEffects := a.successEffects) == a
  {
    a.(successEffects := a.successEffects + [effect])
  }

  /** Appends `effect` to the loading effects; nothing else changes. */
  function OnLoading<P>(a: AsyncAction<P>, effect: Effect): (r: AsyncAction<P>)
    ensures r.loadingEffects == a.loadingEffects + [effect]
    ensures r.(loadingEffects := a.loadingEffects) == a
  {
    a.(loadingEffects := a.loadingEffects + [effect])
  }

  /** The effects a status runs; `Idle` has no category and runs none. */
  function EffectsFor<P>(a: AsyncAction<P>, status: Status): seq<Effect> {
    match status
    case Error => a.errorEffects
    case Success => a.successEffects
    case Loading => a.loadingEffects
    case Idle => []
  }

  /** One invocation per effect, in registration order. */
  function Fire<P>(effects: seq<Effect>, category: Status, payload: Option<P>)
    : (fs: seq<Fired<P>>)
    ensures |fs| == |effects|
    ensures forall i | 0 <= i < |effects| :: fs[i] == Fired(effects[i], category, payload)
  {
    if effects == [] then []
    else [Fired(effects[0], category, payload)] + Fire(effects[1..], category, payload)
  }

  /** Sets the status and runs the effects of its category: loading effects
      always receive `undefined`, error and success effects the payload. */
  function SetStatus<P>(a: AsyncAction<P>, status: Status, payload: Option<P>)
    : (r: AsyncAction<P>)
    ensures r.status == status
    ensures |r.log| == |a.log| + |EffectsFor(a, status)| && r.log[..|a.log|] == a.log
    ensures forall i | 0 <= i < |EffectsFor(a, status)| ::
      r.log[|a.log| + i]
        == Fired(EffectsFor(a, status)[i], status, if status == Loading then None else payload)
    ensures status == Idle ==> r.log == a.log
    ensures r.(status := a.status, log := a.log) == a
  {
    var p := if status == Loading then None else payload;
    a.(status := status, log := a.log + Fire(EffectsFor(a, status), status, p))
  }

  /** With an invocation in flight: fires its abort signal, clears the
      bookkeeping and goes back to idle without running any effect.
      Otherwise nothing happens. */
  function Cancel<P>(a: AsyncAction<P>): (r: AsyncAction<P>)
    ensures a.abortController.None? ==> r == a
    ensures a.abortController.Some? ==>
      && r.aborted == a.aborted + {a.abortController.value}
      && r.currentPromise == None && r.abortController == None
      && r.status == Idle && r.log == a.log
      && r.pending == a.pending && r.nextToken == a.nextToken
    ensures r.errorEffects == a.errorEffects && r.loadingEffects == a.loadingEffects
    ensures r.successEffects == a.successEffects
    ensures Valid(a) ==> Valid(r)
  {
    if a.abortController.Some? then
      var t := a.abortController.value;
      SetStatus(a.(aborted := a.aborted + {t}, currentPromise := None, abortController := None),
                Idle, None)
    else a
  }

  /** The state after the synchronous part of `call`, and the invocation's token. */
  datatype Started<P> = Started(action: AsyncAction<P>, token: Token)

  /** The synchronous part of `call`: cancel a running invocation, make a new
      abort signal, go to loading (running the loading effects once), and
      record the operation's promise. */
  function CallStart<P>(a: AsyncAction<P>): (r: Started<P>)
    ensures r.token == a.nextToken && r.action.nextToken == a.nextToken + 1
    ensures Valid(a) ==> r.token !in r.action.aborted && r.token !in a.pending
    ensures Valid(a) && a.currentPromise.Some? ==>
      r.action.aborted == a.aborted + {a.currentPromise.value}
    ensures a.currentPromise.None? ==> r.action.aborted == a.aborted
    ensures r.action.pending == a.pending + {r.token}
    ensures r.action.currentPromise == Some(r.token) && r.action.abortController == Some(r.token)
    ensures r.action.status == Loading
    ensures var loading := a.loadingEffects;
      && |r.action.log| == |a.log| + |loading|
      && r.action.log[..|a.log|] == a.log
      && forall i | 0 <= i < |loading| ::
           r.action.log[|a.log| + i] == Fired(loading[i], Loading, None)
    ensures r.action.errorEffects == a.errorEffects
    ensures r.action.loadingEffects == a.loadingEffects
    ensures r.action.successEffects == a.successEffects
    ensures Valid(a) ==> Valid(r.action)
  {
    var c := if a.currentPromise.Some? then Cancel(a) else a;
    var token := c.nextToken;
    var b := c.(abortController := Some(token), nextToken := token + 1);
    var l := SetStatus(b, Loading, None);
    Started(l.(currentPromise := Some(token), pending := l.pending + {token}), token)
  }

  /** The status callback handed to the operation of invocation `token`: it
      has an effect exactly when that invocation's signal has not fired. */
  function Report<P>(a: AsyncAction<P>, token: Token, status: Status, payload: Option<P>)
    : (r: AsyncAction<P>)
    requires token < a.nextToken
    ensures token in a.aborted ==> r == a
    ensures token !in a.aborted ==> r == SetStatus(a, status, payload)
    ensures r.status == (if token in a.aborted then a.status else status)
    ensures Valid(a) ==> Valid(r)
  {
    if token !in a.aborted then SetStatus(a, status, payload) else a
  }

  /** The action after a settlement, and what `call` hands back to its
      caller: the result, or the error it rethrows. */
  datatype Settled<P> = Settled(action: AsyncAction<P>, returned: Outcome<P>)

  /** The end of `call` once the operation's promise settles: unless the
      invocation's signal has fired, go to success or error running the
      matching effects; in every case give the outcome back to the caller
      and clear both bookkeeping fields, whichever invocation they name. */
  function Settle<P>(a: AsyncAction<P>, token: Token, outcome: Outcome<P>): (r: Settled<P>)
    requires token in a.pending
    ensures r.returned == outcome
    ensures r.action.currentPromise == None && r.action.abortController == None
    ensures r.action.pending == a.pending - {token}
    ensures r.action.aborted == a.aborted && r.action.nextToken == a.nextToken
    ensures r.action.errorEffects == a.errorEffects && r.action.loadingEffects == a.loadingEffects
    ensures r.action.successEffects == a.successEffects
    ensures token in a.aborted ==> r.action.status == a.status && r.action.log == a.log
    ensures token !in a.aborted ==>
      var (status, payload) := match outcome
        case Ok(v) => (Success, v)
        case Err(e) => (Error, e);
      var effects := EffectsFor(a, status);
      && r.action.status == status
      && |r.action.log| == |a.log| + |effects|
      && r.action.log[..|a.log|] == a.log
      && forall i | 0 <= i < |effects| ::
           r.action.log[|a.log| + i] == Fired(effects[i], status, Some(payload))
    ensures Valid(a) ==> Valid(r.action)
  {
    var b := if token in a.aborted then a
             else match outcome
               case Ok(v) => SetStatus(a, Success, Some(v))
               case Err(e) => SetStatus(a, Error, Some(e));
    Settled(b.(currentPromise := None, abortController := None, pending := b.pending - {token}),
            outcome)
  }

  predicate IsLoading<P>(a: AsyncAction<P>) { a.status == Loading }
  predicate IsSuccess<P>(a: AsyncAction<P>) { a.status == Success }
  predicate IsError<P>(a: AsyncAction<P>) { a.status == Error }
  predicate IsIdle<P>(a: AsyncAction<P>) { a.status == Idle }

}
