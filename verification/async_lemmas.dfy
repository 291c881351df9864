/** Properties of the async action that relate several events. */
module AsyncLemmas {
  import opened Optional
  import opened AsyncActions

  /** Exactly one of the four status getters holds. */
  lemma ExactlyOneStatus<P>(a: AsyncAction<P>)
    ensures IsIdle(a) || IsLoading(a) || IsSuccess(a) || IsError(a)
    ensures !(IsIdle(a) && IsLoading(a)) && !(IsIdle(a) && IsSuccess(a))
    ensures !(IsIdle(a) && IsError(a)) && !(IsLoading(a) && IsSuccess(a))
    ensures !(IsLoading(a) && IsError(a)) && !(IsSuccess(a) && IsError(a))
  {
  }

  /** Each getter reads back the status the last transition set. */
  lemma GettersReadSetStatus<P>(a: AsyncAction<P>, status: Status, p: Option<P>)
    ensures var r := SetStatus(a, status, p);
      && (IsIdle(r) <==> status == Idle) && (IsLoading(r) <==> status == Loading)
      && (IsSuccess(r) <==> status == Success) && (IsError(r) <==> status == Error)
  {
  }

  lemma {:induction false} FireAppend<P>(xs: seq<Effect>, ys: seq<Effect>, c: Status, p: Option<P>)
    ensures Fire(xs + ys, c, p) == Fire(xs, c, p) + Fire(ys, c, p)
  {
    if xs == [] {
      assert xs + ys == ys;
    } else {
      assert (xs + ys)[1..] == xs[1..] + ys;
      FireAppend(xs[1..], ys, c, p);
    }
  }

  /** The effect lists after one registration: the new effect is last in
      its own category and every other category is untouched. */
  lemma EffectsAfterRegistration<P>(a: AsyncAction<P>, e: Effect, status: Status)
    ensures EffectsFor(OnError(a, e), status)
              == EffectsFor(a, status) + (if status == Error then [e] else [])
    ensures EffectsFor(OnSuccess(a, e), status)
              == EffectsFor(a, status) + (if status == Success then [e] else [])
    ensures EffectsFor(OnLoading(a, e), status)
              == EffectsFor(a, status) + (if status == Loading then [e] else [])
  {
  }

  /** A registered effect runs, last, on transitions to its own category
      only: registering it leaves every other category's effect runs as
      they were. */
  lemma RegistrationAffectsOwnCategory<P>(a: AsyncAction<P>, e: Effect, status: Status, p: Option<P>)
    ensures var q := if status == Loading then None else p;
      && SetStatus(OnError(a, e), status, p).log
           == SetStatus(a, status, p).log + (if status == Error then [Fired(e, Error, q)] else [])
      && SetStatus(OnSuccess(a, e), status, p).log
           == SetStatus(a, status, p).log + (if status == Success then [Fired(e, Success, q)] else [])
      && SetStatus(OnLoading(a, e), status, p).log
           == SetStatus(a, status, p).log + (if status == Loading then [Fired(e, Loading, q)] else [])
  {
    var q := if status == Loading then None else p;
    var effects := EffectsFor(a, status);
    EffectsAfterRegistration(a, e, status);
    FireAppend(effects, [e], status, q);
    FireAppend(effects, [], status, q);
    assert effects + [] == effects;
    assert Fire([e], status, q) == [Fired(e, status, q)];
    assert a.log + Fire(effects, status, q) + [Fired(e, status, q)]
        == a.log + (Fire(effects, status, q) + [Fired(e, status, q)]);
  }

  /** At most one live invocation, which `call` aims for by cancelling a
      running invocation before starting a new one: every invocation whose
      promise has not settled and whose signal has not fired is the one the
      bookkeeping names. */
  predicate SingleLive<P>(a: AsyncAction<P>) {
    forall t | t in a.pending && t !in a.aborted :: a.abortController == Some(t)
  }

  lemma NewActionSingleLive<P>()
    ensures SingleLive(NewAction<P>())
  {
  }

  /** Registering an effect touches no invocation bookkeeping. */
  lemma RegistrationKeepsSingleLive<P>(a: AsyncAction<P>, e: Effect)
    requires Valid(a) && SingleLive(a)
    ensures Valid(OnError(a, e)) && SingleLive(OnError(a, e))
    ensures Valid(OnSuccess(a, e)) && SingleLive(OnSuccess(a, e))
    ensures Valid(OnLoading(a, e)) && SingleLive(OnLoading(a, e))
  {
  }

  /** Starting a call keeps at most one live invocation: the previous one,
      if the bookkeeping still names it, is aborted. */
  lemma CallStartKeepsSingleLive<P>(a: AsyncAction<P>)
    requires Valid(a) && SingleLive(a)
    ensures SingleLive(CallStart(a).action)
  {
    var r := CallStart(a);
    assert forall t | t in a.pending && t !in a.aborted :: t in r.action.aborted;
  }

  lemma CancelKeepsSingleLive<P>(a: AsyncAction<P>)
    requires Valid(a) && SingleLive(a)
    ensures SingleLive(Cancel(a))
  {
  }

  lemma ReportKeepsSingleLive<P>(a: AsyncAction<P>, token: Token, status: Status, payload: Option<P>)
    requires token < a.nextToken && SingleLive(a)
    ensures SingleLive(Report(a, token, status, payload))
  {
  }

  /** The settlement of a live invocation keeps at most one live invocation. */
  lemma LiveSettleKeepsSingleLive<P>(a: AsyncAction<P>, token: Token, outcome: Outcome<P>)
    requires Valid(a) && SingleLive(a)
    requires token in a.pending && token !in a.aborted
    ensures SingleLive(Settle(a, token, outcome).action)
  {
    assert forall t | t in a.pending && t !in a.aborted :: t == token;
  }

  /** The settlement of a superseded invocation clears the bookkeeping of the
      newer one. That invocation then stays live: a later `call` does not
      abort it, `cancel()` does nothing, and its status reports still take
      effect next to those of the newest invocation. */
  lemma StaleSettleOrphansNewerCall<P>(v: P)
    ensures var s1 := CallStart(NewAction<P>());
      var s2 := CallStart(s1.action);
      var settled := Settle(s2.action, s1.token, Ok(v)).action;
      var s3 := CallStart(settled);
      && SingleLive(s2.action)
      && s1.token in s2.action.aborted
      && Cancel(settled) == settled
      && s2.token in settled.pending && s2.token !in settled.aborted
      && s2.token in s3.action.pending && s2.token !in s3.action.aborted
      && !SingleLive(s3.action)
      && Report(s3.action, s2.token, Error, Some(v)).status == Error
  {
    var s1 := CallStart(NewAction<P>());
    var s2 := CallStart(s1.action);
    CallStartKeepsSingleLive(s1.action);
    var settled := Settle(s2.action, s1.token, Ok(v)).action;
    var s3 := CallStart(settled);
    assert s3.token != s2.token;
  }

  /** Each `call` makes its own abort signal: cancelling a later invocation
      leaves the signal of an earlier, already settled one untouched, so that
      invocation's late status reports still take effect. */
  lemma LateReportOfSettledCall<P>(v: P, e: P)
    ensures var s1 := CallStart(NewAction<P>());
      var settled := Settle(s1.action, s1.token, Ok(v)).action;
      var c := Cancel(CallStart(settled).action);
      && IsIdle(c)
      && Report(c, s1.token, Error, Some(e)).status == Error
  {
    var s1 := CallStart(NewAction<P>());
    var settled := Settle(s1.action, s1.token, Ok(v)).action;
    var s2 := CallStart(settled);
    assert s2.token != s1.token;
  }

  /** `call` followed by a successful settlement: loading effects once, then
      success effects once with the result; the result is handed back. */
  lemma CallThenSucceed<P>(a: AsyncAction<P>, v: P)
    requires Valid(a)
    ensures var st := CallStart(a);
      var r := Settle(st.action, st.token, Ok(v));
      && r.returned == Ok(v)
      && IsSuccess(r.action)
      && r.action.log
           == a.log + Fire(a.loadingEffects, Loading, None)
              + Fire(a.successEffects, Success, Some(v))
      && r.action.currentPromise == None && r.action.abortController == None
  {
    var st := CallStart(a);
    assert st.action.log == a.log + Fire(a.loadingEffects, Loading, None);
  }

  /** `call` followed by a failed settlement: error effects once with the
      error, which is also rethrown to the caller. */
  lemma CallThenFail<P>(a: AsyncAction<P>, e: P)
    requires Valid(a)
    ensures var st := CallStart(a);
      var r := Settle(st.action, st.token, Err(e));
      && r.returned == Err(e)
      && IsError(r.action)
      && r.action.log
           == a.log + Fire(a.loadingEffects, Loading, None)
              + Fire(a.errorEffects, Error, Some(e))
  {
    var st := CallStart(a);
    assert st.action.log == a.log + Fire(a.loadingEffects, Loading, None);
  }

  /** A second `call` before the first settles silences the first: its
      settlement neither changes the status nor runs any effect, yet its
      caller still receives the outcome. */
  lemma SupersededSettleIsSilent<P>(a: AsyncAction<P>, outcome: Outcome<P>)
    requires Valid(a)
    ensures var s1 := CallStart(a);
      var s2 := CallStart(s1.action);
      var r := Settle(s2.action, s1.token, outcome);
      && r.returned == outcome
      && r.action.status == Loading
      && r.action.log == s2.action.log
  {
  }

  /** `cancel()` while loading goes to idle and silences both the reports
      and the settlement of the cancelled invocation. */
  lemma CancelSilencesInvocation<P>(a: AsyncAction<P>, status: Status, p: Option<P>, outcome: Outcome<P>)
    requires Valid(a)
    ensures var st := CallStart(a);
      var c := Cancel(st.action);
      && IsIdle(c) && c.log == st.action.log
      && Report(c, st.token, status, p) == c
      && Settle(c, st.token, outcome).action.status == Idle
      && Settle(c, st.token, outcome).action.log == c.log
  {
  }

}
