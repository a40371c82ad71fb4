/**
 * `GET /discord/linked-role` and `GET /discord/callback` of the axum server: the two
 * steps that start the flow and hand it over from Discord to Plex.
 */
module DiscordRoutes {
  import opened Results
  import opened Http
  import opened Sessions
  import opened Upstream
  import opened Trace

  /** `authorize_url()`: the Discord authorization URL and the CSRF state secret embedded in it. */
  datatype Authorization = Authorization(url: string, state: string)

  /** The query string Discord redirects back with. */
  datatype CallbackQuery = CallbackQuery(code: string, state: string)

  /** The response, the session afterwards, and the calls made, in order. */
  datatype SessionStep = SessionStep(response: Response, store: map<string, string>, trace: seq<Call>)

  /** `verify_state`: passes exactly when the query's state is the one kept in the session. */
  function VerifyState(sessionState: string, queryState: string): (r: Outcome)
    ensures r.Pass? <==> sessionState == queryState
    ensures r.Fail? ==> r.message == INVALID_STATE
  {
    if sessionState != queryState then Fail(INVALID_STATE) else Pass
  }

  /** `linked_role`: keep the state secret in the session and send the browser to Discord. */
  function LinkedRoleStep(store: map<string, string>, auth: Authorization): (r: SessionStep)
    ensures r.response == Redirect(auth.url)
    ensures DISCORD_STATE in r.store && r.store[DISCORD_STATE] == auth.state
    ensures r.store.Keys == store.Keys + {DISCORD_STATE}
    ensures forall k | k in store && k != DISCORD_STATE :: r.store[k] == store[k]
    ensures r.trace == [AuthorizeUrl, SessionInsert(DISCORD_STATE, auth.state)]
  {
    SessionStep(Redirect(auth.url), store[DISCORD_STATE := auth.state],
                [AuthorizeUrl, SessionInsert(DISCORD_STATE, auth.state)])
  }

  method LinkedRole(session: Session, auth: Authorization) returns (response: Response, trace: seq<Call>)
    modifies session
    ensures SessionStep(response, session.store, trace) == LinkedRoleStep(old(session.store), auth)
  {
    trace := [AuthorizeUrl];
    session.Insert(DISCORD_STATE, auth.state);
    trace := trace + [SessionInsert(DISCORD_STATE, auth.state)];
    response := Redirect(auth.url);
  }

  /** The session holds a state secret and the query's state equals it. */
  predicate StateMatches(store: map<string, string>, q: CallbackQuery)
  {
    DISCORD_STATE in store && store[DISCORD_STATE] == q.state
  }

  /**
   * `callback`: check the state, keep the code, request a Plex PIN and redirect to the Plex
   * page that approves it.
   */
  function CallbackStep(store: map<string, string>, q: CallbackQuery,
                        pin: Result<Pin>, authUrl: Result<string>): (r: SessionStep)
    // Without a state secret in the session the request fails before anything is written.
    ensures DISCORD_STATE !in store ==>
              r == SessionStep(AppError(NO_STATE_IN_SESSION), store, [SessionGet(DISCORD_STATE)])
    // On a mismatch it fails and the code is not written.
    ensures DISCORD_STATE in store && !StateMatches(store, q) ==>
              r == SessionStep(AppError(INVALID_STATE), store, [SessionGet(DISCORD_STATE)])
    // The code is written exactly on a match; the state secret is kept, not consumed.
    ensures WritesSession(r.trace) <==> StateMatches(store, q)
    ensures r.store == if StateMatches(store, q) then store[DISCORD_CODE := q.code] else store
    ensures DISCORD_STATE in store ==> DISCORD_STATE in r.store && r.store[DISCORD_STATE] == store[DISCORD_STATE]
    // The code is written before the PIN is requested, so a Plex failure leaves it in place.
    ensures StateMatches(store, q) ==>
              |r.trace| >= 3 && r.trace[..3] == [SessionGet(DISCORD_STATE), SessionInsert(DISCORD_CODE, q.code), GetPin]
    ensures StateMatches(store, q) && pin.Err? ==> r.response == AppError(pin.error)
    ensures StateMatches(store, q) && pin.Ok? && authUrl.Err? ==> r.response == AppError(authUrl.error)
    // Success redirects to the URL generated from the obtained PIN's id and code.
    ensures r.response.Redirect? <==> StateMatches(store, q) && pin.Ok? && authUrl.Ok?
    ensures r.response.Redirect? ==>
              r.response.location == authUrl.value &&
              r.trace == [SessionGet(DISCORD_STATE), SessionInsert(DISCORD_CODE, q.code), GetPin,
                          GenerateAuthUrl(pin.value.id, pin.value.code)]
  {
    var t0 := [SessionGet(DISCORD_STATE)];
    if DISCORD_STATE !in store then SessionStep(AppError(NO_STATE_IN_SESSION), store, t0)
    else
      var verdict := VerifyState(store[DISCORD_STATE], q.state);
      if verdict.Fail? then SessionStep(AppError(verdict.message), store, t0)
      else
        var store' := store[DISCORD_CODE := q.code];
        KeysDistinct();
        var t1 := t0 + [SessionInsert(DISCORD_CODE, q.code), GetPin];
        assert t1[1].SessionInsert?;
        if pin.Err? then SessionStep(AppError(pin.error), store', t1)
        else
          var t2 := t1 + [GenerateAuthUrl(pin.value.id, pin.value.code)];
          assert t2[1].SessionInsert?;
          if authUrl.Err? then SessionStep(AppError(authUrl.error), store', t2)
          else SessionStep(Redirect(authUrl.value), store', t2)
  }

  method Callback(session: Session, q: CallbackQuery, pin: Result<Pin>, authUrl: Result<string>)
    returns (response: Response, trace: seq<Call>)
    modifies session
    ensures SessionStep(response, session.store, trace) == CallbackStep(old(session.store), q, pin, authUrl)
  {
    trace := [SessionGet(DISCORD_STATE)];
    var sessionState := session.Get(DISCORD_STATE);
    if sessionState.None? {
      return AppError(NO_STATE_IN_SESSION), trace;
    }
    var verdict := VerifyState(sessionState.value, q.state);
    if verdict.Fail? {
      return AppError(verdict.message), trace;
    }

    session.Insert(DISCORD_CODE, q.code);
    trace := trace + [SessionInsert(DISCORD_CODE, q.code)];

    trace := trace + [GetPin];
    if pin.Err? {
      return AppError(pin.error), trace;
    }
    trace := trace + [GenerateAuthUrl(pin.value.id, pin.value.code)];
    if authUrl.Err? {
      return AppError(authUrl.error), trace;
    }
    response := Redirect(authUrl.value);
  }
}
