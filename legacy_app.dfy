/**
 * The earlier actix-web handlers of `src/main.rs`: the same three-step state machine over the
 * session, with no database, no statistics and no upstream error handling (its client calls
 * return their values directly).
 */
module LegacyApp {
  import opened Http
  import opened Sessions
  import opened Upstream
  import opened Trace
  import DiscordRoutes
  import PlexHandler

  /** The response and the calls made, in order (the Plex callback does not change the session). */
  datatype LegacyStep = LegacyStep(response: Response, trace: seq<Call>)

  /** `discord_linked_role`: the same transition as the axum route `linked_role`. */
  method DiscordLinkedRole(session: Session, auth: DiscordRoutes.Authorization)
    returns (response: Response, trace: seq<Call>)
    modifies session
    ensures DiscordRoutes.SessionStep(response, session.store, trace)
            == DiscordRoutes.LinkedRoleStep(old(session.store), auth)
  {
    trace := [AuthorizeUrl];
    session.Insert(DISCORD_STATE, auth.state);
    trace := trace + [SessionInsert(DISCORD_STATE, auth.state)];
    response := Redirect(auth.url);
  }

  /** `discord_callback`: the state check, then the code is kept and the browser sent to Plex. */
  function DiscordCallbackStep(store: map<string, string>, q: DiscordRoutes.CallbackQuery,
                               pin: Pin, authUrl: string): (r: DiscordRoutes.SessionStep)
    ensures DISCORD_STATE !in store ==>
              r == DiscordRoutes.SessionStep(Panic(INVALID_STATE), store, [SessionGet(DISCORD_STATE)])
    ensures DISCORD_STATE in store && !DiscordRoutes.StateMatches(store, q) ==>
              r == DiscordRoutes.SessionStep(HttpError(BadRequest, INVALID_STATE), store, [SessionGet(DISCORD_STATE)])
    ensures DiscordRoutes.StateMatches(store, q) ==>
              && r.store == store[DISCORD_CODE := q.code]
              && r.response == Redirect(authUrl)
              && r.trace == [SessionGet(DISCORD_STATE), SessionInsert(DISCORD_CODE, q.code), GetPin,
                             GenerateAuthUrl(pin.id, pin.code)]
  {
    var t0 := [SessionGet(DISCORD_STATE)];
    if DISCORD_STATE !in store then DiscordRoutes.SessionStep(Panic(INVALID_STATE), store, t0)
    else if store[DISCORD_STATE] != q.state then
      DiscordRoutes.SessionStep(HttpError(BadRequest, INVALID_STATE), store, t0)
    else
      DiscordRoutes.SessionStep(Redirect(authUrl), store[DISCORD_CODE := q.code],
        t0 + [SessionInsert(DISCORD_CODE, q.code), GetPin, GenerateAuthUrl(pin.id, pin.code)])
  }

  method DiscordCallback(session: Session, q: DiscordRoutes.CallbackQuery, pin: Pin, authUrl: string)
    returns (response: Response, trace: seq<Call>)
    modifies session
    ensures DiscordRoutes.SessionStep(response, session.store, trace)
            == DiscordCallbackStep(old(session.store), q, pin, authUrl)
  {
    trace := [SessionGet(DISCORD_STATE)];
    var sessionToken := session.Get(DISCORD_STATE);
    if sessionToken.None? {
      return Panic(INVALID_STATE), trace;
    }
    if sessionToken.value != q.state {
      return HttpError(BadRequest, INVALID_STATE), trace;
    }
    session.Insert(DISCORD_CODE, q.code);
    trace := trace + [SessionInsert(DISCORD_CODE, q.code), GetPin, GenerateAuthUrl(pin.id, pin.code)];
    response := Redirect(authUrl);
  }

  /**
   * Where the state is present, the earlier handler makes the same session change and the same
   * calls as the axum one whose Plex calls succeed; only the error responses differ.
   */
  lemma DiscordCallbackMatchesAxum(store: map<string, string>, q: DiscordRoutes.CallbackQuery,
                                      pin: Pin, authUrl: string)
    requires DISCORD_STATE in store
    ensures var legacy := DiscordCallbackStep(store, q, pin, authUrl);
            var axum := DiscordRoutes.CallbackStep(store, q, Results.Ok(pin), Results.Ok(authUrl));
            legacy.store == axum.store && legacy.trace == axum.trace
            && (legacy.response.Redirect? <==> axum.response.Redirect?)
            && (legacy.response.Redirect? ==> legacy.response == axum.response)
  {
  }

  /** `plex_callback`: claim the PIN, read the code, check the device, exchange, link. */
  function PlexCallbackStep(plexServerId: string, q: PlexHandler.PinQuery, store: map<string, string>,
                            claim: PinClaim, devices: seq<Device>, exchanged: string): (r: LegacyStep)
    ensures |r.trace| >= 2 && r.trace[..2] == [ClaimPin(q.id, q.code), SessionGet(DISCORD_CODE)]
    ensures DISCORD_CODE !in store ==>
              r == LegacyStep(Panic(INVALID_DISCORD_TOKEN), [ClaimPin(q.id, q.code), SessionGet(DISCORD_CODE)])
    ensures DISCORD_CODE in store && !HasDevice(devices, plexServerId) ==>
              && r.response == HttpError(Unauthorized, UNAUTHORIZED_USER)
              && !ExchangesCode(r.trace) && !PushesMetadata(r.trace)
    ensures DISCORD_CODE in store && HasDevice(devices, plexServerId) ==>
              && r.response == Success(LINKED_BODY)
              && r.trace[2..] == [GetDevices(claim.authToken), ExchangeCode(store[DISCORD_CODE]),
                                  LinkApplicationToken(exchanged)]
  {
    var t0 := [ClaimPin(q.id, q.code), SessionGet(DISCORD_CODE)];
    if DISCORD_CODE !in store then LegacyStep(Panic(INVALID_DISCORD_TOKEN), t0)
    else
      var t1 := t0 + [GetDevices(claim.authToken)];
      if FindDevice(devices, plexServerId).None? then LegacyStep(HttpError(Unauthorized, UNAUTHORIZED_USER), t1)
      else LegacyStep(Success(LINKED_BODY), t1 + [ExchangeCode(store[DISCORD_CODE]), LinkApplicationToken(exchanged)])
  }

  method PlexCallback(plexServerId: string, q: PlexHandler.PinQuery, session: Session,
                      claim: PinClaim, devices: seq<Device>, exchanged: string)
    returns (response: Response, trace: seq<Call>)
    ensures LegacyStep(response, trace) == PlexCallbackStep(plexServerId, q, session.store, claim, devices, exchanged)
  {
    trace := [ClaimPin(q.id, q.code)];
    trace := trace + [SessionGet(DISCORD_CODE)];
    var discordToken := session.Get(DISCORD_CODE);
    if discordToken.None? {
      return Panic(INVALID_DISCORD_TOKEN), trace;
    }
    trace := trace + [GetDevices(claim.authToken)];
    var device := FindDevice(devices, plexServerId);
    if device.None? {
      return HttpError(Unauthorized, UNAUTHORIZED_USER), trace;
    }
    trace := trace + [ExchangeCode(discordToken.value), LinkApplicationToken(exchanged)];
    response := Success(LINKED_BODY);
  }
}
