/**
 * The three requests taken together: the axum Discord routes and the actix-web Plex callback,
 * each request's session being the one the previous request left behind. This assumes both
 * handlers read and write one session under the same keys.
 */
module Flow {
  import opened Results
  import opened Http
  import opened Sessions
  import opened Upstream
  import opened LinkStore
  import opened Trace
  import DiscordRoutes
  import PlexHandler

  /**
   * A browser that follows the flow links the accounts: Discord's callback carries the state the
   * start step stored, so the code is kept, and the Plex callback then exchanges exactly that code
   * and commits the four rows, provided its upstream calls and the database succeed.
   */
  lemma FollowedFlowLinks(store0: map<string, string>, auth: DiscordRoutes.Authorization,
                          code: string, pin: Pin, claimUrl: string,
                          cfg: PlexHandler.Settings, db: Tables,
                          up: PlexHandler.Replies, now: int)
    requires up.pinClaim.Ok? && PlexHandler.Authorized(cfg, up) && PlexHandler.ProfilesFetched(up)
    requires up.fault == NoFault && up.token.value.refreshToken.Some?
    ensures var s1 := DiscordRoutes.LinkedRoleStep(store0, auth);
            var s2 := DiscordRoutes.CallbackStep(s1.store, DiscordRoutes.CallbackQuery(code, auth.state),
                                                  Ok(pin), Ok(claimUrl));
            var s3 := PlexHandler.CallbackStep(cfg, PlexHandler.PinQuery(pin.id, pin.code), s2.store, db, up, now);
            && s2.response == Redirect(claimUrl)
            && s3.db == ApplyAll(db, PlexHandler.Transact(up, now).writes)
            && s3.trace[3] == ExchangeCode(code)
  {
    var s1 := DiscordRoutes.LinkedRoleStep(store0, auth);
    var s2 := DiscordRoutes.CallbackStep(s1.store, DiscordRoutes.CallbackQuery(code, auth.state), Ok(pin), Ok(claimUrl));
    PlexHandler.CommitCallOrder(cfg, PlexHandler.PinQuery(pin.id, pin.code), s2.store, db, up, now);
  }

  /**
   * A Discord callback whose state is not the stored one keeps no code; on a session that held
   * none, the Plex callback then aborts right after claiming the PIN: it checks no device,
   * exchanges nothing and writes nothing.
   */
  lemma ForgedStateNeverLinks(store0: map<string, string>, auth: DiscordRoutes.Authorization,
                              q: DiscordRoutes.CallbackQuery, pin: Result<Pin>,
                              claimUrl: Result<string>, cfg: PlexHandler.Settings,
                              pq: PlexHandler.PinQuery, db: Tables,
                              up: PlexHandler.Replies, now: int)
    requires DISCORD_CODE !in store0
    requires q.state != auth.state
    requires up.pinClaim.Ok?
    ensures var s1 := DiscordRoutes.LinkedRoleStep(store0, auth);
            var s2 := DiscordRoutes.CallbackStep(s1.store, q, pin, claimUrl);
            var s3 := PlexHandler.CallbackStep(cfg, pq, s2.store, db, up, now);
            && s2.response == AppError(INVALID_STATE)
            && DISCORD_CODE !in s2.store
            && s3 == PlexHandler.LinkStep(Panic(INVALID_DISCORD_TOKEN), db,
                                          [ClaimPin(pq.id, pq.code), SessionGet(DISCORD_CODE)])
  {
    KeysDistinct();
    var s1 := DiscordRoutes.LinkedRoleStep(store0, auth);
    var s2 := DiscordRoutes.CallbackStep(s1.store, q, pin, claimUrl);
    PlexHandler.MissingCodeAborts(cfg, pq, s2.store, db, up, now);
  }

  /**
   * A forged Discord callback does not remove a code an earlier callback kept: the session is
   * left as it was, and a Plex callback on it exchanges that earlier code and commits, provided
   * its upstream calls and the database succeed.
   */
  lemma ForgedStateKeepsEarlierCode(store0: map<string, string>, auth: DiscordRoutes.Authorization,
                                    q: DiscordRoutes.CallbackQuery, pin: Result<Pin>,
                                    claimUrl: Result<string>, cfg: PlexHandler.Settings,
                                    pq: PlexHandler.PinQuery, db: Tables,
                                    up: PlexHandler.Replies, now: int)
    requires DISCORD_CODE in store0
    requires q.state != auth.state
    requires up.pinClaim.Ok? && PlexHandler.Authorized(cfg, up) && PlexHandler.ProfilesFetched(up)
    requires up.fault == NoFault && up.token.value.refreshToken.Some?
    ensures var s1 := DiscordRoutes.LinkedRoleStep(store0, auth);
            var s2 := DiscordRoutes.CallbackStep(s1.store, q, pin, claimUrl);
            var s3 := PlexHandler.CallbackStep(cfg, pq, s2.store, db, up, now);
            && s2.response == AppError(INVALID_STATE)
            && s2.store == s1.store
            && DISCORD_CODE in s2.store && s2.store[DISCORD_CODE] == store0[DISCORD_CODE]
            && s3.db == ApplyAll(db, PlexHandler.Transact(up, now).writes)
            && s3.trace[3] == ExchangeCode(store0[DISCORD_CODE])
  {
    KeysDistinct();
    var s1 := DiscordRoutes.LinkedRoleStep(store0, auth);
    var s2 := DiscordRoutes.CallbackStep(s1.store, q, pin, claimUrl);
    PlexHandler.CommitCallOrder(cfg, pq, s2.store, db, up, now);
  }

  /**
   * The state secret is not consumed: replaying a successful Discord callback (same state, any
   * code) is accepted again and replaces the kept code.
   */
  lemma StateIsReusable(store: map<string, string>, q: DiscordRoutes.CallbackQuery,
                        code2: string, pin: Result<Pin>, claimUrl: Result<string>)
    requires DiscordRoutes.StateMatches(store, q)
    ensures var s2 := DiscordRoutes.CallbackStep(store, q, pin, claimUrl);
            var s3 := DiscordRoutes.CallbackStep(s2.store, DiscordRoutes.CallbackQuery(code2, q.state), pin, claimUrl);
            s3.store == store[DISCORD_CODE := code2] && WritesSession(s3.trace)
  {
    var s2 := DiscordRoutes.CallbackStep(store, q, pin, claimUrl);
    assert s2.store[DISCORD_CODE := code2] == store[DISCORD_CODE := code2];
  }
}
