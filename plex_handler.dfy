/**
 * `GET /plex/callback`, an actix-web handler over a diesel connection pool: the step that
 * completes the link. It claims the Plex PIN, checks that the Plex account can reach the
 * configured server, exchanges the Discord code kept in the session, stores both accounts in
 * one transaction, and pushes the linked-role metadata derived from Tautulli's statistics to
 * Discord.
 */
module PlexHandler {
  import opened Results
  import opened Http
  import opened Sessions
  import opened Upstream
  import opened LinkStore
  import opened Trace

  /** The configuration and client settings the handler reads. */
  datatype Settings = Settings(plexServerId: string, applicationName: string, authSuccessUrl: string)

  /** The query string Plex redirects back with: the PIN's id and code. */
  datatype PinQuery = PinQuery(id: nat, code: string)

  /** What each upstream call and the database answer during this request. */
  datatype Replies = Replies(
    pinClaim: Result<PinClaim>,
    devices: Result<seq<Device>>,
    token: Result<DiscordToken>,
    discordUser: Result<DiscordProfile>,
    plexUser: Result<PlexProfile>,
    fault: TxFault,
    watchStats: Result<seq<WatchStat>>,
    link: Outcome)

  /** The response, the committed tables afterwards, and the calls made, in order. */
  datatype LinkStep = LinkStep(response: Response, db: Tables, trace: seq<Call>)

  const SECONDS_PER_HOUR: nat := 3600

  /** `total_time / 3600` with Rust's integer division, which truncates toward zero. */
  function HoursOf(seconds: int): (h: int)
    ensures seconds >= 0 ==> h >= 0 && SECONDS_PER_HOUR * h <= seconds < SECONDS_PER_HOUR * (h + 1)
    ensures seconds < 0 ==> h <= 0 && SECONDS_PER_HOUR * (h - 1) < seconds <= SECONDS_PER_HOUR * h
  {
    if seconds >= 0 then seconds / SECONDS_PER_HOUR else -((-seconds) / SECONDS_PER_HOUR)
  }

  /**
   * The metadata pushed to Discord: zero unless Tautulli returned a row, in which case only the
   * first row counts.
   */
  function DeriveMetadata(stats: seq<WatchStat>): (m: Metadata)
    ensures stats == [] ==> m == Metadata(0, 0)
    ensures stats != [] ==> m.totalWatches == stats[0].totalPlays
    ensures stats != [] ==> m.hoursWatched == HoursOf(stats[0].totalTime)
  {
    if stats == [] then Metadata(0, 0)
    else Metadata(stats[0].totalPlays, HoursOf(stats[0].totalTime))
  }

  lemma DeriveMetadataExample()
    ensures DeriveMetadata([WatchStat(42, 7300)]) == Metadata(42, 2)
    ensures DeriveMetadata([WatchStat(1, 3599), WatchStat(9, 99999)]) == Metadata(1, 0)
  {
  }

  /** The PIN was claimed and the session holds a Discord code. */
  predicate ReachesDeviceCheck(store: map<string, string>, up: Replies)
  {
    up.pinClaim.Ok? && DISCORD_CODE in store
  }

  /** Plex's device list was fetched and contains the configured server. */
  predicate Authorized(cfg: Settings, up: Replies)
  {
    up.devices.Ok? && HasDevice(up.devices.value, cfg.plexServerId)
  }

  /** The token exchange and both profile fetches succeeded. */
  predicate ProfilesFetched(up: Replies)
  {
    up.token.Ok? && up.discordUser.Ok? && up.plexUser.Ok?
  }

  /** Everything the transaction depends on succeeded and the transaction itself commits. */
  predicate Commits(cfg: Settings, store: map<string, string>, up: Replies)
  {
    && ReachesDeviceCheck(store, up)
    && Authorized(cfg, up)
    && ProfilesFetched(up)
    && up.fault == NoFault
    && up.token.value.refreshToken.Some?
  }

  /** The transaction as this handler runs it. */
  function Transact(up: Replies, now: int): TxResult
    requires up.pinClaim.Ok? && ProfilesFetched(up)
  {
    RunTransaction(up.discordUser.value, up.token.value, up.plexUser.value,
                   up.pinClaim.value.authToken, now, up.fault)
  }

  /** The handler as a transition from (session, tables, upstream replies) to (response, tables, calls). */
  function CallbackStep(cfg: Settings, q: PinQuery, store: map<string, string>, db: Tables,
                        up: Replies, now: int): (r: LinkStep)
    ensures r.trace != [] && r.trace[0] == ClaimPin(q.id, q.code)
    // The tables change exactly when the four-row transaction commits, and then by those rows.
    ensures r.db != db <==> Commits(cfg, store, up)
    ensures Commits(cfg, store, up) ==> r.db == ApplyAll(db, Transact(up, now).writes)
    ensures ForeignKeysHold(db) ==> ForeignKeysHold(r.db)
  {
    var t0 := [ClaimPin(q.id, q.code)];
    if up.pinClaim.Err? then LinkStep(HttpError(InternalServerError, SOMETHING_BAD), db, t0)
    else
      var authToken := up.pinClaim.value.authToken;
      var t1 := t0 + [SessionGet(DISCORD_CODE)];
      if DISCORD_CODE !in store then LinkStep(Panic(INVALID_DISCORD_TOKEN), db, t1)
      else
        var code := store[DISCORD_CODE];
        var t2 := t1 + [GetDevices(authToken)];
        if up.devices.Err? then LinkStep(HttpError(InternalServerError, SOMETHING_BAD), db, t2)
        else if FindDevice(up.devices.value, cfg.plexServerId).None? then
          LinkStep(HttpError(Unauthorized, UNAUTHORIZED_USER), db, t2)
        else
          var t3 := t2 + [ExchangeCode(code)];
          if up.token.Err? then LinkStep(HttpError(InternalServerError, SOMETHING_BAD), db, t3)
          else
            var accessToken := up.token.value.accessToken;
            var t4 := t3 + [FetchDiscordUser(accessToken)];
            if up.discordUser.Err? then LinkStep(HttpError(InternalServerError, SOMETHING_BAD), db, t4)
            else
              var t5 := t4 + [FetchPlexUser(authToken)];
              if up.plexUser.Err? then LinkStep(HttpError(InternalServerError, SOMETHING_BAD), db, t5)
              else
                var tx := Transact(up, now);
                var t6 := t5 + [Transaction(tx.writes, tx.status == Committed)];
                if tx.status == Panicked then LinkStep(HttpError(InternalServerError, BLOCKING_POOL_GONE), db, t6)
                else if tx.status == Failed then LinkStep(HttpError(InternalServerError, SOMETHING_BAD), db, t6)
                else
                  var db' := ApplyAll(db, tx.writes);
                  ApplyAllAppends(db, tx.writes);
                  TransactionKeepsForeignKeysIfHeld(db, up, now);
                  var t7 := t6 + [FetchWatchStats(up.plexUser.value.id, true, Total)];
                  if up.watchStats.Err? then LinkStep(HttpError(InternalServerError, SOMETHING_BAD), db', t7)
                  else
                    var update := MetadataUpdate(cfg.applicationName, DeriveMetadata(up.watchStats.value));
                    var t8 := t7 + [LinkApplication(accessToken, update)];
                    if up.link.Fail? then LinkStep(HttpError(InternalServerError, SOMETHING_BAD), db', t8)
                    else LinkStep(Redirect(cfg.authSuccessUrl), db', t8)
  }

  lemma TransactionKeepsForeignKeysIfHeld(db: Tables, up: Replies, now: int)
    requires up.pinClaim.Ok? && ProfilesFetched(up)
    ensures ForeignKeysHold(db) ==> ForeignKeysHold(ApplyAll(db, Transact(up, now).writes))
  {
    var ws := Transact(up, now).writes;
    if ForeignKeysHold(db) {
      TransactionKeepsForeignKeys(db, up.discordUser.value, up.token.value, up.plexUser.value,
                                  up.pinClaim.value.authToken, now, up.fault, |ws|);
      assert ws[..|ws|] == ws;
    }
  }

  // ---------------------------------------------------------------------------------------
  // What the transition guarantees, one outcome at a time

  /** A failed PIN claim is a 500: no session read, no further call, no write. */
  lemma PinClaimFailure(cfg: Settings, q: PinQuery, store: map<string, string>, db: Tables, up: Replies, now: int)
    requires up.pinClaim.Err?
    ensures CallbackStep(cfg, q, store, db, up, now)
            == LinkStep(HttpError(InternalServerError, SOMETHING_BAD), db, [ClaimPin(q.id, q.code)])
  {
  }

  /**
   * After a successful claim the session is read next; a missing Discord code aborts there,
   * before the device list is fetched, with nothing written.
   */
  lemma MissingCodeAborts(cfg: Settings, q: PinQuery, store: map<string, string>, db: Tables, up: Replies, now: int)
    requires up.pinClaim.Ok?
    ensures var r := CallbackStep(cfg, q, store, db, up, now);
            |r.trace| >= 2 && r.trace[..2] == [ClaimPin(q.id, q.code), SessionGet(DISCORD_CODE)]
    ensures DISCORD_CODE !in store ==>
              CallbackStep(cfg, q, store, db, up, now)
              == LinkStep(Panic(INVALID_DISCORD_TOKEN), db, [ClaimPin(q.id, q.code), SessionGet(DISCORD_CODE)])
  {
  }

  /**
   * The response is 401 exactly when the device list was fetched and lacks the configured
   * server; then no code is exchanged, nothing is written and nothing is pushed.
   */
  lemma UnauthorizedDevice(cfg: Settings, q: PinQuery, store: map<string, string>, db: Tables, up: Replies, now: int)
    ensures var r := CallbackStep(cfg, q, store, db, up, now);
            r.response == HttpError(Unauthorized, UNAUTHORIZED_USER) <==>
            ReachesDeviceCheck(store, up) && up.devices.Ok? && !Authorized(cfg, up)
    ensures var r := CallbackStep(cfg, q, store, db, up, now);
            r.response == HttpError(Unauthorized, UNAUTHORIZED_USER) ==>
            r.db == db && !ExchangesCode(r.trace) && !PushesMetadata(r.trace)
  {
  }

  /**
   * The only client error (a 4xx status) the handler returns is the 401 for a device list that
   * lacks the configured server; every other error response it builds is a 5xx.
   */
  lemma ErrorStatusClasses(cfg: Settings, q: PinQuery, store: map<string, string>, db: Tables, up: Replies, now: int)
    ensures var r := CallbackStep(cfg, q, store, db, up, now);
            (r.response.HttpError? && Code(r.response.status) < 500) <==>
            ReachesDeviceCheck(store, up) && up.devices.Ok? && !Authorized(cfg, up)
    ensures var r := CallbackStep(cfg, q, store, db, up, now);
            r.response.HttpError? && Code(r.response.status) < 500 ==> Code(r.response.status) == 401
  {
    UnauthorizedDevice(cfg, q, store, db, up, now);
  }

  /** The Discord code is exchanged only for an authorized device, and it is the session's code. */
  lemma ExchangeOnlyWhenAuthorized(cfg: Settings, q: PinQuery, store: map<string, string>, db: Tables, up: Replies, now: int)
    ensures var r := CallbackStep(cfg, q, store, db, up, now);
            ExchangesCode(r.trace) ==> ReachesDeviceCheck(store, up) && Authorized(cfg, up)
    ensures var r := CallbackStep(cfg, q, store, db, up, now);
            forall i | 0 <= i < |r.trace| && r.trace[i].ExchangeCode? ::
              DISCORD_CODE in store && r.trace[i] == ExchangeCode(store[DISCORD_CODE])
  {
  }

  /** A request that commits makes its calls in this order, the transaction before the statistics. */
  lemma CommitCallOrder(cfg: Settings, q: PinQuery, store: map<string, string>, db: Tables, up: Replies, now: int)
    requires Commits(cfg, store, up)
    ensures var r := CallbackStep(cfg, q, store, db, up, now);
            |r.trace| >= 8 &&
            r.trace[..8] == [ClaimPin(q.id, q.code), SessionGet(DISCORD_CODE),
                             GetDevices(up.pinClaim.value.authToken), ExchangeCode(store[DISCORD_CODE]),
                             FetchDiscordUser(up.token.value.accessToken),
                             FetchPlexUser(up.pinClaim.value.authToken),
                             Transaction(Transact(up, now).writes, true),
                             FetchWatchStats(up.plexUser.value.id, true, Total)]
  {
  }

  /** Any failure of the transaction leaves the tables as they were and is a 500. */
  lemma TransactionFailureWritesNothing(cfg: Settings, q: PinQuery, store: map<string, string>, db: Tables, up: Replies, now: int)
    requires ReachesDeviceCheck(store, up) && Authorized(cfg, up) && ProfilesFetched(up)
    requires Transact(up, now).status != Committed
    ensures var r := CallbackStep(cfg, q, store, db, up, now);
            r.db == db && r.response.HttpError? && r.response.status == InternalServerError
            && !PushesMetadata(r.trace)
  {
  }

  /** A statistics or metadata-push failure after the commit is a 500; the commit stays. */
  lemma NoRollbackAfterCommit(cfg: Settings, q: PinQuery, store: map<string, string>, db: Tables, up: Replies, now: int)
    requires Commits(cfg, store, up) && (up.watchStats.Err? || up.link.Fail?)
    ensures var r := CallbackStep(cfg, q, store, db, up, now);
            r.response == HttpError(InternalServerError, SOMETHING_BAD) && r.db == ApplyAll(db, Transact(up, now).writes)
  {
  }

  /** Metadata is pushed only after a commit. */
  lemma PushOnlyAfterCommit(cfg: Settings, q: PinQuery, store: map<string, string>, db: Tables, up: Replies, now: int)
    ensures PushesMetadata(CallbackStep(cfg, q, store, db, up, now).trace) ==> Commits(cfg, store, up)
  {
  }

  /**
   * The request succeeds exactly when everything succeeds; it then redirects to the success
   * page, and its last call pushed the metadata derived from the statistics.
   */
  lemma SuccessPushesDerivedMetadata(cfg: Settings, q: PinQuery, store: map<string, string>, db: Tables, up: Replies, now: int)
    ensures var r := CallbackStep(cfg, q, store, db, up, now);
            r.response.Redirect? <==> Commits(cfg, store, up) && up.watchStats.Ok? && up.link.Pass?
    ensures var r := CallbackStep(cfg, q, store, db, up, now);
            r.response.Redirect? ==>
              && Commits(cfg, store, up) && up.watchStats.Ok?
              && r.response.location == cfg.authSuccessUrl
              && r.trace[|r.trace| - 1] == LinkApplication(up.token.value.accessToken,
                   MetadataUpdate(cfg.applicationName, DeriveMetadata(up.watchStats.value)))
  {
  }

  /** `callback` itself, step by step over the session and the database. */
  method Callback(cfg: Settings, q: PinQuery, session: Session, db: Database, up: Replies, now: int)
    returns (response: Response, trace: seq<Call>)
    modifies db
    ensures LinkStep(response, db.Snapshot(), trace) ==
              CallbackStep(cfg, q, session.store, old(db.Snapshot()), up, now)
  {
    trace := [ClaimPin(q.id, q.code)];
    if up.pinClaim.Err? {
      return HttpError(InternalServerError, SOMETHING_BAD), trace;
    }
    var authToken := up.pinClaim.value.authToken;

    trace := trace + [SessionGet(DISCORD_CODE)];
    var pending := session.Get(DISCORD_CODE);
    if pending.None? {
      return Panic(INVALID_DISCORD_TOKEN), trace;
    }
    var code := pending.value;

    trace := trace + [GetDevices(authToken)];
    if up.devices.Err? {
      return HttpError(InternalServerError, SOMETHING_BAD), trace;
    }
    var device := FindDevice(up.devices.value, cfg.plexServerId);
    if device.None? {
      return HttpError(Unauthorized, UNAUTHORIZED_USER), trace;
    }

    trace := trace + [ExchangeCode(code)];
    if up.token.Err? {
      return HttpError(InternalServerError, SOMETHING_BAD), trace;
    }
    var accessToken := up.token.value.accessToken;

    trace := trace + [FetchDiscordUser(accessToken)];
    if up.discordUser.Err? {
      return HttpError(InternalServerError, SOMETHING_BAD), trace;
    }

    trace := trace + [FetchPlexUser(authToken)];
    if up.plexUser.Err? {
      return HttpError(InternalServerError, SOMETHING_BAD), trace;
    }

    var status, writes := db.LinkAccounts(up.discordUser.value, up.token.value, up.plexUser.value,
                                          authToken, now, up.fault);
    trace := trace + [Transaction(writes, status == Committed)];
    if status == Panicked {
      return HttpError(InternalServerError, BLOCKING_POOL_GONE), trace;
    } else if status == Failed {
      return HttpError(InternalServerError, SOMETHING_BAD), trace;
    }

    trace := trace + [FetchWatchStats(up.plexUser.value.id, true, Total)];
    if up.watchStats.Err? {
      return HttpError(InternalServerError, SOMETHING_BAD), trace;
    }
    var data := Metadata(0, 0);
    if up.watchStats.value != [] {
      var latest := up.watchStats.value[0];
      data := data.(totalWatches := latest.totalPlays);
      data := data.(hoursWatched := HoursOf(latest.totalTime));
    }

    trace := trace + [LinkApplication(accessToken, MetadataUpdate(cfg.applicationName, data))];
    if up.link.Fail? {
      return HttpError(InternalServerError, SOMETHING_BAD), trace;
    }
    response := Redirect(cfg.authSuccessUrl);
  }
}
