# displex account linking, modelled in Dafny

displex links a user's Plex account to their Discord account so that Discord can show
"linked role" metadata (plays, hours watched) taken from Tautulli. The linking is a
three-request flow whose state between requests lives in a per-browser session holding two
keys, `DISCORD_STATE` and `DISCORD_CODE`:

1. **Start** (`/discord/linked-role`): the Discord authorization URL is built, its CSRF state
   secret is stored under `DISCORD_STATE`, and the browser is redirected to Discord.
2. **Discord callback** (`/discord/callback`): the returned `state` must equal the stored one
   (`verify_state`). Only then is the returned `code` stored under `DISCORD_CODE`; then a Plex
   PIN is requested and the browser is sent to the Plex page that approves it.
3. **Plex callback** (`/plex/callback`): the PIN is claimed for a Plex token, the Discord code is
   read from the session, the Plex device list must contain the configured server, the code is
   exchanged for a Discord token, both profiles are fetched, four rows (Discord user, Discord
   token, Plex user, Plex token) are written in one transaction, and metadata derived from the
   first Tautulli statistics row is pushed to Discord.

The model covers three sources. `src/server/axum/routes/discord.rs` holds the start and Discord
callback routes of the axum server. `src/handlers/plex.rs` is an actix-web handler for the Plex
callback: it uses `actix_session` and runs its transaction on a diesel pool in `web::block`. The
earlier actix-web handlers of `src/main.rs` run the same state machine without a database. The
axum and actix-web handlers use different session stores, so `Flow`, which chains the axum
Discord routes to the actix-web Plex callback, assumes that both share one session under the
same keys.

## How the model is built

- Each handler is a pure transition function (`...Step`) from the session (a
  `map<string, string>`), the database tables and the answers of the upstream calls to the
  response, the new session or tables, and the **trace**: the list of calls the handler made
  (upstream calls with their arguments, session reads and writes, the transaction) in order.
  The properties of each handler are stated about this function, in its `ensures` clauses and
  in the lemmas beside it.
- Each handler is also an imperative `method` over a `Session` object (field `store`) and a
  `Database` object (four table fields). Its `ensures` says that its response, trace and new
  state are exactly those of the transition function.
- Upstream calls (PIN request and claim, device list, token exchange, user fetches, statistics,
  metadata push) are not modelled: their results are `Result`/`Outcome` inputs. The database's
  behaviour during the transaction (pool or BEGIN failure, which insert errors, COMMIT failure) is a `TxFault` input.
  The clock is the `now` input, in seconds.
- The tables hold every row handed to the matching insert function, in order. The transaction
  stages its inserts on a copy and replaces all four tables at once on commit.

Modules: `Results`, `Http`, `Sessions`, `Upstream`, `Trace` (shared vocabulary);
`LinkStore` (rows, the transaction and its field derivations); `PlexHandler`, `DiscordRoutes`,
`LegacyApp` (one per source file); `Flow` (the three requests together).

## Behaviour worth noting

The model states each of these:

- The Plex callback reads `DISCORD_CODE` immediately after the PIN claim and aborts through
  `expect` (a panic, not an error value) when the key is absent. It does this before it fetches
  the device list.
- A Tautulli statistics failure is a 500 after the commit. It is not recovered as zero metadata.
- The Discord and Plex profiles are fetched one after the other.
- The session is never cleared. `DISCORD_STATE` survives the Discord callback, so a replayed
  callback with the same state is accepted again (`Flow.StateIsReusable`).
- A failed metadata push leaves the committed rows in place. There is no rollback.
- A Discord callback with a wrong state does not remove a code that an earlier callback kept.
  A later Plex callback on that session exchanges the earlier code
  (`Flow.ForgedStateKeepsEarlierCode`).

## Model

| member | source | states |
|---|---|---|
| `DiscordRoutes.VerifyState` | src/server/axum/routes/discord.rs:62-70 | passes exactly when the session's state equals the query's state; otherwise fails with "invalid state" |
| `DiscordRoutes.LinkedRoleStep` | src/server/axum/routes/discord.rs:25-33 | stores the authorize URL's state secret under `DISCORD_STATE`, keeps every other key, redirects to the authorize URL |
| `DiscordRoutes.LinkedRole` | src/server/axum/routes/discord.rs:25-33 | the session update and response of `linked_role` are those of `LinkedRoleStep` |
| `DiscordRoutes.CallbackStep` | src/server/axum/routes/discord.rs:41-60 | fails before any write when `DISCORD_STATE` is absent or differs from the query's state; writes `DISCORD_CODE` exactly on a match and keeps `DISCORD_STATE`; the code is written before the PIN request, so a PIN or URL failure keeps it; redirects exactly when every step succeeds, to the URL generated from the obtained PIN's id and code |
| `DiscordRoutes.Callback` | src/server/axum/routes/discord.rs:41-60 | the session update, calls and response of `callback` are those of `CallbackStep` |
| `Upstream.FindDevice` | src/handlers/plex.rs:56-65 | finds a device exactly when some device's client identifier is the configured server id, and returns the first such device |
| `PlexHandler.CallbackStep` | src/handlers/plex.rs:35-185 | the PIN claim is the first call; the tables change exactly when every step up to the transaction succeeds and the transaction commits, and then by the transaction's four rows; consistent foreign keys stay consistent |
| `PlexHandler.PinClaimFailure` | src/handlers/plex.rs:44-50 | a failed PIN claim is a 500 with no session read, no further call and no write |
| `PlexHandler.MissingCodeAborts` | src/handlers/plex.rs:52-54 | after a successful claim the session is read next; a missing `DISCORD_CODE` aborts there, before the device list is fetched, with nothing written |
| `PlexHandler.UnauthorizedDevice` | src/handlers/plex.rs:56-65 | the response is 401 "unauthorized user" exactly when the fetched device list lacks the configured server; then no code exchange, no write and no metadata push happen |
| `PlexHandler.ErrorStatusClasses` | src/handlers/plex.rs:44-183 | the handler returns a client error (status below 500) exactly when the fetched device list lacks the configured server, and that error is 401; every other error response it builds is a 500 |
| `PlexHandler.ExchangeOnlyWhenAuthorized` | src/handlers/plex.rs:63-70 | a code exchange happens only for an authorized device, and it exchanges the code kept in the session |
| `PlexHandler.CommitCallOrder` | src/handlers/plex.rs:44-158 | a committing request claims, reads the session, lists devices, exchanges, fetches the Discord user, fetches the Plex user, commits, and then fetches the grouped whole-history statistics of that Plex user, in this order |
| `PlexHandler.TransactionFailureWritesNothing` | src/handlers/plex.rs:85-150 | a transaction that does not commit leaves every table unchanged, yields a 500 and pushes no metadata |
| `PlexHandler.NoRollbackAfterCommit` | src/handlers/plex.rs:152-180 | a statistics or metadata-push failure after the commit is a 500 and the committed rows stay |
| `PlexHandler.PushOnlyAfterCommit` | src/handlers/plex.rs:145-180 | metadata is pushed only by a request whose transaction committed |
| `PlexHandler.SuccessPushesDerivedMetadata` | src/handlers/plex.rs:160-181 | the response redirects exactly when everything succeeds; it then goes to the auth-success URL, and the last call pushed the application name with the metadata derived from the statistics |
| `PlexHandler.HoursOf` | src/handlers/plex.rs:165 | whole hours in a number of seconds, truncated toward zero as Rust's integer division does |
| `PlexHandler.DeriveMetadata` | src/handlers/plex.rs:160-166 | both fields are 0 for an empty statistics list; otherwise only the first row is used: watches are its plays and hours are its time divided by 3600, truncated |
| `PlexHandler.DeriveMetadataExample` | src/handlers/plex.rs:163-165 | 42 plays and 7300 s give 42 watches and 2 hours; rows after the first are ignored |
| `PlexHandler.Callback` | src/handlers/plex.rs:35-185 | the response, the calls and the new tables of `callback` are those of `CallbackStep` |
| `LinkStore.RunTransaction` | src/handlers/plex.rs:89-143 | the i-th insert goes to the i-th table of the order Discord user, Discord token, Plex user, Plex token; the Discord token and the Plex user carry the inserted Discord user's id, and the Plex token the inserted Plex user's id; it commits exactly when no statement fails and a refresh token is present; a pool failure writes nothing, a failing insert is the last one attempted, and a failing COMMIT comes after all four inserts |
| `LinkStore.TransactionKeepsForeignKeys` | src/handlers/plex.rs:89-143 | after every prefix of the transaction's inserts, every token and Plex user row refers to a user row already written |
| `LinkStore.LinkedWritesKeepForeignKeys` | src/handlers/plex.rs:118-137 | writing in that order with those foreign keys never leaves a dangling reference |
| `LinkStore.Apply` | src/handlers/plex.rs:90-139 | an insert leaves the three tables other than its own as they were |
| `LinkStore.ApplyAllAppends` | src/handlers/plex.rs:89-143 | inserts only append: each write adds exactly one row and changes no existing row |
| `LinkStore.Database.LinkAccounts` | src/handlers/plex.rs:85-150 | the staged inserts replace all four tables at once on commit; on any failure the tables are unchanged |
| `LinkStore.CommaTerminated` | src/handlers/plex.rs:109 | empty exactly for no scopes; otherwise ends in a comma |
| `LinkStore.ScopesField` | src/handlers/plex.rs:108-110 | the stored scopes are "" exactly when the token reports no scopes or an empty list; otherwise each scope followed by "," |
| `LinkStore.ScopesRoundTrip` | src/handlers/plex.rs:108-110 | splitting the stored string at its commas gives back exactly the granted scopes, when no scope contains a comma |
| `LinkStore.ExpiresAt` | src/handlers/plex.rs:111-117 | the expiry is `now` plus the reported lifetime, or `now` plus 1800 s when the lifetime is absent |
| `LegacyApp.DiscordLinkedRole` | src/main.rs:26-35 | the same transition as `DiscordRoutes.LinkedRoleStep`: the state secret goes under `DISCORD_STATE` and the browser to the authorize URL |
| `LegacyApp.DiscordCallbackStep` | src/main.rs:44-62 | aborts when `DISCORD_STATE` is absent; a mismatch is 400 "invalid state" with nothing written; a match writes `DISCORD_CODE` and redirects to the Plex URL built from the PIN's id and code |
| `LegacyApp.DiscordCallback` | src/main.rs:44-62 | the session update, calls and response of `discord_callback` are those of `DiscordCallbackStep` |
| `LegacyApp.DiscordCallbackMatchesAxum` | src/main.rs:50-60 | once the state is present, the earlier Discord callback makes the same session change and calls as the axum one whose PIN request and URL generation succeed, and redirects in the same cases to the same URL |
| `LegacyApp.PlexCallbackStep` | src/main.rs:71-99 | claims the PIN, then reads `DISCORD_CODE` and aborts when it is absent; without a matching device it is 401 with no exchange and no link call; with one it exchanges the code, links, and answers 200 with the success body |
| `LegacyApp.PlexCallback` | src/main.rs:71-99 | the calls and response of `plex_callback` are those of `PlexCallbackStep` |
| `Sessions.Session.Insert` | src/server/axum/routes/discord.rs:51 | sets the key to the value and keeps every other key as it was |
| `Sessions.Session.Get` | src/server/axum/routes/discord.rs:46-48 | a session read returns the stored value exactly when the key is present |
| `Flow.FollowedFlowLinks` | src/handlers/plex.rs:52-67 | a browser that follows start, Discord callback and Plex callback gets the Plex redirect, and the Plex callback exchanges exactly the code from the Discord callback and commits the four rows |
| `Flow.ForgedStateNeverLinks` | src/server/axum/routes/discord.rs:46-51 | on a session that holds no Discord code, a Discord callback with a wrong state keeps no code, so a later Plex callback on that session aborts after the PIN claim with no device check, exchange or write |
| `Flow.ForgedStateKeepsEarlierCode` | src/server/axum/routes/discord.rs:46-51 | on a session that already holds a Discord code, a callback with a wrong state leaves the session as it was, and a later Plex callback exchanges that earlier code and commits the four rows when its calls succeed |
| `Flow.StateIsReusable` | src/server/axum/routes/discord.rs:49-51 | the state secret is not consumed: a second callback with the same state is accepted and replaces the kept code |

## Left out

- Process wiring is outside the model: `main()` in src/main.rs, src/server/axum/mod.rs (client construction, timeouts, tracing, session middleware, database pool and migrations, socket binding), and cookie signing and encryption of the session.
- The Discord, Plex and Tautulli HTTP clients are outside the model. Each call's result is an input, and the trace records the call with its arguments. The exception is `generate_auth_success_url()` at src/handlers/plex.rs:181. It builds a URL from the client's configuration, so the model reads that URL from `Settings.authSuccessUrl` and does not record it as a call.
- The internals of the `db::discord` and `db::plex` insert functions are outside the model, including whether they update an existing row. Each insert returns the row as written, and the tables record every row handed to an insert.
- Errors from `session.get`/`session.insert` are not modelled. The model treats session values as strings that always deserialize and insert calls as never failing, so the `?` on those calls never fires.
- The HTTP status that the axum error type `DisplexError` maps to is not modelled. src/errors.rs is not part of this model, so axum errors are `AppError` with their message.
- The string values of `DISCORD_STATE` and `DISCORD_CODE` are invented. src/session.rs is not part of this model, and the model relies only on the two keys being distinct.
- A panic inside `web::block` (the refresh-token `expect`) becomes actix-web's blocking-task error, a 500. The model takes its text to be "Blocking thread pool is gone" and treats the transaction as rolled back.
- Logging, `println!` in `verify_state`, `tracing` instrumentation and async scheduling are not modelled. None of them affects the outcome.
- The wall clock is outside the model: `Utc::now()` is the `now` input.
- The parsing of the query string (a `u64` PIN id) is done by the framework before the handlers run, so it is not modelled.
- `LinkStore.ExpiresAt`: chrono's overflow panics and the `as_secs() as i64` cast are not modelled. `Duration::seconds` panics above i64::MAX/1000 seconds (about 9.2×10^15 s). Adding the duration to `now` panics once the sum passes chrono's last date (year 262143, about 8.2×10^12 s after the epoch). Either panic would happen inside `web::block`, so the handler answers a 500 and commits nothing, while the model commits a token row with the unbounded `ExpiresAt`. The cast wraps only at 2^63 s.
- `PlexHandler.HoursOf`: the integer widths of Tautulli's `total_plays`/`total_time` and of Discord's metadata fields are not modelled (those model types are not part of this model). Values are unbounded integers.
- The legacy `link_application(&token)` receives the token that the legacy exchange returned. Its type is not part of this model, so it is an input string.
- `Flow`: the axum routes keep their session in an `axum_sessions` cookie store and the actix-web Plex callback in `actix_session`, and no single server mounts both. The three `Flow` lemmas assume the two handlers read and write one session under the same keys.
