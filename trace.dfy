/**
 * What a handler does beyond computing on its inputs, in the order it does it: each client call
 * with its arguments, each session access, and the database transaction. The Plex callback's
 * auth-success URL is a configured value, not a recorded call.
 */
module Trace {
  import opened Upstream
  import opened LinkStore

  /** The period Tautulli's watch-time statistics cover; the handler asks for the whole history. */
  datatype StatsWindow = Total

  datatype Call =
    | AuthorizeUrl
    | SessionGet(key: string)
    | SessionInsert(key: string, value: string)
    | GetPin
    | GenerateAuthUrl(pinId: nat, pinCode: string)
    | ClaimPin(pinId: nat, pinCode: string)
    | GetDevices(authToken: string)
    | ExchangeCode(code: string)
    | FetchDiscordUser(accessToken: string)
    | FetchPlexUser(authToken: string)
    | Transaction(writes: seq<Write>, committed: bool)
    | FetchWatchStats(plexUserId: int, grouping: bool, window: StatsWindow)
    | LinkApplication(accessToken: string, update: MetadataUpdate)
    | LinkApplicationToken(accessToken: string)

  /** The trace exchanges a Discord code for a token somewhere. */
  predicate ExchangesCode(trace: seq<Call>)
  {
    exists i :: 0 <= i < |trace| && trace[i].ExchangeCode?
  }

  /** The trace pushes linked-role metadata somewhere. */
  predicate PushesMetadata(trace: seq<Call>)
  {
    exists i :: 0 <= i < |trace| && (trace[i].LinkApplication? || trace[i].LinkApplicationToken?)
  }

  /** The trace writes to the session somewhere. */
  predicate WritesSession(trace: seq<Call>)
  {
    exists i :: 0 <= i < |trace| && trace[i].SessionInsert?
  }
}
