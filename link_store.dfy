/**
 * The database side of the Plex callback: the four rows it writes, the values derived for
 * them, and the one transaction that writes all four or none.
 */
module LinkStore {
  import opened Results
  import opened Upstream

  datatype DiscordUserRow = DiscordUserRow(id: string, username: string)

  datatype DiscordTokenRow = DiscordTokenRow(
    accessToken: string,
    refreshToken: string,
    scopes: string,
    expiresAt: int,       // seconds since the epoch
    discordUserId: string)

  datatype PlexUserRow = PlexUserRow(id: int, username: string, discordUserId: string)

  datatype PlexTokenRow = PlexTokenRow(accessToken: string, plexUserId: int)

  /**
   * The committed contents of the four tables: every row handed to the matching insert
   * function, in order. Whether those functions update an existing row is not modelled.
   */
  datatype Tables = Tables(
    discordUsers: seq<DiscordUserRow>,
    discordTokens: seq<DiscordTokenRow>,
    plexUsers: seq<PlexUserRow>,
    plexTokens: seq<PlexTokenRow>)

  datatype Table = DiscordUsers | DiscordTokens | PlexUsers | PlexTokens

  /** One insert performed inside the transaction. */
  datatype Write =
    | InsertDiscordUser(discordUser: DiscordUserRow)
    | InsertDiscordToken(discordToken: DiscordTokenRow)
    | InsertPlexUser(plexUser: PlexUserRow)
    | InsertPlexToken(plexToken: PlexTokenRow)

  function TableOf(w: Write): Table
  {
    match w
    case InsertDiscordUser(_) => DiscordUsers
    case InsertDiscordToken(_) => DiscordTokens
    case InsertPlexUser(_) => PlexUsers
    case InsertPlexToken(_) => PlexTokens
  }

  /** The order in which the transaction writes the tables. */
  const WRITE_ORDER: seq<Table> := [DiscordUsers, DiscordTokens, PlexUsers, PlexTokens]

  /** Total number of rows over the four tables. */
  function RowCount(t: Tables): nat
  {
    |t.discordUsers| + |t.discordTokens| + |t.plexUsers| + |t.plexTokens|
  }

  /** `u` is `t` with rows appended only. */
  predicate Extends(t: Tables, u: Tables)
  {
    && t.discordUsers <= u.discordUsers
    && t.discordTokens <= u.discordTokens
    && t.plexUsers <= u.plexUsers
    && t.plexTokens <= u.plexTokens
  }

  /** The effect of one insert: its row is appended to its own table. */
  function Apply(t: Tables, w: Write): (r: Tables)
    ensures TableOf(w) != DiscordUsers ==> r.discordUsers == t.discordUsers
    ensures TableOf(w) != DiscordTokens ==> r.discordTokens == t.discordTokens
    ensures TableOf(w) != PlexUsers ==> r.plexUsers == t.plexUsers
    ensures TableOf(w) != PlexTokens ==> r.plexTokens == t.plexTokens
  {
    match w
    case InsertDiscordUser(u) => t.(discordUsers := t.discordUsers + [u])
    case InsertDiscordToken(k) => t.(discordTokens := t.discordTokens + [k])
    case InsertPlexUser(p) => t.(plexUsers := t.plexUsers + [p])
    case InsertPlexToken(k) => t.(plexTokens := t.plexTokens + [k])
  }

  /** The effect of a sequence of inserts performed in order. */
  function ApplyAll(t: Tables, ws: seq<Write>): (r: Tables)
    decreases |ws|
  {
    if ws == [] then t else ApplyAll(Apply(t, ws[0]), ws[1..])
  }

  /** Inserts only ever add rows: one row per write, nothing removed or changed. */
  lemma {:induction false} ApplyAllAppends(t: Tables, ws: seq<Write>)
    ensures Extends(t, ApplyAll(t, ws))
    ensures RowCount(ApplyAll(t, ws)) == RowCount(t) + |ws|
    decreases |ws|
  {
    if ws != [] {
      ApplyAllAppends(Apply(t, ws[0]), ws[1..]);
    }
  }

  function DiscordUserIds(t: Tables): set<string>
  {
    set u | u in t.discordUsers :: u.id
  }

  function PlexUserIds(t: Tables): set<int>
  {
    set p | p in t.plexUsers :: p.id
  }

  /** Every token and every Plex user refers to a user row that is present. */
  predicate ForeignKeysHold(t: Tables)
  {
    && (forall k | k in t.discordTokens :: k.discordUserId in DiscordUserIds(t))
    && (forall p | p in t.plexUsers :: p.discordUserId in DiscordUserIds(t))
    && (forall k | k in t.plexTokens :: k.plexUserId in PlexUserIds(t))
  }

  /**
   * A prefix of the transaction's write order in which each foreign key is the key of the
   * row written before it: token and Plex user point at the Discord user, the Plex token at
   * the Plex user.
   */
  predicate LinkedInOrder(ws: seq<Write>)
  {
    && |ws| <= |WRITE_ORDER|
    && (|ws| >= 1 ==> ws[0].InsertDiscordUser?)
    && (|ws| >= 2 ==> ws[1].InsertDiscordToken? && ws[1].discordToken.discordUserId == ws[0].discordUser.id)
    && (|ws| >= 3 ==> ws[2].InsertPlexUser? && ws[2].plexUser.discordUserId == ws[0].discordUser.id)
    && (|ws| >= 4 ==> ws[3].InsertPlexToken? && ws[3].plexToken.plexUserId == ws[2].plexUser.id)
  }

  lemma {:induction false} ApplyAllSnoc(t: Tables, ws: seq<Write>, w: Write)
    ensures ApplyAll(t, ws + [w]) == Apply(ApplyAll(t, ws), w)
    decreases |ws|
  {
    if ws != [] {
      assert (ws + [w])[1..] == ws[1..] + [w];
      ApplyAllSnoc(Apply(t, ws[0]), ws[1..], w);
    } else {
      assert ([] + [w])[1..] == [];
    }
  }

  /**
   * Writing in the transaction's order never leaves a dangling foreign key: if the tables were
   * consistent before, they are consistent after every prefix of the writes.
   */
  lemma {:induction false} LinkedWritesKeepForeignKeys(t: Tables, ws: seq<Write>)
    requires ForeignKeysHold(t)
    requires LinkedInOrder(ws)
    ensures ForeignKeysHold(ApplyAll(t, ws))
    ensures |ws| >= 1 ==> ws[0].discordUser.id in DiscordUserIds(ApplyAll(t, ws))
    ensures |ws| >= 3 ==> ws[2].plexUser.id in PlexUserIds(ApplyAll(t, ws))
    decreases |ws|
  {
    if ws != [] {
      var n := |ws| - 1;
      var init := ws[..n];
      assert ws == init + [ws[n]];
      assert LinkedInOrder(init);
      LinkedWritesKeepForeignKeys(t, init);
      ApplyAllSnoc(t, init, ws[n]);
      var s := ApplyAll(t, init);
      var s' := Apply(s, ws[n]);
      assert s'.discordUsers == s.discordUsers || n == 0;
      if n == 0 {
        assert ApplyAll(t, ws) == s';
        assert ws[0].discordUser in s'.discordUsers;
      } else if n == 1 {
        assert DiscordUserIds(s') == DiscordUserIds(s);
      } else if n == 2 {
        assert DiscordUserIds(s') == DiscordUserIds(s);
        assert ws[2].plexUser in s'.plexUsers;
      } else {
        assert DiscordUserIds(s') == DiscordUserIds(s);
        assert PlexUserIds(s') == PlexUserIds(s);
      }
    }
  }

  lemma LinkedPrefix(ws: seq<Write>, k: nat)
    requires LinkedInOrder(ws) && k <= |ws|
    ensures LinkedInOrder(ws[..k])
  {
  }

  // ---------------------------------------------------------------------------------------
  // Field derivations for the Discord token row

  /** Each scope followed by a comma: `scopes.iter().map(|s| s + ",").collect()`. */
  function CommaTerminated(scopes: seq<string>): (r: string)
    ensures r == "" <==> scopes == []
    ensures r != "" ==> r[|r| - 1] == ','
  {
    if scopes == [] then "" else scopes[0] + "," + CommaTerminated(scopes[1..])
  }

  /** The stored `scopes` column: empty when the token reports no scopes. */
  function ScopesField(scopes: Option<seq<string>>): (r: string)
    ensures r == "" <==> scopes == None || scopes == Some([])
    ensures r != "" ==> r[|r| - 1] == ','
    ensures scopes.Some? ==> r == CommaTerminated(scopes.value)
  {
    match scopes
    case None => ""
    case Some(ss) => CommaTerminated(ss)
  }

  /** Index of the first comma of `s`, or `|s|` when there is none. */
  function FirstComma(s: string): (i: nat)
    ensures i <= |s|
    ensures forall j :: 0 <= j < i ==> s[j] != ','
    ensures i < |s| ==> s[i] == ','
  {
    if s == [] then 0 else if s[0] == ',' then 0 else 1 + FirstComma(s[1..])
  }

  /** Reads a comma-terminated list back into its items (the inverse of `CommaTerminated`). */
  function SplitTerminated(s: string): (r: seq<string>)
    decreases |s|
  {
    if s == [] then []
    else
      var i := FirstComma(s);
      if i == |s| then [s] else [s[..i]] + SplitTerminated(s[i + 1..])
  }

  lemma {:induction false} FirstCommaAfter(a: string, b: string)
    requires ',' !in a
    ensures FirstComma(a + "," + b) == |a|
    decreases |a|
  {
    if a != [] {
      assert (a + "," + b)[1..] == a[1..] + "," + b;
      FirstCommaAfter(a[1..], b);
    }
  }

  /** The stored string lists exactly the granted scopes, provided no scope contains a comma. */
  lemma {:induction false} ScopesRoundTrip(scopes: seq<string>)
    requires forall i :: 0 <= i < |scopes| ==> ',' !in scopes[i]
    ensures SplitTerminated(CommaTerminated(scopes)) == scopes
    decreases |scopes|
  {
    if scopes != [] {
      var s := CommaTerminated(scopes);
      var rest := CommaTerminated(scopes[1..]);
      assert s == scopes[0] + "," + rest;
      FirstCommaAfter(scopes[0], rest);
      assert s[..|scopes[0]|] == scopes[0];
      assert s[|scopes[0]| + 1..] == rest;
      ScopesRoundTrip(scopes[1..]);
      assert scopes == [scopes[0]] + scopes[1..];
    }
  }

  /** Lifetime used when Discord does not report `expires_in`. */
  const DEFAULT_TOKEN_LIFETIME: nat := 1800

  /** `now + expires_in`, falling back to `now + 1800` seconds. */
  function ExpiresAt(now: int, expiresIn: Option<nat>): (r: int)
    ensures r >= now
    ensures expiresIn.None? ==> r == now + DEFAULT_TOKEN_LIFETIME
    ensures expiresIn.Some? ==> r - now == expiresIn.value
  {
    now + match expiresIn { case None => DEFAULT_TOKEN_LIFETIME case Some(s) => s }
  }

  // ---------------------------------------------------------------------------------------
  // The transaction

  /** How the database behaves during one transaction (an input: the insert functions are not modelled). */
  datatype TxFault =
    | NoFault                       // every statement succeeds
    | PoolUnavailable               // `pool.get()` or BEGIN fails before anything is written
    | InsertFails(table: Table)     // the insert into `table` returns an error
    | CommitFails                   // every insert succeeds but COMMIT returns an error

  /** Position in `WRITE_ORDER` of a table. */
  function TableIndex(table: Table): (i: nat)
    ensures i < |WRITE_ORDER| && WRITE_ORDER[i] == table
  {
    match table
    case DiscordUsers => 0
    case DiscordTokens => 1
    case PlexUsers => 2
    case PlexTokens => 3
  }

  /** The step at which the transaction errors: -1 before any insert, 4 at COMMIT, 5 when none does. */
  function FailIndex(fault: TxFault): (i: int)
    ensures -1 <= i <= |WRITE_ORDER| + 1
    ensures i == -1 <==> fault == PoolUnavailable
    ensures i == |WRITE_ORDER| <==> fault == CommitFails
    ensures i == |WRITE_ORDER| + 1 <==> fault == NoFault
    ensures 0 <= i < |WRITE_ORDER| ==> fault == InsertFails(WRITE_ORDER[i])
  {
    match fault
    case NoFault => |WRITE_ORDER| + 1
    case CommitFails => |WRITE_ORDER|
    case PoolUnavailable => -1
    case InsertFails(table) => TableIndex(table)
  }

  datatype TxStatus =
    | Committed
    | Failed      // the closure returned an error: rolled back
    | Panicked    // the closure panicked on the missing refresh token: rolled back

  /** What the transaction did: how it ended and the inserts it attempted, in order. */
  datatype TxResult = TxResult(status: TxStatus, writes: seq<Write>)

  /**
   * The body of the transaction: insert the Discord user, its token, the Plex user and its
   * token, each foreign key taken from the row just returned by the previous insert.
   */
  function RunTransaction(du: DiscordProfile, token: DiscordToken, pu: PlexProfile,
                          plexAuthToken: string, now: int, fault: TxFault): (r: TxResult)
    ensures LinkedInOrder(r.writes)
    ensures forall i :: 0 <= i < |r.writes| ==> TableOf(r.writes[i]) == WRITE_ORDER[i]
    ensures r.status == Committed <==> fault == NoFault && token.refreshToken.Some?
    ensures r.status == Committed ==> |r.writes| == 4
    ensures r.status == Panicked <==>
              token.refreshToken.None? && fault != PoolUnavailable && fault != InsertFails(DiscordUsers)
    ensures fault == PoolUnavailable ==> r.writes == []
    ensures fault == CommitFails && token.refreshToken.Some? ==> r.status == Failed && |r.writes| == 4
    ensures fault.InsertFails? && r.status != Panicked ==>
              r.status == Failed && r.writes != [] && TableOf(r.writes[|r.writes| - 1]) == fault.table
    ensures r.writes != [] ==> r.writes[0] == InsertDiscordUser(DiscordUserRow(du.id, du.username))
    ensures |r.writes| >= 2 ==>
              && token.refreshToken.Some?
              && r.writes[1].discordToken == DiscordTokenRow(token.accessToken, token.refreshToken.value,
                   ScopesField(token.scopes), ExpiresAt(now, token.expiresIn), du.id)
    ensures |r.writes| >= 3 ==> r.writes[2].plexUser == PlexUserRow(pu.id, pu.username, du.id)
    ensures |r.writes| >= 4 ==> r.writes[3].plexToken == PlexTokenRow(plexAuthToken, pu.id)
  {
    var at := FailIndex(fault);
    if at == -1 then TxResult(Failed, [])
    else
      var user := DiscordUserRow(du.id, du.username);
      var w0 := [InsertDiscordUser(user)];
      if at == 0 then TxResult(Failed, w0)
      else if token.refreshToken.None? then TxResult(Panicked, w0)
      else
        var tokenRow := DiscordTokenRow(token.accessToken, token.refreshToken.value,
                          ScopesField(token.scopes), ExpiresAt(now, token.expiresIn), user.id);
        var w1 := w0 + [InsertDiscordToken(tokenRow)];
        if at == 1 then TxResult(Failed, w1)
        else
          var plexUser := PlexUserRow(pu.id, pu.username, user.id);
          var w2 := w1 + [InsertPlexUser(plexUser)];
          if at == 2 then TxResult(Failed, w2)
          else
            var w3 := w2 + [InsertPlexToken(PlexTokenRow(plexAuthToken, plexUser.id))];
            if at == 3 || at == 4 then TxResult(Failed, w3)
            else TxResult(Committed, w3)
  }

  /**
   * The transaction keeps the database consistent: after each prefix of its inserts, in
   * particular after a commit, every row refers to a row already written.
   */
  lemma TransactionKeepsForeignKeys(t: Tables, du: DiscordProfile, token: DiscordToken, pu: PlexProfile,
                                    plexAuthToken: string, now: int, fault: TxFault, k: nat)
    requires ForeignKeysHold(t)
    requires k <= |RunTransaction(du, token, pu, plexAuthToken, now, fault).writes|
    ensures ForeignKeysHold(ApplyAll(t, RunTransaction(du, token, pu, plexAuthToken, now, fault).writes[..k]))
  {
    var ws := RunTransaction(du, token, pu, plexAuthToken, now, fault).writes;
    LinkedPrefix(ws, k);
    LinkedWritesKeepForeignKeys(t, ws[..k]);
  }

  /** The database: four tables that only a committed transaction changes, all at once. */
  class Database {
    var discordUsers: seq<DiscordUserRow>
    var discordTokens: seq<DiscordTokenRow>
    var plexUsers: seq<PlexUserRow>
    var plexTokens: seq<PlexTokenRow>

    function Snapshot(): Tables
      reads this
    {
      Tables(discordUsers, discordTokens, plexUsers, plexTokens)
    }

    constructor (initial: Tables)
      ensures Snapshot() == initial
    {
      discordUsers := initial.discordUsers;
      discordTokens := initial.discordTokens;
      plexUsers := initial.plexUsers;
      plexTokens := initial.plexTokens;
    }

    /**
     * `conn.build_transaction().run(...)`: the inserts go to a staged copy of the tables,
     * which replaces the committed tables only when every insert succeeded.
     */
    method LinkAccounts(du: DiscordProfile, token: DiscordToken, pu: PlexProfile,
                        plexAuthToken: string, now: int, fault: TxFault)
      returns (status: TxStatus, writes: seq<Write>)
      modifies this
      ensures TxResult(status, writes) == RunTransaction(du, token, pu, plexAuthToken, now, fault)
      ensures Snapshot() == if status == Committed then ApplyAll(old(Snapshot()), writes)
                            else old(Snapshot())
    {
      var at := FailIndex(fault);
      writes := [];
      if at == -1 {
        return Failed, writes;
      }
      ghost var before := Snapshot();
      var staged := Snapshot();

      var user := DiscordUserRow(du.id, du.username);
      writes := writes + [InsertDiscordUser(user)];
      if at == 0 {
        return Failed, writes;
      }
      assert ApplyAll(before, []) == before;
      ApplyAllSnoc(before, [], InsertDiscordUser(user));
      staged := Apply(staged, InsertDiscordUser(user));
      assert staged == ApplyAll(before, writes);

      if token.refreshToken.None? {
        return Panicked, writes;
      }
      var tokenRow := DiscordTokenRow(token.accessToken, token.refreshToken.value,
                        ScopesField(token.scopes), ExpiresAt(now, token.expiresIn), user.id);
      ApplyAllSnoc(before, writes, InsertDiscordToken(tokenRow));
      writes := writes + [InsertDiscordToken(tokenRow)];
      if at == 1 {
        return Failed, writes;
      }
      staged := Apply(staged, InsertDiscordToken(tokenRow));
      assert staged == ApplyAll(before, writes);

      var plexUser := PlexUserRow(pu.id, pu.username, user.id);
      ApplyAllSnoc(before, writes, InsertPlexUser(plexUser));
      writes := writes + [InsertPlexUser(plexUser)];
      if at == 2 {
        return Failed, writes;
      }
      staged := Apply(staged, InsertPlexUser(plexUser));
      assert staged == ApplyAll(before, writes);

      var plexToken := PlexTokenRow(plexAuthToken, plexUser.id);
      ApplyAllSnoc(before, writes, InsertPlexToken(plexToken));
      writes := writes + [InsertPlexToken(plexToken)];
      if at == 3 {
        return Failed, writes;
      }
      staged := Apply(staged, InsertPlexToken(plexToken));
      assert staged == ApplyAll(before, writes);
      if at == 4 {
        return Failed, writes;
      }

      discordUsers, discordTokens, plexUsers, plexTokens :=
        staged.discordUsers, staged.discordTokens, staged.plexUsers, staged.plexTokens;
      status := Committed;
    }
  }
}
