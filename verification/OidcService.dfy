/** The token endpoint of internal/oidc/service.go.

    A call is a small state machine: `Step` performs the next database statement of a
    call together with the pure checks that follow it.  `Service` is the sequential
    object; its methods are proved equal to running `Step` to the end (`Solo`), and
    module OidcWorld lets the steps of many calls interleave. */
module OidcService {
  import opened Common
  import opened OidcStore

  datatype Client = Client(
    id: string, secret: Option<string>, isPublic: bool, requirePkce: bool,
    grants: seq<string>, accessTtl: Time, refreshTtl: Time)

  datatype Error =
    InvalidClient | InvalidGrant | PkceFailed | PkceRequired | InvalidScope
  | UnsupportedGrant | ServerError | Abandoned

  datatype Source = FromCode(id: string) | FromRefresh(id: string)

  /** What issueTokensWithRotation is given: the real or the synthetic auth code. */
  datatype Grant = Grant(
    client: Client, user: UserId, session: Option<SessionId>, scopes: seq<string>,
    acr: string, authTime: Time, source: Source)

  datatype IdToken = IdToken(user: UserId, client: string, acr: string, authTime: Time)

  datatype Tokens = Tokens(
    access: string, refresh: Option<string>, idToken: Option<IdToken>, scopes: seq<string>)

  datatype Result = Ok(tokens: Tokens) | Err(error: Error)

  datatype Call =
    | ExchangeStart(client: Client, code: string, redirect: string, verifier: string)
    | ExchangeConsumed(client: Client, code: string, redirect: string, verifier: string, row: Code)
    | RefreshStart(client: Client, token: string, wanted: seq<string>)
    | RefreshRead(client: Client, token: string, wanted: seq<string>, found: Refresh)
    | RefreshRotate(client: Client, token: string, wanted: seq<string>, found: Refresh)
    | IssueAccess(grant: Grant)
    | IssueRefresh(grant: Grant, at: Time, accessId: string)
    | Mint(grant: Grant, accessId: string, refreshId: Option<string>)
    | Done(result: Result)

  /** One reading of everything outside the tables: the clock, the random id and
      whether GetUserByID finds a live user. */
  datatype Env = Env(now: Time, newId: string, userLive: bool)

  /** SHA-256 taken as an ideal, injective commitment. */
  function S256(verifier: string): string { "S256:" + verifier }

  predicate VerifyPkce(verifier: string, challenge: string) {
    verifier != "" && challenge != "" && S256(verifier) == challenge
  }

  /** Argon2 taken as ideal: a secret verifies iff it is the stored one. */
  predicate Authenticates(client: Client, secret: string) {
    client.isPublic || client.secret == Some(secret)
  }

  /** The checks ExchangeCode makes on the row it has just consumed, in order. */
  function ExchangeError(client: Client, redirect: string, verifier: string, row: Code): Option<Error> {
    if row.client != client.id then Some(InvalidGrant)
    else if row.redirect != redirect then Some(InvalidGrant)
    else if row.challenge.Some? then
      if VerifyPkce(verifier, row.challenge.value) then None else Some(PkceFailed)
    else if client.requirePkce || client.isPublic then Some(PkceRequired)
    else None
  }

  function RefreshError(client: Client, wanted: seq<string>, row: Refresh): Option<Error> {
    if row.client != client.id then Some(InvalidGrant)
    else if exists s :: s in wanted && s !in row.scopes then Some(InvalidScope)
    else None
  }

  function GrantOfCode(client: Client, id: string, row: Code): Grant {
    Grant(client, row.user, Some(row.session), row.scopes, row.acr, row.authTime, FromCode(id))
  }

  /** The synthetic code of a refresh: acr falls back to "0", auth_time to the old token's birth. */
  function GrantOfRefresh(client: Client, id: string, wanted: seq<string>, row: Refresh): Grant {
    Grant(client, row.user, row.session, if wanted == [] then row.scopes else wanted,
          "0", row.createdAt, FromRefresh(id))
  }

  predicate WantsRefresh(g: Grant) {
    "offline_access" in g.scopes && "refresh_token" in g.client.grants
  }

  function AccessRow(g: Grant, now: Time): Access {
    Access(g.client.id, Some(g.user), g.session, g.scopes, now + g.client.accessTtl, None, now)
  }

  function RefreshRow(g: Grant, at: Time, now: Time): Refresh {
    Refresh(g.client.id, g.user, g.session, g.scopes,
            if g.source.FromRefresh? then Some(g.source.id) else None,
            at + g.client.refreshTtl, None, None, now)
  }

  function IdTokenOf(g: Grant): Option<IdToken> {
    if "openid" in g.scopes then Some(IdToken(g.user, g.client.id, g.acr, g.authTime)) else None
  }

  function Step(db: Db, call: Call, env: Env): (Db, Call) {
    match call
    case ExchangeStart(client, code, redirect, verifier) =>
      var (db', r) := ConsumeCode(db, code, env.now);
      (db', if r.None? then Done(Err(InvalidGrant))
            else ExchangeConsumed(client, code, redirect, verifier, r.value))
    case ExchangeConsumed(client, code, redirect, verifier, row) =>
      var e := ExchangeError(client, redirect, verifier, row);
      (db, if e.Some? then Done(Err(e.value))
           else if !env.userLive then Done(Err(ServerError))
           else IssueAccess(GrantOfCode(client, code, row)))
    case RefreshStart(client, token, wanted) =>
      if "refresh_token" !in client.grants then (db, Done(Err(UnsupportedGrant)))
      else
        var r := GetRefresh(db, token, env.now);
        (db, if r.None? then Done(Err(InvalidGrant)) else RefreshRead(client, token, wanted, r.value))
    case RefreshRead(client, token, wanted, row) =>
      var e := RefreshError(client, wanted, row);
      (db, if e.Some? then Done(Err(e.value))
           else if !env.userLive then Done(Err(ServerError))
           else RefreshRotate(client, token, wanted, row))
    case RefreshRotate(client, token, wanted, row) =>
      var (db', ok) := RotateRefresh(db, token, env.now);
      (db', if ok then IssueAccess(GrantOfRefresh(client, token, wanted, row))
            else Done(Err(ServerError)))
    case IssueAccess(g) =>
      var (db', ok) := InsertAccess(db, env.newId, AccessRow(g, env.now));
      (db', if !ok then Done(Err(ServerError))
            else if WantsRefresh(g) then IssueRefresh(g, env.now, env.newId)
            else Mint(g, env.newId, None))
    case IssueRefresh(g, at, accessId) =>
      var (db', ok) := InsertRefresh(db, env.newId, RefreshRow(g, at, env.now));
      (db', if ok then Mint(g, accessId, Some(env.newId)) else Done(Err(ServerError)))
    case Mint(g, accessId, refreshId) =>
      (db, Done(Ok(Tokens(accessId, refreshId, IdTokenOf(g), g.scopes))))
    case Done(_) => (db, call)
  }

  /** A call that runs with nobody else between its steps, from reading `i` on. */
  function Solo(db: Db, call: Call, envs: seq<Env>, i: nat): (Db, Call)
    requires i <= |envs|
    decreases |envs| - i
  {
    if i == |envs| then (db, call)
    else var (db', call') := Step(db, call, envs[i]); Solo(db', call', envs, i + 1)
  }

  lemma {:induction false} SoloDone(db: Db, r: Result, envs: seq<Env>, i: nat)
    requires i <= |envs|
    ensures Solo(db, Done(r), envs, i) == (db, Done(r))
    decreases |envs| - i
  {
    if i < |envs| { SoloDone(db, r, envs, i + 1); }
  }

  // ----- what a lone call answers, in the fields of the rows -----

  /** PKCE (section 4.6 of RFC 7636): the verifier hashes to the challenge, and there may be none only for a
      confidential client that does not require one. */
  predicate PkceFits(client: Client, verifier: string, challenge: Option<string>) {
    match challenge
    case Some(hash) => verifier != "" && S256(verifier) == hash
    case None => !client.requirePkce && !client.isPublic
  }

  predicate LiveCode(db: Db, code: string, now: Time) {
    code in db.codes && db.codes[code].consumedAt == None && now < db.codes[code].expiresAt
  }

  /** The code is there and unused and in time, and was made for this client and this redirect. */
  predicate OwnCode(db: Db, client: Client, code: string, redirect: string, now: Time) {
    LiveCode(db, code, now) && db.codes[code].client == client.id && db.codes[code].redirect == redirect
  }

  predicate Offline(client: Client, scopes: seq<string>) {
    "offline_access" in scopes && "refresh_token" in client.grants
  }

  /** The two inserts find the session row, and their ids are new. */
  predicate Room(db: Db, client: Client, session: Option<SessionId>, scopes: seq<string>, at: Env, rt: Env) {
    && (session.Some? ==> session.value in db.sessions)
    && at.newId !in db.access && (Offline(client, scopes) ==> rt.newId !in db.refresh)
  }

  /** A token set as it is answered and as it stands in the tables: one access token, a refresh token for offline
      access, an id_token for openid. */
  ghost predicate IssuedSet(db: Db, client: Client, user: UserId, session: Option<SessionId>, scopes: seq<string>,
                            previous: Option<string>, acr: string, authTime: Time, at: Env, rt: Env,
                            db': Db, tokens: Tokens)
  {
    && db'.codes == db.codes && db'.sessions == db.sessions
    && db'.access == db.access[at.newId := Access(client.id, Some(user), session, scopes, at.now + client.accessTtl,
                                                  None, at.now)]
    && tokens.access == at.newId && tokens.scopes == scopes
    && (if Offline(client, scopes) then
          && tokens.refresh == Some(rt.newId)
          && db'.refresh == db.refresh[rt.newId := Refresh(client.id, user, session, scopes, previous,
                                                           at.now + client.refreshTtl, None, None, rt.now)]
        else tokens.refresh == None && db'.refresh == db.refresh)
    && tokens.idToken == if "openid" in scopes then Some(IdToken(user, client.id, acr, authTime)) else None
  }

  lemma LoneIssue(db: Db, g: Grant, envs: seq<Env>, i: nat)
    requires i + 3 == |envs|
    ensures var (db', call) := Solo(db, IssueAccess(g), envs, i);
            && call.Done?
            && (call.result.Ok? <==> Room(db, g.client, g.session, g.scopes, envs[i], envs[i + 1]))
            && (call.result.Ok? ==>
                  IssuedSet(db, g.client, g.user, g.session, g.scopes,
                            if g.source.FromRefresh? then Some(g.source.id) else None, g.acr, g.authTime,
                            envs[i], envs[i + 1], db', call.result.tokens))
            && (call.result.Err? ==> call.result.error == ServerError && db'.refresh == db.refresh)
            && db'.codes == db.codes && db'.sessions == db.sessions
  {
    var s1 := Step(db, IssueAccess(g), envs[i]);
    var s2 := Step(s1.0, s1.1, envs[i + 1]);
    var s3 := Step(s2.0, s2.1, envs[i + 2]);
    assert Solo(db, IssueAccess(g), envs, i) == Solo(s1.0, s1.1, envs, i + 1) == Solo(s2.0, s2.1, envs, i + 2)
           == Solo(s3.0, s3.1, envs, i + 3) == s3;
    hide Solo;
  }

  /** What an exchange with nobody in between answers, and when. */
  ghost predicate ExchangeOutcome(db: Db, client: Client, code: string, redirect: string, verifier: string,
                                  envs: seq<Env>, db': Db, r: Result)
    requires |envs| == 5
  {
    var now := envs[0].now;
    var own := OwnCode(db, client, code, redirect, now);
    && (r == Err(InvalidGrant) <==> !own)
    && (r == Err(PkceFailed) <==>
          own && db.codes[code].challenge.Some? && !PkceFits(client, verifier, db.codes[code].challenge))
    && (r == Err(PkceRequired) <==>
          own && db.codes[code].challenge.None? && (client.requirePkce || client.isPublic))
    && (r.Ok? <==>
          && own && PkceFits(client, verifier, db.codes[code].challenge) && envs[1].userLive
          && Room(db, client, Some(db.codes[code].session), db.codes[code].scopes, envs[2], envs[3]))
    && (r.Err? ==> r.error in {InvalidGrant, PkceFailed, PkceRequired, ServerError} && db'.refresh == db.refresh)
    && db'.sessions == db.sessions
    && db'.codes == (if LiveCode(db, code, now) then db.codes[code := db.codes[code].(consumedAt := Some(now))]
                     else db.codes)
    && (r.Ok? ==>
          var row := db.codes[code];
          IssuedSet(db.(codes := db'.codes), client, row.user, Some(row.session), row.scopes, None, row.acr,
                    row.authTime, envs[2], envs[3], db', r.tokens))
  }

  /** Main result on the exchange: exactly which code, redirect and verifier are answered with tokens, which error every
      other presentation gets, and what the token set then is. */
  lemma LoneExchange(db: Db, client: Client, code: string, redirect: string, verifier: string, envs: seq<Env>)
    requires |envs| == 5
    ensures var (db', call) := Solo(db, ExchangeStart(client, code, redirect, verifier), envs, 0);
            call.Done? && ExchangeOutcome(db, client, code, redirect, verifier, envs, db', call.result)
  {
    hide IssuedSet, Room;
    var start := ExchangeStart(client, code, redirect, verifier);
    var s1 := Step(db, start, envs[0]);
    var s2 := Step(s1.0, s1.1, envs[1]);
    assert Solo(db, start, envs, 0) == Solo(s1.0, s1.1, envs, 1) == Solo(s2.0, s2.1, envs, 2);
    hide Solo;
    if s2.1.Done? {
      SoloDone(s2.0, s2.1.result, envs, 2);
    } else {
      LoneIssue(s2.0, s2.1.grant, envs, 2);
      RoomAlike(db, s2.0, client, s2.1.grant.session, s2.1.grant.scopes, envs[2], envs[3]);
      assert s2.0 == db.(codes := s2.0.codes);
    }
  }

  lemma RoomAlike(db: Db, db': Db, client: Client, session: Option<SessionId>, scopes: seq<string>, at: Env, rt: Env)
    requires db'.access == db.access && db'.refresh.Keys == db.refresh.Keys && db'.sessions == db.sessions
    ensures Room(db', client, session, scopes, at, rt) == Room(db, client, session, scopes, at, rt)
  {}

  predicate LiveRefresh(db: Db, token: string, now: Time) {
    token in db.refresh && db.refresh[token].rotatedAt == None && db.refresh[token].revokedAt == None
    && now < db.refresh[token].expiresAt
  }

  /** The scopes of the old token when none are asked for, else just those asked for. */
  function Granted(wanted: seq<string>, scopes: seq<string>): seq<string> { if |wanted| == 0 then scopes else wanted }

  /** What a refresh with nobody in between answers, and when. */
  ghost predicate RefreshOutcome(db: Db, client: Client, token: string, wanted: seq<string>, envs: seq<Env>,
                                 db': Db, r: Result)
    requires |envs| == 6
  {
    var supported := "refresh_token" in client.grants;
    var own := LiveRefresh(db, token, envs[0].now) && db.refresh[token].client == client.id;
    var narrow := own && forall i :: 0 <= i < |wanted| ==> wanted[i] in db.refresh[token].scopes;
    && (r == Err(UnsupportedGrant) <==> !supported)
    && (r == Err(InvalidGrant) <==> supported && !own)
    && (r == Err(InvalidScope) <==> supported && own && !narrow)
    && (r.Err? ==> r.error in {UnsupportedGrant, InvalidGrant, InvalidScope, ServerError})
    && (!(supported && narrow && envs[1].userLive) ==> r.Err? && db' == db)
    && db'.codes == db.codes && db'.sessions == db.sessions
    && (supported && narrow && envs[1].userLive ==>
          var row := db.refresh[token];
          var scopes, rotated := Granted(wanted, row.scopes), db.refresh[token := row.(rotatedAt := Some(envs[2].now))];
          && (r.Ok? <==> Room(db, client, row.session, scopes, envs[3], envs[4]))
          && (r.Err? ==> r.error == ServerError && db'.refresh == rotated)
          && (r.Ok? ==>
                IssuedSet(db.(refresh := rotated), client, row.user, row.session, scopes, Some(token), "0",
                          row.createdAt, envs[3], envs[4], db', r.tokens)))
  }

  predicate NarrowRefresh(db: Db, client: Client, token: string, wanted: seq<string>, now: Time) {
    && "refresh_token" in client.grants && LiveRefresh(db, token, now) && db.refresh[token].client == client.id
    && forall i :: 0 <= i < |wanted| ==> wanted[i] in db.refresh[token].scopes
  }

  /** The error of a refresh that does not come to the rotation. */
  function RefreshRefusal(db: Db, client: Client, token: string, wanted: seq<string>, now: Time): Error {
    if "refresh_token" !in client.grants then UnsupportedGrant
    else if !LiveRefresh(db, token, now) || db.refresh[token].client != client.id then InvalidGrant
    else if !NarrowRefresh(db, client, token, wanted, now) then InvalidScope
    else ServerError
  }

  /** The read and the checks. */
  lemma RefreshChecked(db: Db, client: Client, token: string, wanted: seq<string>, read: Env, user: Env)
    ensures var (db', call) := Step(db, RefreshStart(client, token, wanted), read);
            Step(db', call, user) ==
              (db, if NarrowRefresh(db, client, token, wanted, read.now) && user.userLive then
                     RefreshRotate(client, token, wanted, db.refresh[token])
                   else Done(Err(RefreshRefusal(db, client, token, wanted, read.now))))
  {
    if token in db.refresh {
      var scopes := db.refresh[token].scopes;
      assert (exists x :: x in wanted && x !in scopes) <==> exists i :: 0 <= i < |wanted| && wanted[i] !in scopes;
    }
  }

  /** The read, the checks and the rotation. */
  lemma RefreshFront(db: Db, client: Client, token: string, wanted: seq<string>, envs: seq<Env>)
    requires |envs| == 6
    ensures var (db', call) := Solo(db, RefreshStart(client, token, wanted), envs, 0);
            if NarrowRefresh(db, client, token, wanted, envs[0].now) && envs[1].userLive then
              var row := db.refresh[token];
              (db', call) == Solo(db.(refresh := db.refresh[token := row.(rotatedAt := Some(envs[2].now))]),
                                  IssueAccess(Grant(client, row.user, row.session, Granted(wanted, row.scopes), "0",
                                                    row.createdAt, FromRefresh(token))), envs, 3)
            else
              db' == db && call == Done(Err(RefreshRefusal(db, client, token, wanted, envs[0].now)))
  {
    hide RefreshRefusal;
    var start := RefreshStart(client, token, wanted);
    RefreshChecked(db, client, token, wanted, envs[0], envs[1]);
    var (db1, call1) := Step(db, start, envs[0]);
    var (db2, call2) := Step(db1, call1, envs[1]);
    assert Solo(db, start, envs, 0) == Solo(db1, call1, envs, 1) == Solo(db2, call2, envs, 2) by { hide Step; }
    if call2.Done? {
      SoloDone(db2, call2.result, envs, 2);
    } else {
      var (db3, call3) := Step(db2, call2, envs[2]);
      assert Solo(db2, call2, envs, 2) == Solo(db3, call3, envs, 3) by { hide Step; }
    }
  }

  /** Main result on the refresh: which token is taken, which error else, that it is rotated before anything is issued,
      and that the new set has the old scopes or just those asked for. */
  lemma LoneRefresh(db: Db, client: Client, token: string, wanted: seq<string>, envs: seq<Env>)
    requires |envs| == 6
    ensures var (db', call) := Solo(db, RefreshStart(client, token, wanted), envs, 0);
            call.Done? && RefreshOutcome(db, client, token, wanted, envs, db', call.result)
  {
    hide IssuedSet, Room, Solo;
    RefreshFront(db, client, token, wanted, envs);
    if NarrowRefresh(db, client, token, wanted, envs[0].now) && envs[1].userLive {
      var row := db.refresh[token];
      var scopes := Granted(wanted, row.scopes);
      var g := Grant(client, row.user, row.session, scopes, "0", row.createdAt, FromRefresh(token));
      var v := db.(refresh := db.refresh[token := row.(rotatedAt := Some(envs[2].now))]);
      LoneIssue(v, g, envs, 3);
      RoomAlike(db, v, client, g.session, g.scopes, envs[3], envs[4]);
      hide Granted;
    }
  }

  class Service {
    const store: Store

    constructor (store: Store)
      ensures this.store == store
    {
      this.store := store;
    }

    /** `found` is the client row GetOIDCClient returned; `envs` the outside readings. */
    method ExchangeCode(found: Option<Client>, secret: string, code: string, redirect: string,
                        verifier: string, envs: seq<Env>)
      returns (r: Result)
      requires |envs| == 5
      modifies store
      ensures r == Err(InvalidClient) <==>
                found.None? || (!found.value.isPublic && found.value.secret != Some(secret))
      ensures found.None? || !Authenticates(found.value, secret) ==>
                r == Err(InvalidClient) && store.State() == old(store.State())
      ensures found.Some? && Authenticates(found.value, secret) ==>
                (store.State(), Done(r))
                == Solo(old(store.State()), ExchangeStart(found.value, code, redirect, verifier), envs, 0)
      ensures found.Some? && Authenticates(found.value, secret) ==>
                ExchangeOutcome(old(store.State()), found.value, code, redirect, verifier, envs, store.State(), r)
    {
      if found.None? || !Authenticates(found.value, secret) { return Err(InvalidClient); }
      var client := found.value;
      LoneExchange(store.State(), client, code, redirect, verifier, envs);
      ghost var db0 := store.State();
      ghost var start := ExchangeStart(client, code, redirect, verifier);
      var consumed := store.ConsumeOIDCAuthCode(code, envs[0].now);
      ghost var s1 := Step(db0, start, envs[0]);
      assert Solo(db0, start, envs, 0) == Solo(s1.0, s1.1, envs, 1);
      if consumed.None? {
        SoloDone(s1.0, Err(InvalidGrant), envs, 1);
        return Err(InvalidGrant);
      }
      var row := consumed.value;
      ghost var s2 := Step(s1.0, s1.1, envs[1]);
      assert Solo(s1.0, s1.1, envs, 1) == Solo(s2.0, s2.1, envs, 2);
      if row.client != client.id || row.redirect != redirect {
        SoloDone(s2.0, Err(InvalidGrant), envs, 2);
        return Err(InvalidGrant);
      }
      if row.challenge.Some? {
        if !VerifyPkce(verifier, row.challenge.value) {
          SoloDone(s2.0, Err(PkceFailed), envs, 2);
          return Err(PkceFailed);
        }
      } else if client.requirePkce || client.isPublic {
        SoloDone(s2.0, Err(PkceRequired), envs, 2);
        return Err(PkceRequired);
      }
      if !envs[1].userLive {
        SoloDone(s2.0, Err(ServerError), envs, 2);
        return Err(ServerError);
      }
      r := IssueTokensWithRotation(GrantOfCode(client, code, row), envs, 2);
    }

    method RefreshTokens(found: Option<Client>, secret: string, token: string, wanted: seq<string>,
                         envs: seq<Env>)
      returns (r: Result)
      requires |envs| == 6
      modifies store
      ensures r == Err(InvalidClient) <==>
                found.None? || (!found.value.isPublic && found.value.secret != Some(secret))
      ensures found.None? || !Authenticates(found.value, secret) ==>
                r == Err(InvalidClient) && store.State() == old(store.State())
      ensures found.Some? && Authenticates(found.value, secret) ==>
                (store.State(), Done(r))
                == Solo(old(store.State()), RefreshStart(found.value, token, wanted), envs, 0)
      ensures found.Some? && Authenticates(found.value, secret) ==>
                RefreshOutcome(old(store.State()), found.value, token, wanted, envs, store.State(), r)
    {
      if found.None? || !Authenticates(found.value, secret) { return Err(InvalidClient); }
      var client := found.value;
      LoneRefresh(store.State(), client, token, wanted, envs);
      ghost var db := store.State();
      ghost var start := RefreshStart(client, token, wanted);
      ghost var s1 := Step(db, start, envs[0]);
      assert Solo(db, start, envs, 0) == Solo(s1.0, s1.1, envs, 1);
      if "refresh_token" !in client.grants {
        SoloDone(db, Err(UnsupportedGrant), envs, 1);
        return Err(UnsupportedGrant);
      }
      var found' := store.GetOIDCRefreshToken(token, envs[0].now);
      if found'.None? {
        SoloDone(db, Err(InvalidGrant), envs, 1);
        return Err(InvalidGrant);
      }
      var row := found'.value;
      ghost var s2 := Step(s1.0, s1.1, envs[1]);
      assert Solo(s1.0, s1.1, envs, 1) == Solo(s2.0, s2.1, envs, 2);
      if row.client != client.id {
        SoloDone(db, Err(InvalidGrant), envs, 2);
        return Err(InvalidGrant);
      }
      var i := 0;
      while i < |wanted|
        invariant 0 <= i <= |wanted|
        invariant forall k :: 0 <= k < i ==> wanted[k] in row.scopes
      {
        if wanted[i] !in row.scopes {
          SoloDone(db, Err(InvalidScope), envs, 2);
          return Err(InvalidScope);
        }
        i := i + 1;
      }
      if !envs[1].userLive {
        SoloDone(db, Err(ServerError), envs, 2);
        return Err(ServerError);
      }
      var rotated := store.RotateOIDCRefreshToken(token, envs[2].now);
      ghost var s3 := Step(s2.0, s2.1, envs[2]);
      assert Solo(s2.0, s2.1, envs, 2) == Solo(s3.0, s3.1, envs, 3);
      if !rotated {
        return Err(ServerError);  // only another caller between the read and this update gets here
      }
      r := IssueTokensWithRotation(GrantOfRefresh(client, token, wanted, row), envs, 3);
    }

    method IssueTokensWithRotation(g: Grant, envs: seq<Env>, ghost i: nat) returns (r: Result)
      requires i + 3 == |envs|
      modifies store
      ensures (store.State(), Done(r)) == Solo(old(store.State()), IssueAccess(g), envs, i)
    {
      var n := |envs|;
      ghost var db := store.State();
      ghost var s1 := Step(db, IssueAccess(g), envs[n - 3]);
      assert Solo(db, IssueAccess(g), envs, i) == Solo(s1.0, s1.1, envs, i + 1);
      var now := envs[n - 3].now;
      var accessId := envs[n - 3].newId;
      var ok := store.CreateOIDCAccessToken(accessId, AccessRow(g, now));
      if !ok {
        SoloDone(s1.0, Err(ServerError), envs, i + 1);
        return Err(ServerError);
      }
      ghost var s2 := Step(s1.0, s1.1, envs[n - 2]);
      ghost var s3 := Step(s2.0, s2.1, envs[n - 1]);
      assert Solo(s1.0, s1.1, envs, i + 1) == Solo(s2.0, s2.1, envs, i + 2) == Solo(s3.0, s3.1, envs, i + 3);
      var refreshId := None;
      if WantsRefresh(g) {
        var inserted := store.CreateOIDCRefreshToken(envs[n - 2].newId, RefreshRow(g, now, envs[n - 2].now));
        if !inserted { return Err(ServerError); }
        refreshId := Some(envs[n - 2].newId);
      }
      r := Ok(Tokens(accessId, refreshId, IdTokenOf(g), g.scopes));
    }

    /** With no hint or the access_token hint the access-table update ends the call,
        whether or not a row matched; every other hint reaches the refresh table. */
    method Revoke(token: string, hint: string, now: Time)
      modifies store
      ensures store.State() ==
              if hint == "" || hint == "access_token" then RevokeAccess(old(store.State()), token, now)
              else RevokeRefresh(old(store.State()), token, now)
      ensures var was := old(store.State());
              && store.codes == was.codes && store.sessions == was.sessions
              && if hint == "" || hint == "access_token" then
                   && store.refresh == was.refresh
                   && store.access == (if token in was.access && was.access[token].revokedAt.None? then
                                         was.access[token := was.access[token].(revokedAt := Some(now))]
                                       else was.access)
                 else
                   && store.access == was.access
                   && store.refresh == (if token in was.refresh && was.refresh[token].revokedAt.None? then
                                          was.refresh[token := was.refresh[token].(revokedAt := Some(now))]
                                        else was.refresh)
    {
      if hint == "" || hint == "access_token" {
        store.RevokeOIDCAccessToken(token, now);
        return;
      }
      store.RevokeOIDCRefreshToken(token, now);
    }
  }

  datatype Answer = Inactive | ActiveAccess(row: Access) | ActiveRefresh(found: Refresh)

  /** Introspect at one instant: an access token that is present decides alone. */
  function Introspect(db: Db, token: string, hint: string, now: Time): Answer {
    var at := GetAccessAny(db, token);
    if (hint == "" || hint == "access_token") && at.Some? then
      if at.value.revokedAt.Some? || at.value.expiresAt < now then Inactive else ActiveAccess(at.value)
    else
      var rt := GetRefresh(db, token, now);
      if (hint == "" || hint == "refresh_token") && rt.Some? then ActiveRefresh(rt.value) else Inactive
  }

  /** The exact condition of every answer.  With no hint or the access_token hint an access row decides, revoked and
      expired ones included; a refresh token is looked for otherwise, and for no other hint than its own. */
  lemma IntrospectOutcome(db: Db, token: string, hint: string, now: Time)
    ensures var r := Introspect(db, token, hint, now);
            var decides := (hint == "" || hint == "access_token") && token in db.access;
            && (r.ActiveAccess? <==>
                  decides && db.access[token].revokedAt == None && now <= db.access[token].expiresAt)
            && (r.ActiveAccess? ==> r.row == db.access[token])
            && (r.ActiveRefresh? <==>
                  !decides && (hint == "" || hint == "refresh_token") && LiveRefresh(db, token, now))
            && (r.ActiveRefresh? ==> r.found == db.refresh[token])
  {}

  /** Introspection and the bearer check disagree at exactly one instant: the expiry. */
  lemma IntrospectVersusBearer(db: Db, token: string, now: Time)
    requires token in db.access
    ensures (Introspect(db, token, "access_token", now).ActiveAccess? != GetAccess(db, token, now).Some?)
            <==> (db.access[token].revokedAt.None? && db.access[token].expiresAt == now)
  {
    var row := db.access[token];
    assert GetAccess(db, token, now).Some? <==> row.revokedAt.None? && row.expiresAt > now;
  }

  /** A code presented with the wrong client, redirect or verifier is burnt: nothing is
      issued, and no later exchange by anyone can redeem it. */
  lemma {:induction false} MismatchBurns(db: Db, client: Client, code: string, redirect: string,
                                         verifier: string, envs: seq<Env>,
                                         client': Client, redirect': string, verifier': string, envs': seq<Env>)
    requires |envs| == |envs'| == 5
    requires code in db.codes && ExchangeError(client, redirect, verifier, db.codes[code]).Some?
    ensures var (db', call) := Solo(db, ExchangeStart(client, code, redirect, verifier), envs, 0);
            && call.Done? && call.result.Err?
            && db'.access == db.access && db'.refresh == db.refresh
            && (db.codes[code].expiresAt > envs[0].now ==>
                  Solo(db', ExchangeStart(client', code, redirect', verifier'), envs', 0)
                  == (db', Done(Err(InvalidGrant))))
  {
    var start := ExchangeStart(client, code, redirect, verifier);
    var s1 := Step(db, start, envs[0]);
    var s2 := Step(s1.0, s1.1, envs[1]);
    assert Solo(db, start, envs, 0) == Solo(s1.0, s1.1, envs, 1) == Solo(s2.0, s2.1, envs, 2);
    SoloDone(s2.0, s2.1.result, envs, 2);
    var start' := ExchangeStart(client', code, redirect', verifier');
    var t1 := Step(s2.0, start', envs'[0]);
    assert Solo(s2.0, start', envs', 0) == Solo(t1.0, t1.1, envs', 1);
    if db.codes[code].expiresAt > envs[0].now { SoloDone(t1.0, Err(InvalidGrant), envs', 1); }
  }

  /** Presenting a rotated refresh token again is refused and changes nothing: its descendants stay as they were. */
  lemma ReuseRevokesNothing(db: Db, client: Client, token: string, wanted: seq<string>, envs: seq<Env>)
    requires |envs| == 6 && token in db.refresh && db.refresh[token].rotatedAt.Some?
    ensures var (db', call) := Solo(db, RefreshStart(client, token, wanted), envs, 0);
            db' == db && (call == Done(Err(InvalidGrant)) || call == Done(Err(UnsupportedGrant)))
  {
    var start := RefreshStart(client, token, wanted);
    var s1 := Step(db, start, envs[0]);
    assert Solo(db, start, envs, 0) == Solo(s1.0, s1.1, envs, 1);
    SoloDone(s1.0, s1.1.result, envs, 1);
  }
}
