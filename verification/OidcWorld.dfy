/** Many token calls at once.  A run is any interleaving of single statements: steps of
    exchange and refresh calls, calls that die half-way, revocations, new sessions, and the
    cleanup sweep of all four tables, foreign-key effects included.  `History` remembers what the tables
    forget; nothing in the protocol reads it. */
module OidcWorld {
  import opened Common
  import opened OidcStore
  import opened OidcService

  type Tid = nat

  datatype Spend = Spend(source: Source, at: Time)
  datatype Minted = Minted(caller: Tid, row: Refresh, order: nat)
  datatype MintedAccess = MintedAccess(caller: Tid, row: Access)

  datatype History = History(
    codes: map<string, Code>,           // codes as issued
    begun: map<Tid, Call>,              // each call as it arrived
    started: map<Tid, Time>,
    spent: map<Tid, Spend>,             // the credential each call used up
    refresh: map<string, Minted>,       // refresh tokens as inserted
    access: map<string, MintedAccess>,  // user access tokens as inserted
    machine: set<string>,               // ids of client_credentials tokens
    idTokens: map<Tid, IdToken>,
    sessions: map<SessionId, Time>)     // sessions as created

  datatype World = World(db: Db, now: Time, calls: map<Tid, Call>, hist: History)

  datatype Event =
    | Tick(to: Time)
    | IssueCode(id: string, code: Code)
    | IssueMachineToken(id: string, access: Access)
    | Begin(tid: Tid, call: Call)
    | Advance(tid: Tid, env: Env)
    | Abandon(tid: Tid)
    | RevokeAccessToken(id: string)
    | RevokeRefreshToken(id: string)
    | RevokeSession(session: SessionId)
    | CreateSession(session: SessionId, expires: Time)
    | SweepCodeTable(cutoff: Time)
    | SweepAccessTable(cutoff: Time)
    | SweepRefreshTable(cutoff: Time)
    | SweepSessionTable(cutoff: Time)

  predicate Fresh(h: History, id: string) { id !in h.refresh && id !in h.access && id !in h.machine }

  /** Random ids never repeat, the clock never goes back, sweeps use now() - 1 hour or older. */
  predicate Enabled(w: World, ev: Event) {
    match ev
    case Tick(to) => w.now <= to
    case IssueCode(id, code) => id !in w.hist.codes && code.consumedAt.None?
    case IssueMachineToken(id, access) => Fresh(w.hist, id) && access.user.None? && access.session.None?
    case Begin(tid, call) => tid !in w.hist.begun && (call.ExchangeStart? || call.RefreshStart?)
    case Advance(tid, env) =>
      tid in w.calls && env.now == w.now && Fresh(w.hist, env.newId)
    case Abandon(tid) => tid in w.calls
    case SweepCodeTable(cutoff) => cutoff <= w.now - HOUR
    case SweepAccessTable(cutoff) => cutoff <= w.now - HOUR
    case SweepRefreshTable(cutoff) => cutoff <= w.now - HOUR
    case SweepSessionTable(cutoff) => cutoff <= w.now - HOUR
    case CreateSession(session, _) => session !in w.hist.sessions
    case _ => true
  }

  function Record(h: History, tid: Tid, call: Call, next: Call, env: Env): History {
    match call
    case ExchangeStart(_, code, _, _) =>
      if next.ExchangeConsumed? then h.(spent := h.spent[tid := Spend(FromCode(code), env.now)]) else h
    case RefreshRotate(_, token, _, _) =>
      if next.IssueAccess? then h.(spent := h.spent[tid := Spend(FromRefresh(token), env.now)]) else h
    case IssueAccess(g) =>
      if next.Done? then h
      else h.(access := h.access[env.newId := MintedAccess(tid, AccessRow(g, env.now))])
    case IssueRefresh(g, at, _) =>
      if next.Done? then h
      else h.(refresh := h.refresh[env.newId := Minted(tid, RefreshRow(g, at, env.now), |h.refresh|)])
    case Mint(g, _, _) =>
      if IdTokenOf(g).None? then h else h.(idTokens := h.idTokens[tid := IdTokenOf(g).value])
    case _ => h
  }

  function Apply(w: World, ev: Event): World
    requires Enabled(w, ev)
  {
    match ev
    case Tick(to) => w.(now := to)
    case IssueCode(id, code) =>
      var (db, ok) := InsertCode(w.db, id, code);
      if ok then w.(db := db, hist := w.hist.(codes := w.hist.codes[id := code])) else w
    case IssueMachineToken(id, access) =>
      w.(db := InsertAccess(w.db, id, access).0, hist := w.hist.(machine := w.hist.machine + {id}))
    case Begin(tid, call) =>
      w.(calls := w.calls[tid := call],
         hist := w.hist.(begun := w.hist.begun[tid := call], started := w.hist.started[tid := w.now]))
    case Advance(tid, env) =>
      var (db, next) := Step(w.db, w.calls[tid], env);
      World(db, w.now, w.calls[tid := next], Record(w.hist, tid, w.calls[tid], next, env))
    case Abandon(tid) => w.(calls := w.calls[tid := Done(Err(Abandoned))])
    case RevokeAccessToken(id) => w.(db := RevokeAccess(w.db, id, w.now))
    case RevokeRefreshToken(id) => w.(db := RevokeRefresh(w.db, id, w.now))
    case RevokeSession(session) => w.(db := RevokeRefreshOfSession(w.db, session, w.now))
    case CreateSession(session, expires) =>
      w.(db := InsertSession(w.db, session, expires).0,
         hist := w.hist.(sessions := w.hist.sessions[session := expires]))
    case SweepCodeTable(cutoff) => w.(db := SweepCodes(w.db, cutoff))
    case SweepAccessTable(cutoff) => w.(db := SweepAccess(w.db, cutoff))
    case SweepRefreshTable(cutoff) => w.(db := SweepRefresh(w.db, cutoff))
    case SweepSessionTable(cutoff) => w.(db := SweepSessions(w.db, cutoff))
  }

  predicate ValidRun(w: World, evs: seq<Event>)
    decreases |evs|
  {
    evs == [] || (Enabled(w, evs[0]) && ValidRun(Apply(w, evs[0]), evs[1..]))
  }

  function Run(w: World, evs: seq<Event>): World
    requires ValidRun(w, evs)
    decreases |evs|
  {
    if evs == [] then w else Run(Apply(w, evs[0]), evs[1..])
  }

  function Start(now: Time): World {
    World(Db(map[], map[], map[], map[]), now, map[],
          History(map[], map[], map[], map[], map[], map[], {}, map[], map[]))
  }

  // ----- what every run keeps -----

  ghost predicate SameCode(a: Code, issued: Code) { a == issued.(consumedAt := a.consumedAt) }

  /** A live row is the issued one up to rotation, revocation and a session set to NULL. */
  ghost predicate SameRefresh(a: Refresh, issued: Refresh) {
    && a == issued.(rotatedAt := a.rotatedAt, revokedAt := a.revokedAt, session := a.session)
    && (a.session == issued.session || a.session.None?)
  }

  ghost predicate SameAccess(a: Access, issued: Access) {
    && a == issued.(revokedAt := a.revokedAt, session := a.session)
    && (a.session == issued.session || a.session.None?)
  }

  ghost predicate HasSpent(c: Call) {
    !c.ExchangeStart? && !c.RefreshStart? && !c.RefreshRead? && !c.RefreshRotate?
  }

  ghost predicate Within(scopes: seq<string>, of: seq<string>) { forall s :: s in scopes ==> s in of }

  /** What a token minted by call t carries is what its one spent credential carries. */
  ghost predicate Carries(h: History, t: Tid, client: string, user: UserId,
                    session: Option<SessionId>, scopes: seq<string>) {
    && t in h.spent && t in h.begun
    && match h.spent[t].source
       case FromCode(c) =>
         && c in h.codes && h.begun[t].ExchangeStart? && h.begun[t].code == c
         && h.begun[t].client.id == client
         && ExchangeError(h.begun[t].client, h.begun[t].redirect, h.begun[t].verifier, h.codes[c]).None?
         && user == h.codes[c].user && session == Some(h.codes[c].session) && scopes == h.codes[c].scopes
       case FromRefresh(p) =>
         && p in h.refresh && h.begun[t].RefreshStart? && h.begun[t].token == p
         && h.begun[t].client.id == client == h.refresh[p].row.client
         && user == h.refresh[p].row.user
         && (session == h.refresh[p].row.session || session.None?)
         && scopes == Granted(h.begun[t].wanted, h.refresh[p].row.scopes)
         && Within(scopes, h.refresh[p].row.scopes)
  }

  ghost predicate AcrOk(h: History, t: Tid, user: UserId, acr: string, authTime: Time) {
    && t in h.spent
    && match h.spent[t].source
       case FromCode(c) =>
         c in h.codes && user == h.codes[c].user && acr == h.codes[c].acr && authTime == h.codes[c].authTime
       case FromRefresh(p) =>
         p in h.refresh && user == h.refresh[p].row.user && acr == "0" && authTime == h.refresh[p].row.createdAt
  }

  ghost predicate GrantOk(h: History, t: Tid, g: Grant) {
    && Carries(h, t, g.client.id, g.user, g.session, g.scopes) && AcrOk(h, t, g.user, g.acr, g.authTime)
    && h.spent[t].source == g.source
  }

  ghost predicate CallOk(h: History, t: Tid, call: Call) {
    && t in h.begun && t in h.started
    && match call
       case ExchangeStart(_, _, _, _) => h.begun[t] == call && t !in h.spent
       case RefreshStart(_, _, _) => h.begun[t] == call && t !in h.spent
       case ExchangeConsumed(client, code, redirect, verifier, row) =>
         && h.begun[t] == ExchangeStart(client, code, redirect, verifier)
         && t in h.spent && h.spent[t].source == FromCode(code)
         && code in h.codes && SameCode(row, h.codes[code])
       case RefreshRead(client, token, wanted, row) =>
         && h.begun[t] == RefreshStart(client, token, wanted) && t !in h.spent
         && token in h.refresh && SameRefresh(row, h.refresh[token].row)
         && row.expiresAt > h.started[t]
       case RefreshRotate(client, token, wanted, row) =>
         && h.begun[t] == RefreshStart(client, token, wanted) && t !in h.spent
         && token in h.refresh && SameRefresh(row, h.refresh[token].row)
         && row.expiresAt > h.started[t] && RefreshError(client, wanted, row).None?
       case IssueAccess(g) => GrantOk(h, t, g)
       case IssueRefresh(g, _, _) => GrantOk(h, t, g)
       case Mint(g, _, _) => GrantOk(h, t, g)
       case Done(_) => true
  }

  ghost predicate CallAt(w: World, t: Tid) {
    t in w.calls && CallOk(w.hist, t, w.calls[t]) && w.hist.started[t] <= w.now
  }

  /** Whatever the tables hold under an id is what was once issued under it. */
  ghost predicate RowsAt(db: Db, h: History, id: string) {
    && (id in db.codes ==> id in h.codes && SameCode(db.codes[id], h.codes[id]))
    && (id in db.refresh ==> id in h.refresh && SameRefresh(db.refresh[id], h.refresh[id].row))
    && (id in db.access ==>
          if db.access[id].user.Some? then id in h.access && SameAccess(db.access[id], h.access[id].row)
          else id in h.machine)
  }

  ghost predicate SpendOk(db: Db, h: History, source: Source, at: Time) {
    match source
    case FromCode(c) => c in h.codes && at < h.codes[c].expiresAt && (c in db.codes ==> db.codes[c].consumedAt.Some?)
    case FromRefresh(p) => p in h.refresh && (p in db.refresh ==> db.refresh[p].rotatedAt.Some?)
  }

  ghost predicate SpentAt(w: World, t: Tid) {
    && t in w.hist.spent && t in w.calls && HasSpent(w.calls[t])
    && SpendOk(w.db, w.hist, w.hist.spent[t].source, w.hist.spent[t].at)
  }

  /** No credential is used up by two calls. */
  ghost predicate SpentOnce(h: History) {
    forall t, t' :: t in h.spent && t' in h.spent && h.spent[t].source == h.spent[t'].source ==> t == t'
  }

  ghost predicate MintedOk(h: History, m: Minted) {
    && Carries(h, m.caller, m.row.client, m.row.user, m.row.session, m.row.scopes)
    && match h.spent[m.caller].source
       case FromCode(_) => m.row.previous.None?
       case FromRefresh(p) => m.row.previous == Some(p) && h.refresh[p].order < m.order
  }

  ghost predicate Minting(c: Call) { c.Mint? || c.Done? }

  ghost predicate MintAt(w: World, x: string) {
    && x in w.hist.refresh && MintedOk(w.hist, w.hist.refresh[x])
    && w.hist.refresh[x].order < |w.hist.refresh|
    && w.hist.refresh[x].caller in w.calls && Minting(w.calls[w.hist.refresh[x].caller])
  }

  /** No call inserts two refresh tokens. */
  ghost predicate MintOnce(h: History) {
    forall x, y :: x in h.refresh && y in h.refresh && h.refresh[x].caller == h.refresh[y].caller ==> x == y
  }

  ghost predicate PastAccess(c: Call) { c.IssueRefresh? || c.Mint? || c.Done? }

  ghost predicate AccessOk(h: History, m: MintedAccess) {
    m.row.user.Some? && Carries(h, m.caller, m.row.client, m.row.user.value, m.row.session, m.row.scopes)
  }

  ghost predicate AccessAt(w: World, x: string) {
    && x in w.hist.access && AccessOk(w.hist, w.hist.access[x])
    && w.hist.access[x].caller in w.calls && PastAccess(w.calls[w.hist.access[x].caller])
  }

  /** No call inserts two access tokens. */
  ghost predicate AccessOnce(h: History) {
    forall x, y :: x in h.access && y in h.access && h.access[x].caller == h.access[y].caller ==> x == y
  }

  ghost predicate IdTokenAt(h: History, t: Tid) {
    t in h.idTokens && AcrOk(h, t, h.idTokens[t].user, h.idTokens[t].acr, h.idTokens[t].authTime)
  }

  ghost predicate Inv(w: World) {
    && w.calls.Keys == w.hist.begun.Keys == w.hist.started.Keys
    && (forall t {:trigger CallAt(w, t)} :: t in w.calls ==> CallAt(w, t))
    && (forall id {:trigger RowsAt(w.db, w.hist, id)} :: RowsAt(w.db, w.hist, id))
    && SpentOnce(w.hist)
    && (forall t {:trigger SpentAt(w, t)} :: t in w.hist.spent ==> SpentAt(w, t))
    && MintOnce(w.hist)
    && (forall x {:trigger MintAt(w, x)} :: x in w.hist.refresh ==> MintAt(w, x))
    && AccessOnce(w.hist)
    && (forall x {:trigger AccessAt(w, x)} :: x in w.hist.access ==> AccessAt(w, x))
    && (forall t {:trigger IdTokenAt(w.hist, t)} :: t in w.hist.idTokens ==> IdTokenAt(w.hist, t))
    && w.db.sessions.Keys <= w.hist.sessions.Keys
  }

  // ----- preservation -----

  ghost predicate Extends(h: History, h': History) {
    && (forall k :: k in h.codes ==> k in h'.codes && h'.codes[k] == h.codes[k])
    && (forall k :: k in h.begun ==> k in h'.begun && h'.begun[k] == h.begun[k])
    && (forall k :: k in h.started ==> k in h'.started && h'.started[k] == h.started[k])
    && (forall k :: k in h.spent ==> k in h'.spent && h'.spent[k] == h.spent[k])
    && (forall k :: k in h.refresh ==> k in h'.refresh && h'.refresh[k] == h.refresh[k])
    && |h.refresh| <= |h'.refresh|
    && (forall k :: k in h.access ==> k in h'.access && h'.access[k] == h.access[k])
  }

  ghost predicate DbEvolves(h: History, db: Db, db': Db) {
    && (forall id :: id in db'.codes && id in h.codes ==>
          id in db.codes && (db.codes[id].consumedAt.Some? ==> db'.codes[id].consumedAt.Some?))
    && (forall id :: id in db'.refresh && id in h.refresh ==>
          id in db.refresh && (db.refresh[id].rotatedAt.Some? ==> db'.refresh[id].rotatedAt.Some?))
  }

  ghost predicate CallsEvolve(calls: map<Tid, Call>, calls': map<Tid, Call>) {
    forall t :: t in calls ==>
      && t in calls'
      && (HasSpent(calls[t]) ==> HasSpent(calls'[t]))
      && (Minting(calls[t]) ==> Minting(calls'[t]))
      && (PastAccess(calls[t]) ==> PastAccess(calls'[t]))
  }

  /** The past is never rewritten and nothing spent is ever un-spent. */
  ghost predicate Evolves(w: World, w': World) {
    && Extends(w.hist, w'.hist) && w.now <= w'.now
    && DbEvolves(w.hist, w.db, w'.db) && CallsEvolve(w.calls, w'.calls)
  }

  lemma CallStays(w: World, w': World, t: Tid)
    requires CallAt(w, t) && Evolves(w, w') && t in w'.calls && w'.calls[t] == w.calls[t]
    requires t in w'.hist.spent ==> t in w.hist.spent
    ensures CallAt(w', t)
  {}

  lemma SpentStays(w: World, w': World, t: Tid)
    requires SpentAt(w, t) && Evolves(w, w')
    ensures SpentAt(w', t)
  {}

  lemma CarriesStays(h: History, h': History, t: Tid, client: string, user: UserId,
                     session: Option<SessionId>, scopes: seq<string>)
    requires Extends(h, h') && Carries(h, t, client, user, session, scopes)
    ensures Carries(h', t, client, user, session, scopes)
  {}

  lemma MintStays(w: World, w': World, x: string)
    requires MintAt(w, x) && Evolves(w, w')
    ensures MintAt(w', x)
  {
    var m := w.hist.refresh[x];
    CarriesStays(w.hist, w'.hist, m.caller, m.row.client, m.row.user, m.row.session, m.row.scopes);
  }

  lemma AccessStays(w: World, w': World, x: string)
    requires AccessAt(w, x) && Evolves(w, w')
    ensures AccessAt(w', x)
  {
    var m := w.hist.access[x];
    CarriesStays(w.hist, w'.hist, m.caller, m.row.client, m.row.user.value, m.row.session, m.row.scopes);
  }

  /** What a step adds to the history is lawful on its own. */
  ghost predicate NewOk(w: World, w': World) {
    && SpentOnce(w'.hist) && MintOnce(w'.hist) && AccessOnce(w'.hist)
    && (forall t {:trigger SpentAt(w', t)} :: t in w'.hist.spent && t !in w.hist.spent ==> SpentAt(w', t))
    && (forall x {:trigger MintAt(w', x)} :: x in w'.hist.refresh && x !in w.hist.refresh ==> MintAt(w', x))
    && (forall x {:trigger AccessAt(w', x)} :: x in w'.hist.access && x !in w.hist.access ==> AccessAt(w', x))
    && (forall t {:trigger IdTokenAt(w'.hist, t)} :: t in w'.hist.idTokens ==>
          (t in w.hist.idTokens && w'.hist.idTokens[t] == w.hist.idTokens[t]) || IdTokenAt(w'.hist, t))
  }

  /** Only the calls in `moved` changed phase or spent anything. */
  ghost predicate OthersStill(w: World, w': World, moved: set<Tid>) {
    && w'.calls.Keys == w'.hist.begun.Keys == w'.hist.started.Keys
    && (forall t :: t in w'.calls && t !in moved ==>
          t in w.calls && w'.calls[t] == w.calls[t] && (t in w'.hist.spent ==> t in w.hist.spent))
  }

  lemma CallsKeep(w: World, w': World, moved: set<Tid>)
    requires Inv(w) && Evolves(w, w') && OthersStill(w, w', moved)
    requires forall t :: t in moved ==> CallAt(w', t)
    ensures forall t {:trigger CallAt(w', t)} :: t in w'.calls ==> CallAt(w', t)
  {
    forall t | t in w'.calls
      ensures CallAt(w', t)
    {
      if t !in moved { assert CallAt(w, t); CallStays(w, w', t); }
    }
  }

  lemma SpentKeep(w: World, w': World)
    requires Inv(w) && Evolves(w, w') && NewOk(w, w')
    ensures forall t {:trigger SpentAt(w', t)} :: t in w'.hist.spent ==> SpentAt(w', t)
  {
    forall t | t in w'.hist.spent
      ensures SpentAt(w', t)
    {
      if t in w.hist.spent { assert SpentAt(w, t); SpentStays(w, w', t); }
    }
  }

  lemma MintKeep(w: World, w': World)
    requires Inv(w) && Evolves(w, w') && NewOk(w, w')
    ensures forall x {:trigger MintAt(w', x)} :: x in w'.hist.refresh ==> MintAt(w', x)
  {
    forall x | x in w'.hist.refresh
      ensures MintAt(w', x)
    {
      if x in w.hist.refresh { assert MintAt(w, x); MintStays(w, w', x); }
    }
  }

  lemma TokensKeep(w: World, w': World)
    requires Inv(w) && Evolves(w, w') && NewOk(w, w')
    ensures forall x {:trigger AccessAt(w', x)} :: x in w'.hist.access ==> AccessAt(w', x)
    ensures forall t {:trigger IdTokenAt(w'.hist, t)} :: t in w'.hist.idTokens ==> IdTokenAt(w'.hist, t)
  {
    forall x | x in w'.hist.access
      ensures AccessAt(w', x)
    {
      if x in w.hist.access { assert AccessAt(w, x); AccessStays(w, w', x); }
    }
    forall t | t in w'.hist.idTokens
      ensures IdTokenAt(w'.hist, t)
    {
      if t in w.hist.idTokens { assert IdTokenAt(w.hist, t); }
    }
  }

  /** Enough for a whole step: everything old stays, and what is new holds on its own. */
  lemma EvolvesKeeps(w: World, w': World, moved: set<Tid>)
    requires Inv(w) && Evolves(w, w') && OthersStill(w, w', moved) && NewOk(w, w')
    requires forall t :: t in moved ==> CallAt(w', t)
    requires forall id {:trigger RowsAt(w'.db, w'.hist, id)} :: RowsAt(w'.db, w'.hist, id)
    requires w'.db.sessions.Keys <= w'.hist.sessions.Keys
    ensures Inv(w')
  {
    CallsKeep(w, w', moved);
    SpentKeep(w, w');
    MintKeep(w, w');
    TokensKeep(w, w');
  }

  /** Table updates that keep row identity and never un-spend anything. */
  ghost predicate TameCodes(t: map<string, Code>, t': map<string, Code>) {
    forall id :: id in t' ==>
      && id in t && SameCode(t'[id], t[id])
      && (t[id].consumedAt.Some? ==> t'[id].consumedAt.Some?)
  }

  ghost predicate TameRefresh(t: map<string, Refresh>, t': map<string, Refresh>) {
    forall id :: id in t' ==>
      && id in t && SameRefresh(t'[id], t[id])
      && (t[id].rotatedAt.Some? ==> t'[id].rotatedAt.Some?)
  }

  ghost predicate TameAccess(t: map<string, Access>, t': map<string, Access>) {
    forall id :: id in t' ==> id in t && SameAccess(t'[id], t[id])
  }

  ghost predicate Tame(db: Db, db': Db) {
    && TameCodes(db.codes, db'.codes) && TameRefresh(db.refresh, db'.refresh) && TameAccess(db.access, db'.access)
    && db'.sessions.Keys <= db.sessions.Keys
  }

  lemma TameKeeps(w: World, db: Db)
    requires Inv(w) && Tame(w.db, db)
    ensures Inv(w.(db := db))
  {
    var w' := w.(db := db);
    forall id
      ensures RowsAt(w'.db, w'.hist, id)
    {
      assert RowsAt(w.db, w.hist, id);
    }
    EvolvesKeeps(w, w', {});
  }

  // What the stepping call holds afterwards, phase by phase.

  ghost predicate Writes(call: Call) {
    call.ExchangeStart? || call.RefreshRotate? || call.IssueAccess? || call.IssueRefresh?
  }

  lemma QuietStep(db: Db, h: History, tid: Tid, call: Call, env: Env)
    requires !Writes(call)
    ensures var (db', next) := Step(db, call, env);
            db' == db && Record(h, tid, call, next, env).(idTokens := h.idTokens) == h
  {}

  lemma SpendRows(db: Db, h: History, code: string, token: string, now: Time, id: string)
    requires RowsAt(db, h, id)
    ensures RowsAt(ConsumeCode(db, code, now).0, h, id) && RowsAt(RotateRefresh(db, token, now).0, h, id)
  {}

  lemma InsertRows(db: Db, h: History, newId: string, a: MintedAccess, m: Minted, id: string)
    requires RowsAt(db, h, id) && Fresh(h, newId)
    ensures var (db', ok) := InsertAccess(db, newId, a.row);
            ok && a.row.user.Some? ==> RowsAt(db', h.(access := h.access[newId := a]), id)
    ensures var (db', ok) := InsertRefresh(db, newId, m.row);
            ok ==> RowsAt(db', h.(refresh := h.refresh[newId := m]), id)
  {}

  lemma StepRows(db: Db, h: History, tid: Tid, call: Call, env: Env, id: string)
    requires Fresh(h, env.newId) && RowsAt(db, h, id)
    ensures var (db', next) := Step(db, call, env);
            RowsAt(db', Record(h, tid, call, next, env), id)
  {
    if call.ExchangeStart? { SpendRows(db, h, call.code, "", env.now, id); }
    else if call.RefreshRotate? { SpendRows(db, h, "", call.token, env.now, id); }
    else if call.IssueAccess? {
      InsertRows(db, h, env.newId, MintedAccess(tid, AccessRow(call.grant, env.now)),
                 Minted(tid, RefreshRow(call.grant, env.now, env.now), |h.refresh|), id);
    } else if call.IssueRefresh? {
      InsertRows(db, h, env.newId, MintedAccess(tid, AccessRow(call.grant, env.now)),
                 Minted(tid, RefreshRow(call.grant, call.at, env.now), |h.refresh|), id);
    } else { QuietStep(db, h, tid, call, env); }
  }

  lemma ExtendsSpent(h: History, tid: Tid, s: Spend)
    requires tid !in h.spent
    ensures Extends(h, h.(spent := h.spent[tid := s]))
  {}

  lemma ExtendsRefresh(h: History, id: string, m: Minted)
    requires id !in h.refresh
    ensures Extends(h, h.(refresh := h.refresh[id := m]))
  {}

  lemma ExtendsAccess(h: History, id: string, m: MintedAccess)
    requires id !in h.access
    ensures Extends(h, h.(access := h.access[id := m]))
  {}

  lemma StepExtends(db: Db, h: History, tid: Tid, call: Call, env: Env)
    requires Fresh(h, env.newId) && (!HasSpent(call) ==> tid !in h.spent)
    ensures Extends(h, Record(h, tid, call, Step(db, call, env).1, env))
  {
    var next := Step(db, call, env).1;
    if call.ExchangeStart? { ExtendsSpent(h, tid, Spend(FromCode(call.code), env.now)); }
    else if call.RefreshRotate? { ExtendsSpent(h, tid, Spend(FromRefresh(call.token), env.now)); }
    else if call.IssueRefresh? {
      ExtendsRefresh(h, env.newId, Minted(tid, RefreshRow(call.grant, call.at, env.now), |h.refresh|));
    } else if call.IssueAccess? {
      ExtendsAccess(h, env.newId, MintedAccess(tid, AccessRow(call.grant, env.now)));
    } else { QuietStep(db, h, tid, call, env); }
  }

  lemma StepDbEvolves(db: Db, h: History, call: Call, env: Env)
    requires Fresh(h, env.newId)
    ensures DbEvolves(h, db, Step(db, call, env).0)
  {}

  lemma CheckedCall(h: History, tid: Tid, db: Db, call: Call, env: Env)
    requires CallOk(h, tid, call) && call.ExchangeConsumed?
    ensures CallOk(h, tid, Step(db, call, env).1)
  {
    var issued := h.codes[call.code];
    assert GrantOfCode(call.client, call.code, call.row) == GrantOfCode(call.client, call.code, issued);
  }

  lemma ReadCall(h: History, tid: Tid, db: Db, call: Call, env: Env)
    requires CallOk(h, tid, call) && h.started[tid] <= env.now
    requires call.RefreshRead? || (call.RefreshStart? && RowsAt(db, h, call.token))
    ensures CallOk(h, tid, Step(db, call, env).1)
  {}

  lemma SpendingCall(h: History, tid: Tid, db: Db, call: Call, env: Env)
    requires CallOk(h, tid, call)
    requires call.RefreshRotate? || (call.ExchangeStart? && RowsAt(db, h, call.code))
    ensures var next := Step(db, call, env).1; CallOk(Record(h, tid, call, next, env), tid, next)
  {}

  lemma LaterPhase(db: Db, call: Call, env: Env)
    requires call.IssueAccess? || call.IssueRefresh? || call.Mint? || call.Done?
    ensures var next := Step(db, call, env).1;
            next.Done? || ((next.IssueRefresh? || next.Mint?) && !call.Done? && next.grant == call.grant)
  {}

  lemma LaterCall(h: History, tid: Tid, db: Db, call: Call, env: Env)
    requires CallOk(h, tid, call) && Fresh(h, env.newId)
    requires call.IssueAccess? || call.IssueRefresh? || call.Mint? || call.Done?
    ensures var next := Step(db, call, env).1; CallOk(Record(h, tid, call, next, env), tid, next)
  {
    hide Step, Record, Extends, GrantOk, AccessRow, RefreshRow, IdTokenOf;
    StepExtends(db, h, tid, call, env);
    LaterPhase(db, call, env);
    var next := Step(db, call, env).1;
    LaterOk(h, Record(h, tid, call, next, env), tid, call, next);
  }

  lemma LaterOk(h: History, h': History, tid: Tid, call: Call, next: Call)
    requires CallOk(h, tid, call) && Extends(h, h')
    requires call.IssueAccess? || call.IssueRefresh? || call.Mint? || call.Done?
    requires next.Done? || ((next.IssueRefresh? || next.Mint?) && !call.Done? && next.grant == call.grant)
    ensures CallOk(h', tid, next)
  {
    hide Extends, GrantOk;
    BegunStays(h, h', tid);
    if !next.Done? { GrantStays(h, h', tid, call.grant); }
  }

  lemma BegunStays(h: History, h': History, tid: Tid)
    requires Extends(h, h') && tid in h.begun && tid in h.started
    ensures tid in h'.begun && tid in h'.started
  {}

  lemma GrantStays(h: History, h': History, tid: Tid, g: Grant)
    requires Extends(h, h') && GrantOk(h, tid, g)
    ensures GrantOk(h', tid, g)
  {
    CarriesStays(h, h', tid, g.client.id, g.user, g.session, g.scopes);
    hide Carries;
  }

  lemma StepCall(h: History, tid: Tid, db: Db, call: Call, env: Env)
    requires CallOk(h, tid, call) && Fresh(h, env.newId) && h.started[tid] <= env.now
    requires call.RefreshStart? ==> RowsAt(db, h, call.token)
    requires call.ExchangeStart? ==> RowsAt(db, h, call.code)
    ensures var next := Step(db, call, env).1; CallOk(Record(h, tid, call, next, env), tid, next)
  {
    if call.ExchangeStart? || call.RefreshRotate? { SpendingCall(h, tid, db, call, env); }
    else if call.ExchangeConsumed? { CheckedCall(h, tid, db, call, env); }
    else if call.RefreshStart? || call.RefreshRead? { ReadCall(h, tid, db, call, env); }
    else { LaterCall(h, tid, db, call, env); }
  }

  /** Whoever spends a credential now finds its row unspent, so nobody spent it before. */
  lemma StepSpends(db: Db, h: History, tid: Tid, call: Call, env: Env)
    requires CallOk(h, tid, call) && SpentOnce(h)
    requires call.RefreshRotate? || (call.ExchangeStart? && RowsAt(db, h, call.code))
    requires forall t :: t in h.spent ==> SpendOk(db, h, h.spent[t].source, h.spent[t].at)
    ensures var (db', next) := Step(db, call, env);
            var h' := Record(h, tid, call, next, env);
            && SpentOnce(h')
            && (tid in h'.spent ==> HasSpent(next) && SpendOk(db', h', h'.spent[tid].source, h'.spent[tid].at))
  {
    var (db', next) := Step(db, call, env);
    if !next.Done? {
      var source := if call.ExchangeStart? then FromCode(call.code) else FromRefresh(call.token);
      forall t | t in h.spent
        ensures h.spent[t].source != source
      {
        assert SpendOk(db, h, h.spent[t].source, h.spent[t].at);
      }
    }
  }

  ghost function Stepped(w: World, tid: Tid, env: Env): World
    requires tid in w.calls
  {
    var (db', next) := Step(w.db, w.calls[tid], env);
    World(db', w.now, w.calls[tid := next], Record(w.hist, tid, w.calls[tid], next, env))
  }

  lemma Unspent(h: History, tid: Tid, call: Call)
    requires CallOk(h, tid, call)
    ensures !HasSpent(call) ==> tid !in h.spent
  {}

  /** The tables and the history after a step of call `tid`. */
  lemma SteppedTables(w: World, tid: Tid, env: Env)
    requires Inv(w) && Enabled(w, Advance(tid, env))
    ensures forall id {:trigger RowsAt(Stepped(w, tid, env).db, Stepped(w, tid, env).hist, id)} ::
              RowsAt(Stepped(w, tid, env).db, Stepped(w, tid, env).hist, id)
    ensures Extends(w.hist, Stepped(w, tid, env).hist) && DbEvolves(w.hist, w.db, Stepped(w, tid, env).db)
    ensures Stepped(w, tid, env).db.sessions.Keys <= Stepped(w, tid, env).hist.sessions.Keys
  {
    var call := w.calls[tid];
    var w' := Stepped(w, tid, env);
    assert CallAt(w, tid);
    Unspent(w.hist, tid, call);
    StepKeepsSessions(w.db, w.hist, tid, call, env);
    hide Step, Record, RowsAt, HasSpent;
    forall id
      ensures RowsAt(w'.db, w'.hist, id)
    {
      assert RowsAt(w.db, w.hist, id);
      StepRows(w.db, w.hist, tid, call, env, id);
    }
    StepExtends(w.db, w.hist, tid, call, env);
    StepDbEvolves(w.db, w.hist, call, env);
  }

  lemma StepKeepsSessions(db: Db, h: History, tid: Tid, call: Call, env: Env)
    ensures Step(db, call, env).0.sessions == db.sessions
    ensures Record(h, tid, call, Step(db, call, env).1, env).sessions == h.sessions
  {}

  lemma SteppedNew(w: World, tid: Tid, env: Env)
    requires Inv(w) && Enabled(w, Advance(tid, env))
    ensures NewOk(w, Stepped(w, tid, env))
  {
    hide NewOk, Stepped, Inv;
    var call := w.calls[tid];
    if call.ExchangeStart? || call.RefreshRotate? { StepNewSpend(w, tid, env); }
    else if call.IssueRefresh? { StepNewRefresh(w, tid, env); }
    else if call.IssueAccess? { StepNewAccess(w, tid, env); }
    else { StepNewQuiet(w, tid, env); }
  }

  lemma SteppedCall(w: World, tid: Tid, env: Env)
    requires Inv(w) && Enabled(w, Advance(tid, env))
    ensures CallAt(Stepped(w, tid, env), tid)
  {
    var call := w.calls[tid];
    assert CallAt(w, tid);
    if call.RefreshStart? { assert RowsAt(w.db, w.hist, call.token); }
    if call.ExchangeStart? { assert RowsAt(w.db, w.hist, call.code); }
    StepCall(w.hist, tid, w.db, call, env);
    RecordFrame(w.hist, tid, call, Step(w.db, call, env).1, env);
    hide Step, Record, RowsAt, CallOk;
  }

  lemma AdvanceKeeps(w: World, tid: Tid, env: Env)
    requires Inv(w) && Enabled(w, Advance(tid, env))
    ensures Inv(Apply(w, Advance(tid, env)))
  {
    var w' := Stepped(w, tid, env);
    assert w' == Apply(w, Advance(tid, env));
    SteppedTables(w, tid, env);
    SteppedCall(w, tid, env);
    SteppedNew(w, tid, env);
    StepStill(w, tid, env);
    hide Step, Record, Apply, RowsAt, CallAt, NewOk, Extends, DbEvolves, CallsEvolve, OthersStill;
    EvolvesKeeps(w, w', {tid});
  }

  lemma PhaseGrows(db: Db, call: Call, env: Env)
    ensures var next := Step(db, call, env).1;
            (HasSpent(call) ==> HasSpent(next)) && (Minting(call) ==> Minting(next))
            && (PastAccess(call) ==> PastAccess(next))
  {}

  lemma RecordFrame(h: History, tid: Tid, call: Call, next: Call, env: Env)
    ensures var h' := Record(h, tid, call, next, env);
            && h'.begun == h.begun && h'.started == h.started
            && (forall t :: t in h'.spent && t != tid ==> t in h.spent)
  {}

  lemma StepStill(w: World, tid: Tid, env: Env)
    requires tid in w.calls && w.calls.Keys == w.hist.begun.Keys == w.hist.started.Keys
    ensures OthersStill(w, Stepped(w, tid, env), {tid}) && CallsEvolve(w.calls, Stepped(w, tid, env).calls)
  {
    var (db', next) := Step(w.db, w.calls[tid], env);
    PhaseGrows(w.db, w.calls[tid], env);
    RecordFrame(w.hist, tid, w.calls[tid], next, env);
    assert w.calls[tid := next].Keys == w.calls.Keys;
  }

  lemma StepNewQuiet(w: World, tid: Tid, env: Env)
    requires Inv(w) && Enabled(w, Advance(tid, env)) && !Writes(w.calls[tid])
    ensures NewOk(w, Stepped(w, tid, env))
  {
    assert CallAt(w, tid);
    QuietStep(w.db, w.hist, tid, w.calls[tid], env);
  }

  /** What issuing the access token does to the history. */
  lemma AccessStep(w: World, tid: Tid, env: Env)
    requires tid in w.calls && w.calls[tid].IssueAccess?
    ensures var w' := Stepped(w, tid, env);
            || w'.hist == w.hist
            || (&& PastAccess(w'.calls[tid]) && tid in w'.calls
                && var m := MintedAccess(tid, AccessRow(w.calls[tid].grant, env.now));
                   w'.hist == w.hist.(access := w.hist.access[env.newId := m]))
  {}

  lemma StepNewAccess(w: World, tid: Tid, env: Env)
    requires Inv(w) && Enabled(w, Advance(tid, env)) && w.calls[tid].IssueAccess?
    ensures NewOk(w, Stepped(w, tid, env))
  {
    AccessStep(w, tid, env);
    assert CallAt(w, tid);
    hide Stepped, CallAt, Inv, NewOk;
    var w' := Stepped(w, tid, env);
    if w'.hist == w.hist {
      NothingNew(w, w');
    } else {
      NewAccess(w, w', tid, env.newId, AccessRow(w.calls[tid].grant, env.now));
    }
  }

  /** A caller that was about to issue its access token has issued none before. */
  lemma NewAccess(w: World, w': World, tid: Tid, id: string, row: Access)
    requires Inv(w) && tid in w.calls && w.calls[tid].IssueAccess? && id !in w.hist.access
    requires tid in w'.calls && PastAccess(w'.calls[tid])
    requires w'.hist == w.hist.(access := w.hist.access[id := MintedAccess(tid, row)])
    requires row.user.Some? && Carries(w.hist, tid, row.client, row.user.value, row.session, row.scopes)
    ensures NewOk(w, w')
  {
    hide CallAt, RowsAt, SpentAt, MintAt, Carries;
    forall x | x in w.hist.access
      ensures w.hist.access[x].caller != tid
    {
      assert AccessAt(w, x);
    }
    ExtendsAccess(w.hist, id, MintedAccess(tid, row));
    CarriesStays(w.hist, w'.hist, tid, row.client, row.user.value, row.session, row.scopes);
    assert AccessAt(w', id);
  }

  lemma StepNewSpend(w: World, tid: Tid, env: Env)
    requires Inv(w) && Enabled(w, Advance(tid, env))
    requires w.calls[tid].ExchangeStart? || w.calls[tid].RefreshRotate?
    ensures NewOk(w, Stepped(w, tid, env))
  {
    var call := w.calls[tid];
    assert CallAt(w, tid);
    forall t | t in w.hist.spent
      ensures SpendOk(w.db, w.hist, w.hist.spent[t].source, w.hist.spent[t].at)
    {
      assert SpentAt(w, t);
    }
    if call.ExchangeStart? { assert RowsAt(w.db, w.hist, call.code); }
    StepSpends(w.db, w.hist, tid, call, env);
  }

  lemma RefreshStep(w: World, tid: Tid, env: Env)
    requires tid in w.calls && w.calls[tid].IssueRefresh?
    ensures var w' := Stepped(w, tid, env);
            || w'.hist == w.hist
            || (&& tid in w'.calls && Minting(w'.calls[tid])
                && var c := w.calls[tid];
                   var m := Minted(tid, RefreshRow(c.grant, c.at, env.now), |w.hist.refresh|);
                   w'.hist == w.hist.(refresh := w.hist.refresh[env.newId := m]))
  {}

  lemma StepNewRefresh(w: World, tid: Tid, env: Env)
    requires Inv(w) && Enabled(w, Advance(tid, env)) && w.calls[tid].IssueRefresh?
    ensures NewOk(w, Stepped(w, tid, env))
  {
    RefreshStep(w, tid, env);
    hide Stepped, RowsAt, SpentAt, AccessAt, Carries, AcrOk;
    var w' := Stepped(w, tid, env);
    if w'.hist == w.hist {
      NothingNew(w, w');
    } else {
      assert CallAt(w, tid);
      NewRefresh(w, w', tid, env.newId);
    }
  }

  lemma NewRefresh(w: World, w': World, tid: Tid, id: string)
    requires Inv(w) && tid in w.calls && w.calls[tid].IssueRefresh? && id !in w.hist.refresh
    requires tid in w'.calls && Minting(w'.calls[tid]) && id in w'.hist.refresh
    requires var c := w.calls[tid];
             && w'.hist.refresh[id] == Minted(tid, RefreshRow(c.grant, c.at, w'.hist.refresh[id].row.createdAt),
                                           |w.hist.refresh|)
             && w'.hist == w.hist.(refresh := w.hist.refresh[id := w'.hist.refresh[id]])
    ensures NewOk(w, w')
  {
    var g := w.calls[tid].grant;
    assert CallAt(w, tid);
    hide RowsAt, SpentAt, AccessAt, CallAt, GrantOk, MintedOk, RefreshRow;
    forall x | x in w.hist.refresh
      ensures w.hist.refresh[x].caller != tid && w.hist.refresh[x].order < |w.hist.refresh|
    {
      assert MintAt(w, x);
    }
    NewMintOk(w.hist, w'.hist, tid, g, w.calls[tid].at, w'.hist.refresh[id].row.createdAt, id);
    assert MintAt(w', id);
  }

  lemma NewMintOk(h: History, h': History, tid: Tid, g: Grant, at: Time, now: Time, id: string)
    requires GrantOk(h, tid, g) && id !in h.refresh
    requires forall p :: p in h.refresh ==> h.refresh[p].order < |h.refresh|
    requires var m := Minted(tid, RefreshRow(g, at, now), |h.refresh|); h' == h.(refresh := h.refresh[id := m])
    ensures MintedOk(h', h'.refresh[id]) && h'.refresh[id].order < |h'.refresh|
  {
    ExtendsRefresh(h, id, h'.refresh[id]);
    CarriesStays(h, h', tid, g.client.id, g.user, g.session, g.scopes);
  }

  lemma BeginKeeps(w: World, tid: Tid, call: Call)
    requires Inv(w) && Enabled(w, Begin(tid, call))
    ensures Inv(Apply(w, Begin(tid, call)))
  {
    var w' := Apply(w, Begin(tid, call));
    forall t | t in w.hist.spent ensures t in w.calls { assert SpentAt(w, t); }
    assert CallAt(w', tid);
    BeginEvolves(w, tid, call);
    NothingNew(w, w');
    RowsKept(w, w');
    hide Apply, Enabled, CallAt, Evolves, OthersStill, NewOk;
    EvolvesKeeps(w, w', {tid});
  }

  lemma BeginEvolves(w: World, tid: Tid, call: Call)
    requires Enabled(w, Begin(tid, call)) && w.calls.Keys == w.hist.begun.Keys == w.hist.started.Keys
    ensures Evolves(w, Apply(w, Begin(tid, call))) && OthersStill(w, Apply(w, Begin(tid, call)), {tid})
  {
    hide Apply, Enabled, Extends, DbEvolves, CallsEvolve;
    BeginShape(w, tid, call);
    ExtendsBegun(w.hist, tid, call, w.now);
    SameDb(w.hist, w.db);
    OneMore(w.calls, tid, call);
  }

  lemma BeginShape(w: World, tid: Tid, call: Call)
    requires Enabled(w, Begin(tid, call))
    ensures tid !in w.hist.begun
    ensures Apply(w, Begin(tid, call)) ==
              w.(calls := w.calls[tid := call],
                 hist := w.hist.(begun := w.hist.begun[tid := call], started := w.hist.started[tid := w.now]))
  {}

  lemma OneMore(calls: map<Tid, Call>, tid: Tid, call: Call)
    requires tid !in calls
    ensures CallsEvolve(calls, calls[tid := call])
  {}

  lemma ExtendsBegun(h: History, tid: Tid, call: Call, now: Time)
    requires tid !in h.begun && tid !in h.started
    ensures Extends(h, h.(begun := h.begun[tid := call], started := h.started[tid := now]))
  {}

  lemma SameDb(h: History, db: Db)
    ensures DbEvolves(h, db, db)
  {}

  lemma AbandonKeeps(w: World, tid: Tid)
    requires Inv(w) && Enabled(w, Abandon(tid))
    ensures Inv(Apply(w, Abandon(tid)))
  {
    var w' := Apply(w, Abandon(tid));
    assert CallAt(w, tid);
    assert CallAt(w', tid);
    AbandonEvolves(w, tid);
    NothingNew(w, w');
    RowsKept(w, w');
    hide Apply, Enabled, CallAt, Evolves, OthersStill, NewOk;
    EvolvesKeeps(w, w', {tid});
  }

  lemma AbandonEvolves(w: World, tid: Tid)
    requires Enabled(w, Abandon(tid)) && w.calls.Keys == w.hist.begun.Keys == w.hist.started.Keys
    ensures Evolves(w, Apply(w, Abandon(tid))) && OthersStill(w, Apply(w, Abandon(tid)), {tid})
  {}

  lemma NothingNew(w: World, w': World)
    requires Inv(w) && w'.hist.spent == w.hist.spent && w'.hist.refresh == w.hist.refresh
    requires w'.hist.access == w.hist.access && w'.hist.idTokens == w.hist.idTokens
    ensures NewOk(w, w')
  {
    hide CallAt, RowsAt, SpentAt, MintAt, AccessAt;
  }

  /** Steps that add nothing to the token and code histories and leave those tables alone. */
  lemma RowsKept(w: World, w': World)
    requires Inv(w) && w'.db.codes == w.db.codes && w'.db.access == w.db.access && w'.db.refresh == w.db.refresh
    requires w'.hist.codes == w.hist.codes && w'.hist.access == w.hist.access
    requires w'.hist.refresh == w.hist.refresh && w'.hist.machine == w.hist.machine
    ensures forall id {:trigger RowsAt(w'.db, w'.hist, id)} :: RowsAt(w'.db, w'.hist, id)
  {
    forall id ensures RowsAt(w'.db, w'.hist, id) { assert RowsAt(w.db, w.hist, id); }
  }

  lemma TickKeeps(w: World, to: Time)
    requires Inv(w) && w.now <= to
    ensures Inv(w.(now := to))
  {
    var w' := w.(now := to);
    RowsKept(w, w');
    hide CallAt;
    EvolvesKeeps(w, w', {});
  }

  /** What a code, a machine token or a session adds is new, and nothing else changes. */
  lemma AddKeeps(w: World, w': World)
    requires Inv(w) && w'.now == w.now && w'.calls == w.calls
    requires w'.hist == w.hist.(codes := w'.hist.codes, machine := w'.hist.machine, sessions := w'.hist.sessions)
    requires forall k :: k in w.hist.codes ==> k in w'.hist.codes && w'.hist.codes[k] == w.hist.codes[k]
    requires DbEvolves(w.hist, w.db, w'.db) && w'.db.sessions.Keys <= w'.hist.sessions.Keys
    requires forall id {:trigger RowsAt(w'.db, w'.hist, id)} :: RowsAt(w'.db, w'.hist, id)
    ensures Inv(w')
  {
    NothingNew(w, w');
    hide CallAt, RowsAt, SpentAt, MintAt, AccessAt, SpentOnce, MintOnce, AccessOnce, NewOk;
    assert Extends(w.hist, w'.hist);
    assert CallsEvolve(w.calls, w'.calls);
    assert OthersStill(w, w', {});
    hide Extends, CallsEvolve, DbEvolves, OthersStill;
    EvolvesKeeps(w, w', {});
  }

  lemma IssueCodeKeeps(w: World, id: string, code: Code)
    requires Inv(w) && Enabled(w, IssueCode(id, code))
    ensures Inv(Apply(w, IssueCode(id, code)))
  {
    var w' := Apply(w, IssueCode(id, code));
    forall k ensures RowsAt(w'.db, w'.hist, k) { assert RowsAt(w.db, w.hist, k); }
    AddKeeps(w, w');
  }

  lemma IssueMachineKeeps(w: World, id: string, access: Access)
    requires Inv(w) && Enabled(w, IssueMachineToken(id, access))
    ensures Inv(Apply(w, IssueMachineToken(id, access)))
  {
    var w' := Apply(w, IssueMachineToken(id, access));
    forall k ensures RowsAt(w'.db, w'.hist, k) { assert RowsAt(w.db, w.hist, k); }
    AddKeeps(w, w');
  }

  lemma CreateSessionKeeps(w: World, session: SessionId, expires: Time)
    requires Inv(w) && Enabled(w, CreateSession(session, expires))
    ensures Inv(Apply(w, CreateSession(session, expires)))
  {
    var w' := Apply(w, CreateSession(session, expires));
    assert session !in w.db.sessions;
    RowsKept(w, w');
    AddKeeps(w, w');
  }

  // Revocations and the sweeps never un-spend a row.

  lemma RevokeAccessTame(db: Db, id: string, now: Time)
    ensures Tame(db, RevokeAccess(db, id, now))
  {}

  lemma RevokeRefreshTame(db: Db, id: string, now: Time)
    ensures Tame(db, RevokeRefresh(db, id, now))
  {}

  lemma RevokeSessionTame(db: Db, session: SessionId, now: Time)
    ensures Tame(db, RevokeRefreshOfSession(db, session, now))
  {}

  lemma TokenSweepTame(db: Db, cutoff: Time)
    ensures Tame(db, SweepCodes(db, cutoff)) && Tame(db, SweepAccess(db, cutoff)) && Tame(db, SweepRefresh(db, cutoff))
  {
    hide SameCode, SameAccess, SameRefresh;
    IssuedAlike();
  }

  lemma IssuedAlike()
    ensures forall c: Code :: SameCode(c, c)
    ensures forall a: Access :: SameAccess(a, a)
    ensures forall r: Refresh :: SameRefresh(r, r)
  {}

  lemma SessionSweepTame(db: Db, cutoff: Time)
    ensures Tame(db, SweepSessions(db, cutoff))
  {}

  lemma Keeps(w: World, ev: Event)
    requires Inv(w) && Enabled(w, ev)
    ensures Inv(Apply(w, ev))
  {
    hide Inv, Tame, Enabled;
    match ev
    case Advance(tid, env) => AdvanceKeeps(w, tid, env);
    case Begin(tid, call) => BeginKeeps(w, tid, call);
    case Abandon(tid) => AbandonKeeps(w, tid);
    case Tick(to) => TickAllowed(w, to); TickKeeps(w, to);
    case IssueCode(id, code) => IssueCodeKeeps(w, id, code);
    case IssueMachineToken(id, access) => IssueMachineKeeps(w, id, access);
    case CreateSession(session, expires) => CreateSessionKeeps(w, session, expires);
    case RevokeAccessToken(id) => RevokeAccessTame(w.db, id, w.now); TameKeeps(w, Apply(w, ev).db);
    case RevokeRefreshToken(id) => RevokeRefreshTame(w.db, id, w.now); TameKeeps(w, Apply(w, ev).db);
    case RevokeSession(session) => RevokeSessionTame(w.db, session, w.now); TameKeeps(w, Apply(w, ev).db);
    case SweepSessionTable(cutoff) => SessionSweepTame(w.db, cutoff); TameKeeps(w, Apply(w, ev).db);
    case _ => TokenSweepTame(w.db, ev.cutoff); TameKeeps(w, Apply(w, ev).db);
  }

  lemma TickAllowed(w: World, to: Time)
    requires Enabled(w, Tick(to))
    ensures w.now <= to
  {}

  lemma {:induction false} RunKeeps(w: World, evs: seq<Event>)
    requires Inv(w) && ValidRun(w, evs)
    ensures Inv(Run(w, evs))
    decreases |evs|
  {
    if evs != [] {
      Keeps(w, evs[0]);
      RunKeeps(Apply(w, evs[0]), evs[1..]);
    }
  }

  ghost predicate Reachable(w: World) {
    exists now, evs :: ValidRun(Start(now), evs) && w == Run(Start(now), evs)
  }

  lemma ReachableInv(w: World)
    requires Reachable(w)
    ensures Inv(w)
  {
    var now, evs :| ValidRun(Start(now), evs) && w == Run(Start(now), evs);
    RunKeeps(Start(now), evs);
  }
}
