/** Whether the cleanup pass of cmd/server/main.go can be noticed.  It deletes codes, tokens and sessions that expired
    more than an hour ago, and deleting a session deletes its codes and sets session_id of its tokens to NULL.  A store
    that is swept and one that never is stay alike up to those rows and that column, except where a statement needs a
    row that is gone.  This module says exactly when that can happen. */
module OidcSweep {
  import opened Common
  import opened OidcStore
  import opened OidcService
  import opened OidcWorld

  type Sessions = map<SessionId, Time>

  // ----- alike -----

  predicate Dead(us: Sessions, session: SessionId, now: Time) { session in us && us[session] < now - HOUR }

  predicate SameSession(us: Sessions, a: Option<SessionId>, b: Option<SessionId>, now: Time) {
    a == b || (a.None? && b.Some? && Dead(us, b.value, now))
  }

  predicate SameRow(us: Sessions, a: Refresh, b: Refresh, now: Time) {
    a == b.(session := a.session) && SameSession(us, a.session, b.session, now)
  }

  predicate SameToken(us: Sessions, a: Access, b: Access, now: Time) {
    a == b.(session := a.session) && SameSession(us, a.session, b.session, now)
  }

  predicate SameGrant(us: Sessions, a: Grant, b: Grant, now: Time) {
    a == b.(session := a.session) && SameSession(us, a.session, b.session, now)
  }

  /** Two calls in the same phase, with the same answer if they are done. */
  predicate SameCall(us: Sessions, a: Call, b: Call, now: Time) {
    match b
    case RefreshRead(c, t, wanted, row) =>
      a.RefreshRead? && a == RefreshRead(c, t, wanted, a.found) && SameRow(us, a.found, row, now)
    case RefreshRotate(c, t, wanted, row) =>
      a.RefreshRotate? && a == RefreshRotate(c, t, wanted, a.found) && SameRow(us, a.found, row, now)
    case IssueAccess(g) => a.IssueAccess? && SameGrant(us, a.grant, g, now)
    case IssueRefresh(g, at, id) => a.IssueRefresh? && a == IssueRefresh(a.grant, at, id) &&
        SameGrant(us, a.grant, g, now)
    case Mint(g, id, rid) => a.Mint? && a == Mint(a.grant, id, rid) && SameGrant(us, a.grant, g, now)
    case _ => a == b
  }

  ghost predicate CodeAlike(s: Db, u: Db, now: Time, id: string) {
    && (id in s.codes ==> id in u.codes && s.codes[id] == u.codes[id])
    && (id in u.codes && id !in s.codes ==>
          u.codes[id].expiresAt < now - HOUR || Dead(u.sessions, u.codes[id].session, now))
  }

  ghost predicate AccessAlike(s: Db, u: Db, now: Time, id: string) {
    && (id in s.access ==> id in u.access && SameToken(u.sessions, s.access[id], u.access[id], now))
    && (id in u.access && id !in s.access ==> u.access[id].expiresAt < now - HOUR)
  }

  ghost predicate RefreshAlike(s: Db, u: Db, now: Time, id: string) {
    && (id in s.refresh ==> id in u.refresh && SameRow(u.sessions, s.refresh[id], u.refresh[id], now))
    && (id in u.refresh && id !in s.refresh ==> u.refresh[id].expiresAt < now - HOUR)
  }

  ghost predicate SessionAlike(s: Db, u: Db, now: Time, id: SessionId) {
    && (id in s.sessions ==> id in u.sessions && s.sessions[id] == u.sessions[id])
    && (id in u.sessions && id !in s.sessions ==> Dead(u.sessions, id, now))
  }

  /** `s` is `u` without some dead rows. */
  ghost predicate Swept(s: Db, u: Db, now: Time) {
    && (forall id {:trigger CodeAlike(s, u, now, id)} :: CodeAlike(s, u, now, id))
    && (forall id {:trigger AccessAlike(s, u, now, id)} :: AccessAlike(s, u, now, id))
    && (forall id {:trigger RefreshAlike(s, u, now, id)} :: RefreshAlike(s, u, now, id))
    && (forall id: SessionId {:trigger SessionAlike(s, u, now, id)} :: SessionAlike(s, u, now, id))
  }

  ghost predicate MintedAlike(us: Sessions, a: History, b: History, now: Time, id: string) {
    && (id in a.refresh <==> id in b.refresh)
    && (id in b.refresh ==>
          && a.refresh[id] == b.refresh[id].(row := a.refresh[id].row)
          && SameRow(us, a.refresh[id].row, b.refresh[id].row, now))
    && (id in a.access <==> id in b.access)
    && (id in b.access ==>
          && a.access[id] == b.access[id].(row := a.access[id].row)
          && SameToken(us, a.access[id].row, b.access[id].row, now))
  }

  ghost predicate SameHistory(us: Sessions, a: History, b: History, now: Time) {
    && a == b.(refresh := a.refresh, access := a.access) && |a.refresh| == |b.refresh|
    && (forall id {:trigger MintedAlike(us, a, b, now, id)} :: MintedAlike(us, a, b, now, id))
  }

  ghost predicate CallAlike(us: Sessions, s: World, u: World, t: Tid) {
    (t in s.calls <==> t in u.calls) && (t in u.calls ==> SameCall(us, s.calls[t], u.calls[t], u.now))
  }

  ghost predicate Alike(s: World, u: World) {
    && s.now == u.now && SameHistory(u.db.sessions, s.hist, u.hist, u.now) && Swept(s.db, u.db, u.now)
    && (forall t: Tid {:trigger CallAlike(u.db.sessions, s, u, t)} :: CallAlike(u.db.sessions, s, u, t))
  }

  lemma Reflexive(w: World)
    ensures Alike(w, w)
  {
    forall id ensures CodeAlike(w.db, w.db, w.now, id) && AccessAlike(w.db, w.db, w.now, id) {}
    forall id ensures RefreshAlike(w.db, w.db, w.now, id) && MintedAlike(w.db.sessions, w.hist, w.hist, w.now, id) {}
    forall id: SessionId ensures SessionAlike(w.db, w.db, w.now, id) {}
    forall t: Tid ensures CallAlike(w.db.sessions, w, w, t) {}
  }

  // ----- where a sweep shows -----

  predicate IsSweep(ev: Event) {
    ev.SweepCodeTable? || ev.SweepAccessTable? || ev.SweepRefreshTable? || ev.SweepSessionTable?
  }

  function WithoutSweeps(evs: seq<Event>): seq<Event> {
    if evs == [] then []
    else if IsSweep(evs[0]) then WithoutSweeps(evs[1..])
    else [evs[0]] + WithoutSweeps(evs[1..])
  }

  /** A session that a row is to refer to, gone from the swept store only. */
  predicate Lost(s: Db, u: Db, session: Option<SessionId>) {
    session.Some? && session.value !in s.sessions && session.value in u.sessions
  }

  /** The statement needs a row that the sweep took: a session to refer to, a code to redeem, a refresh token to
      rotate, or the session_id by which to revoke. */
  ghost predicate Misses(s: World, u: World, ev: Event) {
    match ev
    case IssueCode(_, code) => Lost(s.db, u.db, Some(code.session))
    case RevokeSession(session) =>
      exists id :: id in s.db.refresh && id in u.db.refresh && u.db.refresh[id].revokedAt.None?
                   && u.db.refresh[id].session == Some(session) && s.db.refresh[id].session.None?
    case Advance(tid, _) =>
      tid in s.calls && tid in u.calls &&
      (match s.calls[tid]
       case ExchangeStart(_, code, _, _) => code !in s.db.codes && ConsumeCode(u.db, code, u.now).1.Some?
       case RefreshRotate(_, token, _, _) => token !in s.db.refresh && RotateRefresh(u.db, token, u.now).1
       case IssueAccess(g) => Lost(s.db, u.db, g.session)
       case IssueRefresh(g, _, _) => Lost(s.db, u.db, g.session)
       case _ => false)
    case _ => false
  }

  /** The two runs stay alike to the end, statement by statement. */
  ghost predicate StayAlike(s: World, u: World, evs: seq<Event>)
    decreases |evs|
  {
    && Alike(s, u)
    && (evs != [] && Enabled(s, evs[0]) ==>
          if IsSweep(evs[0]) then StayAlike(Apply(s, evs[0]), u, evs[1..])
          else Enabled(u, evs[0]) && StayAlike(Apply(s, evs[0]), Apply(u, evs[0]), evs[1..]))
  }

  ghost predicate NeverMisses(s: World, u: World, evs: seq<Event>)
    decreases |evs|
  {
    evs != [] && Enabled(s, evs[0]) ==>
      if IsSweep(evs[0]) then NeverMisses(Apply(s, evs[0]), u, evs[1..])
      else !Misses(s, u, evs[0])
           && (Enabled(u, evs[0]) ==> NeverMisses(Apply(s, evs[0]), Apply(u, evs[0]), evs[1..]))
  }

  // ----- time passes -----

  predicate Older(us: Sessions, now: Time, us': Sessions, now': Time) {
    now <= now' && forall k :: k in us ==> k in us' && us'[k] == us[k]
  }

  lemma HistoryLater(us: Sessions, now: Time, us': Sessions, now': Time, a: History, b: History)
    requires SameHistory(us, a, b, now) && Older(us, now, us', now')
    ensures SameHistory(us', a, b, now')
  {
    forall id ensures MintedAlike(us', a, b, now', id) { assert MintedAlike(us, a, b, now, id); }
  }

  lemma CallsLater(s: World, u: World, s': World, u': World, t: Tid)
    requires CallAlike(u.db.sessions, s, u, t) && Older(u.db.sessions, u.now, u'.db.sessions, u'.now)
    requires (t in s'.calls <==> t in s.calls) && (t in u'.calls <==> t in u.calls)
    requires t in u.calls ==> t in s.calls && s'.calls[t] == s.calls[t] && u'.calls[t] == u.calls[t]
    ensures CallAlike(u'.db.sessions, s', u', t)
  {}

  /** Statements that move no call and write no history keep everything but the tables alike. */
  lemma TablesOnly(s: World, u: World, s': World, u': World)
    requires Alike(s, u) && s'.calls == s.calls && u'.calls == u.calls && s'.now == u'.now
    requires Older(u.db.sessions, u.now, u'.db.sessions, u'.now)
    requires SameHistory(u'.db.sessions, s'.hist, u'.hist, u'.now) && Swept(s'.db, u'.db, u'.now)
    ensures Alike(s', u')
  {
    hide SameHistory, Swept, SameCall, Older;
    forall t: Tid
      ensures CallAlike(u'.db.sessions, s', u', t)
    {
      assert CallAlike(u.db.sessions, s, u, t);
      CallsLater(s, u, s', u', t);
    }
  }

  // ----- one sweep -----

  lemma SweepAlike(s: World, u: World, ev: Event)
    requires Alike(s, u) && IsSweep(ev) && Enabled(s, ev)
    ensures Alike(Apply(s, ev), u)
  {
    var s' := Apply(s, ev);
    assert s'.now == s.now && s'.calls == s.calls && s'.hist == s.hist;
    SweptFurther(s.db, u.db, u.now, ev.cutoff, s'.db);
    hide SameHistory, Swept, Older;
    OlderSelf(u);
    TablesOnly(s, u, s', u);
  }

  lemma OlderSelf(u: World)
    ensures Older(u.db.sessions, u.now, u.db.sessions, u.now)
  {}

  lemma SweptFurther(s: Db, u: Db, now: Time, cutoff: Time, d: Db)
    requires Swept(s, u, now) && cutoff <= now - HOUR
    requires d == SweepCodes(s, cutoff) || d == SweepAccess(s, cutoff) || d == SweepRefresh(s, cutoff)
             || d == SweepSessions(s, cutoff)
    ensures Swept(d, u, now)
  {
    forall id
      ensures CodeAlike(d, u, now, id) && AccessAlike(d, u, now, id) && RefreshAlike(d, u, now, id)
    {
      assert CodeAlike(s, u, now, id) && AccessAlike(s, u, now, id) && RefreshAlike(s, u, now, id);
      if d == SweepSessions(s, cutoff) {
        DetachedAlike(s, u, now, cutoff, id);
      }
    }
    forall id: SessionId
      ensures SessionAlike(d, u, now, id)
    {
      assert SessionAlike(s, u, now, id);
    }
  }

  lemma DetachedAlike(s: Db, u: Db, now: Time, cutoff: Time, id: string)
    requires CodeAlike(s, u, now, id) && AccessAlike(s, u, now, id) && RefreshAlike(s, u, now, id)
    requires forall k: SessionId {:trigger SessionAlike(s, u, now, k)} :: SessionAlike(s, u, now, k)
    requires cutoff <= now - HOUR
    ensures var d := SweepSessions(s, cutoff);
            CodeAlike(d, u, now, id) && AccessAlike(d, u, now, id) && RefreshAlike(d, u, now, id)
  {
    if id in s.codes { assert SessionAlike(s, u, now, s.codes[id].session); }
    if id in s.access && s.access[id].session.Some? { assert SessionAlike(s, u, now, s.access[id].session.value); }
    if id in s.refresh && s.refresh[id].session.Some? { assert SessionAlike(s, u, now, s.refresh[id].session.value); }
  }

  // ----- one statement on both stores -----

  lemma ConsumeAlike(s: Db, u: Db, now: Time, code: string)
    requires Swept(s, u, now) && (code !in s.codes ==> ConsumeCode(u, code, now).1.None?)
    ensures ConsumeCode(s, code, now).1 == ConsumeCode(u, code, now).1
    ensures Swept(ConsumeCode(s, code, now).0, ConsumeCode(u, code, now).0, now)
  {
    var (s', u') := (ConsumeCode(s, code, now).0, ConsumeCode(u, code, now).0);
    assert CodeAlike(s, u, now, code);
    forall id ensures CodeAlike(s', u', now, id) { assert CodeAlike(s, u, now, id); }
    forall id ensures AccessAlike(s', u', now, id) { assert AccessAlike(s, u, now, id); }
    forall id ensures RefreshAlike(s', u', now, id) { assert RefreshAlike(s, u, now, id); }
    forall id: SessionId ensures SessionAlike(s', u', now, id) { assert SessionAlike(s, u, now, id); }
  }

  lemma GetAlike(s: Db, u: Db, now: Time, token: string)
    requires Swept(s, u, now)
    ensures GetRefresh(s, token, now).Some? <==> GetRefresh(u, token, now).Some?
    ensures GetRefresh(s, token, now).Some? ==>
              SameRow(u.sessions, GetRefresh(s, token, now).value, GetRefresh(u, token, now).value, now)
  {
    assert RefreshAlike(s, u, now, token);
  }

  lemma RotateAlike(s: Db, u: Db, now: Time, token: string)
    requires Swept(s, u, now) && (token !in s.refresh ==> !RotateRefresh(u, token, now).1)
    ensures RotateRefresh(s, token, now).1 == RotateRefresh(u, token, now).1
    ensures Swept(RotateRefresh(s, token, now).0, RotateRefresh(u, token, now).0, now)
  {
    var (s', u') := (RotateRefresh(s, token, now).0, RotateRefresh(u, token, now).0);
    assert RefreshAlike(s, u, now, token);
    forall id ensures CodeAlike(s', u', now, id) { assert CodeAlike(s, u, now, id); }
    forall id ensures AccessAlike(s', u', now, id) { assert AccessAlike(s, u, now, id); }
    forall id ensures RefreshAlike(s', u', now, id) { assert RefreshAlike(s, u, now, id); }
    forall id: SessionId ensures SessionAlike(s', u', now, id) { assert SessionAlike(s, u, now, id); }
  }

  /** A reference that is not lost holds on both stores or on neither. */
  lemma RefersAlike(s: Db, u: Db, now: Time, a: Option<SessionId>, b: Option<SessionId>)
    requires Swept(s, u, now) && SameSession(u.sessions, a, b, now) && !Lost(s, u, a)
    ensures Refers(s, a) <==> Refers(u, b)
  {
    if a.Some? { assert SessionAlike(s, u, now, a.value); }
  }

  lemma TablesSwept(s: Db, u: Db, now: Time, s': Db, u': Db)
    requires Swept(s, u, now) && s'.sessions == s.sessions && u'.sessions == u.sessions
    requires forall id {:trigger CodeAlike(s', u', now, id)} :: CodeAlike(s', u', now, id)
    requires forall id {:trigger AccessAlike(s', u', now, id)} :: AccessAlike(s', u', now, id)
    requires forall id {:trigger RefreshAlike(s', u', now, id)} :: RefreshAlike(s', u', now, id)
    ensures Swept(s', u', now)
  {
    forall id: SessionId ensures SessionAlike(s', u', now, id) { assert SessionAlike(s, u, now, id); }
  }

  lemma InsertCodeAlike(s: Db, u: Db, now: Time, id: string, row: Code)
    requires Swept(s, u, now) && id !in u.codes && !Lost(s, u, Some(row.session))
    ensures InsertCode(s, id, row).1 == InsertCode(u, id, row).1
    ensures Swept(InsertCode(s, id, row).0, InsertCode(u, id, row).0, now)
  {
    var (s', u') := (InsertCode(s, id, row).0, InsertCode(u, id, row).0);
    RefersAlike(s, u, now, Some(row.session), Some(row.session));
    assert CodeAlike(s, u, now, id);
    forall k ensures CodeAlike(s', u', now, k) { assert CodeAlike(s, u, now, k); }
    forall k ensures AccessAlike(s', u', now, k) { assert AccessAlike(s, u, now, k); }
    forall k ensures RefreshAlike(s', u', now, k) { assert RefreshAlike(s, u, now, k); }
    TablesSwept(s, u, now, s', u');
  }

  lemma InsertAccessAlike(s: Db, u: Db, now: Time, id: string, a: Access, b: Access)
    requires Swept(s, u, now) && id !in u.access && SameToken(u.sessions, a, b, now) && !Lost(s, u, a.session)
    ensures InsertAccess(s, id, a).1 == InsertAccess(u, id, b).1
    ensures Swept(InsertAccess(s, id, a).0, InsertAccess(u, id, b).0, now)
  {
    var (s', u') := (InsertAccess(s, id, a).0, InsertAccess(u, id, b).0);
    RefersAlike(s, u, now, a.session, b.session);
    assert AccessAlike(s, u, now, id);
    forall k ensures CodeAlike(s', u', now, k) { assert CodeAlike(s, u, now, k); }
    forall k ensures AccessAlike(s', u', now, k) { assert AccessAlike(s, u, now, k); }
    forall k ensures RefreshAlike(s', u', now, k) { assert RefreshAlike(s, u, now, k); }
    TablesSwept(s, u, now, s', u');
  }

  lemma InsertRefreshAlike(s: Db, u: Db, now: Time, id: string, a: Refresh, b: Refresh)
    requires Swept(s, u, now) && id !in u.refresh && SameRow(u.sessions, a, b, now) && !Lost(s, u, a.session)
    ensures InsertRefresh(s, id, a).1 == InsertRefresh(u, id, b).1
    ensures Swept(InsertRefresh(s, id, a).0, InsertRefresh(u, id, b).0, now)
  {
    var (s', u') := (InsertRefresh(s, id, a).0, InsertRefresh(u, id, b).0);
    RefersAlike(s, u, now, a.session, b.session);
    assert RefreshAlike(s, u, now, id);
    forall k ensures CodeAlike(s', u', now, k) { assert CodeAlike(s, u, now, k); }
    forall k ensures AccessAlike(s', u', now, k) { assert AccessAlike(s, u, now, k); }
    forall k ensures RefreshAlike(s', u', now, k) { assert RefreshAlike(s, u, now, k); }
    TablesSwept(s, u, now, s', u');
  }

  // ----- one step of a call on both stores -----

  /** What a step has to keep: phases and tables. */
  ghost predicate DbStepsAlike(s: Db, u: Db, now: Time, c: Call, d: Call, env: Env) {
    var (a, b) := (Step(s, c, env), Step(u, d, env));
    SameCall(u.sessions, a.1, b.1, now) && Swept(a.0, b.0, now) && b.0.sessions == u.sessions
  }

  lemma ConsumeStep(s: Db, u: Db, now: Time, d: Call, env: Env)
    requires Swept(s, u, now) && d.ExchangeStart? && env.now == now
    requires d.code !in s.codes ==> ConsumeCode(u, d.code, now).1.None?
    ensures DbStepsAlike(s, u, now, d, d, env)
  {
    ConsumeAlike(s, u, now, d.code);
    hide Swept;
  }

  lemma RotateStep(s: Db, u: Db, now: Time, c: Call, d: Call, env: Env)
    requires Swept(s, u, now) && d.RefreshRotate? && SameCall(u.sessions, c, d, now) && env.now == now
    requires d.token !in s.refresh ==> !RotateRefresh(u, d.token, now).1
    ensures DbStepsAlike(s, u, now, c, d, env)
  {
    RotateAlike(s, u, now, d.token);
    hide Swept;
  }

  lemma AccessStepAlike(s: Db, u: Db, now: Time, c: Call, d: Call, env: Env)
    requires Swept(s, u, now) && SameCall(u.sessions, c, d, now) && d.IssueAccess?
    requires env.newId !in u.access && !Lost(s, u, c.grant.session)
    ensures DbStepsAlike(s, u, now, c, d, env)
  {
    InsertAccessAlike(s, u, now, env.newId, AccessRow(c.grant, env.now), AccessRow(d.grant, env.now));
    hide Swept;
  }

  lemma RefreshStepAlike(s: Db, u: Db, now: Time, c: Call, d: Call, env: Env)
    requires Swept(s, u, now) && SameCall(u.sessions, c, d, now) && d.IssueRefresh?
    requires env.newId !in u.refresh && !Lost(s, u, c.grant.session)
    ensures DbStepsAlike(s, u, now, c, d, env)
  {
    InsertRefreshAlike(s, u, now, env.newId, RefreshRow(c.grant, c.at, env.now), RefreshRow(d.grant, d.at, env.now));
    hide Swept;
  }

  /** A random id is new to both stores. */
  lemma NewIdFree(s: World, u: World, id: string)
    requires Alike(s, u) && Inv(u) && Fresh(s.hist, id)
    ensures Fresh(u.hist, id) && id !in u.db.access && id !in u.db.refresh
  {
    assert MintedAlike(u.db.sessions, s.hist, u.hist, u.now, id);
    assert RowsAt(u.db, u.hist, id);
  }

  lemma ReadStep(s: Db, u: Db, c: Call, d: Call, env: Env)
    requires Swept(s, u, env.now) && SameCall(u.sessions, c, d, env.now) && !Writes(d)
    ensures DbStepsAlike(s, u, env.now, c, d, env)
  {
    if d.RefreshStart? { GetAlike(s, u, env.now, d.token); }
    hide Swept;
  }

  lemma StepAlike(s: World, u: World, tid: Tid, env: Env)
    requires Alike(s, u) && Inv(u) && Enabled(s, Advance(tid, env)) && !Misses(s, u, Advance(tid, env))
    ensures tid in s.calls && tid in u.calls
    ensures DbStepsAlike(s.db, u.db, u.now, s.calls[tid], u.calls[tid], env)
  {
    assert CallAlike(u.db.sessions, s, u, tid);
    NewIdFree(s, u, env.newId);
    hide Inv, DbStepsAlike, Swept, SameHistory;
    var (c, d) := (s.calls[tid], u.calls[tid]);
    if d.ExchangeStart? { ConsumeStep(s.db, u.db, u.now, d, env); }
    else if d.RefreshRotate? { RotateStep(s.db, u.db, u.now, c, d, env); }
    else if d.IssueAccess? { AccessStepAlike(s.db, u.db, u.now, c, d, env); }
    else if d.IssueRefresh? { RefreshStepAlike(s.db, u.db, u.now, c, d, env); }
    else { ReadStep(s.db, u.db, c, d, env); }
  }

  lemma AccessRecord(us: Sessions, a: History, b: History, now: Time, id: string, m: MintedAccess, n: MintedAccess)
    requires SameHistory(us, a, b, now) && m == n.(row := m.row) && SameToken(us, m.row, n.row, now)
    ensures SameHistory(us, a.(access := a.access[id := m]), b.(access := b.access[id := n]), now)
  {
    var (a', b') := (a.(access := a.access[id := m]), b.(access := b.access[id := n]));
    forall k ensures MintedAlike(us, a', b', now, k) { assert MintedAlike(us, a, b, now, k); }
  }

  lemma RefreshRecord(us: Sessions, a: History, b: History, now: Time, id: string, m: Minted, n: Minted)
    requires SameHistory(us, a, b, now) && m == n.(row := m.row) && SameRow(us, m.row, n.row, now)
    ensures SameHistory(us, a.(refresh := a.refresh[id := m]), b.(refresh := b.refresh[id := n]), now)
  {
    var (a', b') := (a.(refresh := a.refresh[id := m]), b.(refresh := b.refresh[id := n]));
    assert MintedAlike(us, a, b, now, id);
    forall k ensures MintedAlike(us, a', b', now, k) { assert MintedAlike(us, a, b, now, k); }
  }

  lemma OtherRecord(us: Sessions, a: History, b: History, now: Time, a': History, b': History)
    requires SameHistory(us, a, b, now)
    requires a' == a.(spent := a'.spent, idTokens := a'.idTokens) &&
             b' == b.(spent := b'.spent, idTokens := b'.idTokens)
    requires a'.spent == b'.spent && a'.idTokens == b'.idTokens
    ensures SameHistory(us, a', b', now)
  {
    forall k ensures MintedAlike(us, a', b', now, k) { assert MintedAlike(us, a, b, now, k); }
  }

  lemma SameRecord(us: Sessions, a: History, b: History, now: Time, tid: Tid, c: Call, d: Call, c': Call, d': Call,
                   env: Env)
    requires SameHistory(us, a, b, now) && SameCall(us, c, d, now) && SameCall(us, c', d', now)
    ensures SameHistory(us, Record(a, tid, c, c', env), Record(b, tid, d, d', env), now)
  {
    hide SameHistory, Record;
    HistorySizes(us, a, b, now);
    if d.IssueAccess? || d.IssueRefresh? {
      IssueRecord(us, a, b, now, tid, c, d, c', d', env);
    } else {
      OtherPhases(us, a, b, now, tid, c, d, c', d', env);
      OtherRecord(us, a, b, now, Record(a, tid, c, c', env), Record(b, tid, d, d', env));
    }
  }

  lemma OtherPhases(us: Sessions, a: History, b: History, now: Time, tid: Tid, c: Call, d: Call, c': Call, d': Call,
                    env: Env)
    requires SameCall(us, c, d, now) && SameCall(us, c', d', now) && !d.IssueAccess? && !d.IssueRefresh?
    requires a.spent == b.spent && a.idTokens == b.idTokens
    ensures var (a', b') := (Record(a, tid, c, c', env), Record(b, tid, d, d', env));
            && a' == a.(spent := a'.spent, idTokens := a'.idTokens)
            && b' == b.(spent := b'.spent, idTokens := b'.idTokens)
            && a'.spent == b'.spent && a'.idTokens == b'.idTokens
  {
    SamePhase(us, c, d, now);
    SamePhase(us, c', d', now);
    hide SameCall, Record;
    WhatItRecords(a, tid, c, c', env);
    WhatItRecords(b, tid, d, d', env);
  }

  lemma WhatItRecords(h: History, tid: Tid, c: Call, c': Call, env: Env)
    requires !c.IssueAccess? && !c.IssueRefresh?
    ensures var h' := Record(h, tid, c, c', env);
            && h' == h.(spent := h'.spent, idTokens := h'.idTokens)
            && h'.spent == (if c.ExchangeStart? && c'.ExchangeConsumed? then
                              h.spent[tid := Spend(FromCode(c.code), env.now)]
                            else if c.RefreshRotate? && c'.IssueAccess? then
                              h.spent[tid := Spend(FromRefresh(c.token), env.now)]
                            else h.spent)
            && h'.idTokens == (if c.Mint? && IdTokenOf(c.grant).Some? then h.idTokens[tid := IdTokenOf(c.grant).value]
                               else h.idTokens)
  {
    hide IdTokenOf;
  }

  lemma SamePhase(us: Sessions, c: Call, d: Call, now: Time)
    requires SameCall(us, c, d, now)
    ensures (c.ExchangeStart? <==> d.ExchangeStart?) && (c.ExchangeConsumed? <==> d.ExchangeConsumed?)
    ensures (c.RefreshRotate? <==> d.RefreshRotate?) && (c.IssueAccess? <==> d.IssueAccess?)
    ensures (c.IssueRefresh? <==> d.IssueRefresh?) && (c.Mint? <==> d.Mint?)
    ensures d.ExchangeStart? ==> c == d
    ensures d.RefreshRotate? ==> c.token == d.token
    ensures d.Mint? ==> IdTokenOf(c.grant) == IdTokenOf(d.grant)
  {}

  lemma IssueRecord(us: Sessions, a: History, b: History, now: Time, tid: Tid, c: Call, d: Call, c': Call, d': Call,
                    env: Env)
    requires SameHistory(us, a, b, now) && SameCall(us, c, d, now) && SameCall(us, c', d', now)
    requires (d.IssueAccess? || d.IssueRefresh?) && |a.refresh| == |b.refresh|
    ensures SameHistory(us, Record(a, tid, c, c', env), Record(b, tid, d, d', env), now)
  {
    hide SameHistory;
    SamePhase(us, c, d, now);
    if d.IssueAccess? && !d'.Done? {
      AccessRecord(us, a, b, now, env.newId, MintedAccess(tid, AccessRow(c.grant, env.now)),
                   MintedAccess(tid, AccessRow(d.grant, env.now)));
    } else if d.IssueRefresh? && !d'.Done? {
      RefreshRecord(us, a, b, now, env.newId, Minted(tid, RefreshRow(c.grant, c.at, env.now), |a.refresh|),
                    Minted(tid, RefreshRow(d.grant, d.at, env.now), |b.refresh|));
    }
  }

  lemma HistorySizes(us: Sessions, a: History, b: History, now: Time)
    requires SameHistory(us, a, b, now)
    ensures |a.refresh| == |b.refresh| && a.spent == b.spent && a.idTokens == b.idTokens
  {}

  lemma AdvanceAlike(s: World, u: World, tid: Tid, env: Env)
    requires Alike(s, u) && Inv(u) && Enabled(s, Advance(tid, env)) && !Misses(s, u, Advance(tid, env))
    ensures Enabled(u, Advance(tid, env)) && Alike(Apply(s, Advance(tid, env)), Apply(u, Advance(tid, env)))
  {
    StepAlike(s, u, tid, env);
    assert CallAlike(u.db.sessions, s, u, tid);
    SameRecord(u.db.sessions, s.hist, u.hist, u.now, tid, s.calls[tid], u.calls[tid],
               Step(s.db, s.calls[tid], env).1, Step(u.db, u.calls[tid], env).1, env);
    NewIdFree(s, u, env.newId);
    var (s', u') := (Stepped(s, tid, env), Stepped(u, tid, env));
    assert s' == Apply(s, Advance(tid, env)) && u' == Apply(u, Advance(tid, env));
    hide Step, Record, Inv, Apply, SameHistory, Swept, SameCall;
    forall t: Tid
      ensures CallAlike(u'.db.sessions, s', u', t)
    {
      assert CallAlike(u.db.sessions, s, u, t);
    }
  }

  // ----- the other statements -----

  lemma AccessRevoked(s: Db, u: Db, now: Time, id: string, k: string)
    requires AccessAlike(s, u, now, k) && AccessAlike(s, u, now, id)
    ensures AccessAlike(RevokeAccess(s, id, now), RevokeAccess(u, id, now), now, k)
  {}

  lemma RevokeAccessAlike(s: Db, u: Db, now: Time, id: string)
    requires Swept(s, u, now)
    ensures Swept(RevokeAccess(s, id, now), RevokeAccess(u, id, now), now)
  {
    var (a, b) := (RevokeAccess(s, id, now), RevokeAccess(u, id, now));
    assert a == s.(access := a.access) && b == u.(access := b.access);
    hide RevokeAccess, AccessAlike;
    forall k
      ensures AccessAlike(a, b, now, k)
    {
      assert AccessAlike(s, u, now, k) && AccessAlike(s, u, now, id);
      AccessRevoked(s, u, now, id, k);
    }
    forall k ensures CodeAlike(a, b, now, k) { assert CodeAlike(s, u, now, k); }
    forall k ensures RefreshAlike(a, b, now, k) { assert RefreshAlike(s, u, now, k); }
    hide RefreshAlike, CodeAlike;
    TablesSwept(s, u, now, a, b);
  }

  lemma RefreshRevoked(s: Db, u: Db, now: Time, id: string, k: string)
    requires RefreshAlike(s, u, now, k) && RefreshAlike(s, u, now, id)
    ensures RefreshAlike(RevokeRefresh(s, id, now), RevokeRefresh(u, id, now), now, k)
  {}

  lemma RevokeRefreshAlike(s: Db, u: Db, now: Time, id: string)
    requires Swept(s, u, now)
    ensures Swept(RevokeRefresh(s, id, now), RevokeRefresh(u, id, now), now)
  {
    var (a, b) := (RevokeRefresh(s, id, now), RevokeRefresh(u, id, now));
    assert a == s.(refresh := a.refresh) && b == u.(refresh := b.refresh);
    hide RevokeRefresh, RefreshAlike;
    forall k
      ensures RefreshAlike(a, b, now, k)
    {
      assert RefreshAlike(s, u, now, k) && RefreshAlike(s, u, now, id);
      RefreshRevoked(s, u, now, id, k);
    }
    forall k ensures CodeAlike(a, b, now, k) { assert CodeAlike(s, u, now, k); }
    forall k ensures AccessAlike(a, b, now, k) { assert AccessAlike(s, u, now, k); }
    hide AccessAlike, CodeAlike;
    TablesSwept(s, u, now, a, b);
  }

  lemma RevokeSessionAlike(s: Db, u: Db, now: Time, session: SessionId)
    requires Swept(s, u, now)
    requires forall id :: (id in s.refresh && id in u.refresh && u.refresh[id].revokedAt.None?
                           && u.refresh[id].session == Some(session)) ==> s.refresh[id].session.Some?
    ensures Swept(RevokeRefreshOfSession(s, session, now), RevokeRefreshOfSession(u, session, now), now)
  {
    var (a, b) := (RevokeRefreshOfSession(s, session, now), RevokeRefreshOfSession(u, session, now));
    forall k ensures CodeAlike(a, b, now, k) { assert CodeAlike(s, u, now, k); }
    forall k ensures AccessAlike(a, b, now, k) { assert AccessAlike(s, u, now, k); }
    forall k ensures RefreshAlike(a, b, now, k) { assert RefreshAlike(s, u, now, k); }
    forall k: SessionId ensures SessionAlike(a, b, now, k) { assert SessionAlike(s, u, now, k); }
  }

  lemma SweptLater(s: Db, u: Db, now: Time, now': Time)
    requires Swept(s, u, now) && now <= now'
    ensures Swept(s, u, now')
  {
    forall k ensures CodeAlike(s, u, now', k) { assert CodeAlike(s, u, now, k); }
    forall k ensures AccessAlike(s, u, now', k) { assert AccessAlike(s, u, now, k); }
    forall k ensures RefreshAlike(s, u, now', k) { assert RefreshAlike(s, u, now, k); }
    forall k: SessionId ensures SessionAlike(s, u, now', k) { assert SessionAlike(s, u, now, k); }
  }

  lemma NewSessionAlike(s: Db, u: Db, now: Time, id: SessionId, expires: Time)
    requires Swept(s, u, now) && id !in u.sessions
    ensures Swept(InsertSession(s, id, expires).0, InsertSession(u, id, expires).0, now)
  {
    var (a, b) := (InsertSession(s, id, expires).0, InsertSession(u, id, expires).0);
    assert SessionAlike(s, u, now, id);
    forall k ensures CodeAlike(a, b, now, k) { assert CodeAlike(s, u, now, k); }
    forall k ensures AccessAlike(a, b, now, k) { assert AccessAlike(s, u, now, k); }
    forall k ensures RefreshAlike(a, b, now, k) { assert RefreshAlike(s, u, now, k); }
    forall k: SessionId ensures SessionAlike(a, b, now, k) { assert SessionAlike(s, u, now, k); }
  }

  lemma TickAlike(s: World, u: World, to: Time)
    requires Alike(s, u) && u.now <= to
    ensures Alike(s.(now := to), u.(now := to))
  {
    var (s', u') := (s.(now := to), u.(now := to));
    SweptLater(s.db, u.db, u.now, to);
    HistoryLater(u.db.sessions, u.now, u.db.sessions, to, s.hist, u.hist);
    hide Swept, SameHistory;
    TablesOnly(s, u, s', u');
  }

  lemma CreateSessionAlike(s: World, u: World, id: SessionId, expires: Time)
    requires Alike(s, u) && Inv(u) && Enabled(s, CreateSession(id, expires))
    ensures Enabled(u, CreateSession(id, expires))
    ensures Alike(Apply(s, CreateSession(id, expires)), Apply(u, CreateSession(id, expires)))
  {
    var (s', u') := (Apply(s, CreateSession(id, expires)), Apply(u, CreateSession(id, expires)));
    assert id !in u.db.sessions;
    NewSessionAlike(s.db, u.db, u.now, id, expires);
    HistoryLater(u.db.sessions, u.now, u'.db.sessions, u.now, s.hist, u.hist);
    assert SameHistory(u'.db.sessions, s'.hist, u'.hist, u'.now) by {
      forall k ensures MintedAlike(u'.db.sessions, s'.hist, u'.hist, u.now, k) {
        assert MintedAlike(u'.db.sessions, s.hist, u.hist, u.now, k);
      }
    }
    hide Swept, SameHistory, Inv;
    TablesOnly(s, u, s', u');
  }

  lemma IssueCodeAlike(s: World, u: World, id: string, code: Code)
    requires Alike(s, u) && Inv(u) && Enabled(s, IssueCode(id, code)) && !Misses(s, u, IssueCode(id, code))
    ensures Enabled(u, IssueCode(id, code))
    ensures Alike(Apply(s, IssueCode(id, code)), Apply(u, IssueCode(id, code)))
  {
    var (s', u') := (Apply(s, IssueCode(id, code)), Apply(u, IssueCode(id, code)));
    assert RowsAt(u.db, u.hist, id);
    InsertCodeAlike(s.db, u.db, u.now, id, code);
    OlderSelf(u);
    assert SameHistory(u'.db.sessions, s'.hist, u'.hist, u'.now) by {
      forall k ensures MintedAlike(u'.db.sessions, s'.hist, u'.hist, u.now, k) {
        assert MintedAlike(u.db.sessions, s.hist, u.hist, u.now, k);
      }
    }
    hide Swept, SameHistory, Inv;
    TablesOnly(s, u, s', u');
  }

  lemma IssueMachineAlike(s: World, u: World, id: string, row: Access)
    requires Alike(s, u) && Inv(u) && Enabled(s, IssueMachineToken(id, row))
    ensures Enabled(u, IssueMachineToken(id, row))
    ensures Alike(Apply(s, IssueMachineToken(id, row)), Apply(u, IssueMachineToken(id, row)))
  {
    NewIdFree(s, u, id);
    var (s', u') := (Apply(s, IssueMachineToken(id, row)), Apply(u, IssueMachineToken(id, row)));
    InsertAccessAlike(s.db, u.db, u.now, id, row, row);
    OlderSelf(u);
    assert SameHistory(u'.db.sessions, s'.hist, u'.hist, u'.now) by {
      forall k ensures MintedAlike(u'.db.sessions, s'.hist, u'.hist, u.now, k) {
        assert MintedAlike(u.db.sessions, s.hist, u.hist, u.now, k);
      }
    }
    hide Swept, SameHistory, Inv;
    TablesOnly(s, u, s', u');
  }

  lemma BeginAlike(s: World, u: World, tid: Tid, call: Call)
    requires Alike(s, u) && Enabled(s, Begin(tid, call))
    ensures Enabled(u, Begin(tid, call)) && Alike(Apply(s, Begin(tid, call)), Apply(u, Begin(tid, call)))
  {
    var (s', u') := (Apply(s, Begin(tid, call)), Apply(u, Begin(tid, call)));
    assert SameHistory(u'.db.sessions, s'.hist, u'.hist, u'.now) by {
      forall k ensures MintedAlike(u'.db.sessions, s'.hist, u'.hist, u.now, k) {
        assert MintedAlike(u.db.sessions, s.hist, u.hist, u.now, k);
      }
    }
    forall t: Tid ensures CallAlike(u'.db.sessions, s', u', t) { assert CallAlike(u.db.sessions, s, u, t); }
  }

  lemma AbandonAlike(s: World, u: World, tid: Tid)
    requires Alike(s, u) && Enabled(s, Abandon(tid))
    ensures Enabled(u, Abandon(tid)) && Alike(Apply(s, Abandon(tid)), Apply(u, Abandon(tid)))
  {
    assert CallAlike(u.db.sessions, s, u, tid);
    var (s', u') := (Apply(s, Abandon(tid)), Apply(u, Abandon(tid)));
    forall t: Tid ensures CallAlike(u'.db.sessions, s', u', t) { assert CallAlike(u.db.sessions, s, u, t); }
  }

  lemma RevokesAlike(s: World, u: World, ev: Event)
    requires Alike(s, u) && !Misses(s, u, ev)
    requires ev.RevokeAccessToken? || ev.RevokeRefreshToken? || ev.RevokeSession?
    ensures Alike(Apply(s, ev), Apply(u, ev))
  {
    var (s', u') := (Apply(s, ev), Apply(u, ev));
    if ev.RevokeAccessToken? { RevokeAccessAlike(s.db, u.db, u.now, ev.id); }
    else if ev.RevokeRefreshToken? { RevokeRefreshAlike(s.db, u.db, u.now, ev.id); }
    else { RevokeSessionAlike(s.db, u.db, u.now, ev.session); }
    OlderSelf(u);
    hide Swept, SameHistory;
    TablesOnly(s, u, s', u');
  }

  lemma EventAlike(s: World, u: World, ev: Event)
    requires Alike(s, u) && Inv(u) && Enabled(s, ev) && !IsSweep(ev) && !Misses(s, u, ev)
    ensures Enabled(u, ev) && Alike(Apply(s, ev), Apply(u, ev))
  {
    assert s.now == u.now;
    hide Alike, Inv, Misses;
    match ev
    case Advance(tid, env) => AdvanceAlike(s, u, tid, env);
    case IssueCode(id, code) => IssueCodeAlike(s, u, id, code);
    case IssueMachineToken(id, row) => IssueMachineAlike(s, u, id, row);
    case CreateSession(id, expires) => CreateSessionAlike(s, u, id, expires);
    case Begin(tid, call) => BeginAlike(s, u, tid, call);
    case Abandon(tid) => AbandonAlike(s, u, tid);
    case Tick(to) => TickAlike(s, u, to);
    case RevokeAccessToken(_) => RevokesAlike(s, u, ev);
    case RevokeRefreshToken(_) => RevokesAlike(s, u, ev);
    case RevokeSession(_) => RevokesAlike(s, u, ev);
  }

  // ----- a missing row shows at once -----

  /** The step that misses its row ends in an error on the swept store and goes on on the other. */
  lemma MissedStep(s: World, u: World, tid: Tid, env: Env)
    requires Alike(s, u) && Inv(u) && Enabled(s, Advance(tid, env)) && Enabled(u, Advance(tid, env))
    requires Misses(s, u, Advance(tid, env))
    ensures Step(s.db, s.calls[tid], env).1.Done? && !Step(u.db, u.calls[tid], env).1.Done?
  {
    assert CallAlike(u.db.sessions, s, u, tid);
    NewIdFree(s, u, env.newId);
    hide Inv, Swept, SameHistory;
  }

  lemma StepShows(s: World, u: World, tid: Tid, env: Env)
    requires Alike(s, u) && Inv(u) && Enabled(s, Advance(tid, env)) && Enabled(u, Advance(tid, env))
    requires Misses(s, u, Advance(tid, env))
    ensures !Alike(Apply(s, Advance(tid, env)), Apply(u, Advance(tid, env)))
  {
    var (s', u') := (Apply(s, Advance(tid, env)), Apply(u, Advance(tid, env)));
    MissedStep(s, u, tid, env);
    hide Step, Record, Inv, Swept, SameHistory;
    assert !CallAlike(u'.db.sessions, s', u', tid);
  }

  lemma MissShows(s: World, u: World, ev: Event)
    requires Alike(s, u) && Inv(u) && Enabled(s, ev) && Enabled(u, ev) && Misses(s, u, ev)
    ensures !Alike(Apply(s, ev), Apply(u, ev))
  {
    var (s', u') := (Apply(s, ev), Apply(u, ev));
    if ev.Advance? {
      StepShows(s, u, ev.tid, ev.env);
    } else if ev.IssueCode? {
      assert RowsAt(u.db, u.hist, ev.id);
      assert ev.id in u'.hist.codes && ev.id !in s'.hist.codes;
    } else {
      var id :| id in s.db.refresh && id in u.db.refresh && u.db.refresh[id].revokedAt.None?
                && u.db.refresh[id].session == Some(ev.session) && s.db.refresh[id].session.None?;
      assert RefreshAlike(s.db, u.db, u.now, id);
      assert !RefreshAlike(s'.db, u'.db, u'.now, id);
    }
  }

  /** Main result, for any run and its sweeps: the swept and the unswept store stay alike, answers included, exactly
      when no statement of the run needs a row that a sweep took. */
  lemma {:induction false} AlikeUnlessMissed(s: World, u: World, evs: seq<Event>)
    requires Alike(s, u) && Inv(u) && ValidRun(s, evs)
    ensures StayAlike(s, u, evs) <==> NeverMisses(s, u, evs)
    decreases |evs|
  {
    hide Alike, Inv, Misses, Apply, Enabled;
    if evs != [] {
      var ev := evs[0];
      if IsSweep(ev) {
        SweepAlike(s, u, ev);
        AlikeUnlessMissed(Apply(s, ev), u, evs[1..]);
      } else if Misses(s, u, ev) {
        if Enabled(u, ev) {
          MissShows(s, u, ev);
          Ends(Apply(s, ev), Apply(u, ev), evs[1..]);
        }
      } else {
        EventAlike(s, u, ev);
        Keeps(u, ev);
        AlikeUnlessMissed(Apply(s, ev), Apply(u, ev), evs[1..]);
      }
    }
  }

  lemma Ends(s: World, u: World, evs: seq<Event>)
    requires !Alike(s, u)
    ensures !StayAlike(s, u, evs)
  {}

  // ----- the condition on a run without sweeps -----

  /** The statement succeeds on a row, or on the session it refers to, that expired more than an hour ago. */
  ghost predicate Notices(u: World, ev: Event) {
    match ev
    case IssueCode(id, code) => InsertCode(u.db, id, code).1 && Dead(u.db.sessions, code.session, u.now)
    case RevokeSession(session) =>
      && Dead(u.db.sessions, session, u.now)
      && exists id :: id in u.db.refresh && u.db.refresh[id].revokedAt.None? &&
          u.db.refresh[id].session == Some(session)
    case Advance(tid, _) =>
      tid in u.calls &&
      (match u.calls[tid]
       case ExchangeStart(_, code, _, _) =>
         ConsumeCode(u.db, code, u.now).1.Some? && Dead(u.db.sessions, u.db.codes[code].session, u.now)
       case RefreshRotate(_, token, _, _) =>
         RotateRefresh(u.db, token, u.now).1 && u.db.refresh[token].expiresAt < u.now - HOUR
       case IssueAccess(g) => g.session.Some? && Dead(u.db.sessions, g.session.value, u.now)
       case IssueRefresh(g, _, _) => g.session.Some? && Dead(u.db.sessions, g.session.value, u.now)
       case _ => false)
    case _ => false
  }

  ghost predicate NeverNotices(u: World, evs: seq<Event>)
    requires ValidRun(u, evs)
    decreases |evs|
  {
    evs != [] ==> !Notices(u, evs[0]) && NeverNotices(Apply(u, evs[0]), evs[1..])
  }

  /** However sweeps are put into a run, up to any point of it, the two stores stay alike. */
  ghost predicate SweepsAreInvisible(u: World, evs: seq<Event>) {
    forall swept: seq<Event> :: ValidRun(u, swept) && WithoutSweeps(swept) <= evs ==> StayAlike(u, u, swept)
  }

  lemma MissIsNotice(s: World, u: World, ev: Event)
    requires Alike(s, u) && Inv(u) && Enabled(s, ev) && Misses(s, u, ev)
    ensures Notices(u, ev)
  {
    hide SameHistory;
    if ev.IssueCode? {
      assert SessionAlike(s.db, u.db, u.now, ev.code.session);
      CodeIdFree(s, u, ev);
    } else if ev.Advance? {
      assert CallAlike(u.db.sessions, s, u, ev.tid);
      var c := s.calls[ev.tid];
      if c.ExchangeStart? { assert CodeAlike(s.db, u.db, u.now, c.code); }
      else if c.RefreshRotate? { assert RefreshAlike(s.db, u.db, u.now, c.token); }
      else if c.grant.session.Some? { assert SessionAlike(s.db, u.db, u.now, c.grant.session.value); }
    } else {
      var id :| id in s.db.refresh && id in u.db.refresh && u.db.refresh[id].revokedAt.None?
                && u.db.refresh[id].session == Some(ev.session) && s.db.refresh[id].session.None?;
      assert RefreshAlike(s.db, u.db, u.now, id);
    }
  }

  lemma CodeIdFree(s: World, u: World, ev: Event)
    requires Alike(s, u) && Inv(u) && ev.IssueCode? && Enabled(s, ev)
    ensures ev.id !in u.db.codes
  {
    assert RowsAt(u.db, u.hist, ev.id);
  }

  /** The sweep that makes a statement miss its row, just before it. */
  function Spoiler(u: World, ev: Event): Event {
    if ev.Advance? && ev.tid in u.calls && u.calls[ev.tid].RefreshRotate? then SweepRefreshTable(u.now - HOUR)
    else SweepSessionTable(u.now - HOUR)
  }

  lemma NoticeIsMiss(u: World, ev: Event)
    requires Enabled(u, ev) && Notices(u, ev)
    ensures Enabled(u, Spoiler(u, ev)) && Misses(Apply(u, Spoiler(u, ev)), u, ev)
    ensures Enabled(Apply(u, Spoiler(u, ev)), ev)
  {
    if ev.RevokeSession? {
      var id :| id in u.db.refresh && u.db.refresh[id].revokedAt.None? && u.db.refresh[id].session == Some(ev.session);
      assert id in Apply(u, Spoiler(u, ev)).db.refresh;
    }
  }

  lemma {:induction false} NeverMissed(s: World, u: World, swept: seq<Event>, evs: seq<Event>)
    requires Alike(s, u) && Inv(u) && ValidRun(s, swept) && ValidRun(u, evs)
    requires WithoutSweeps(swept) <= evs && NeverNotices(u, evs)
    ensures NeverMisses(s, u, swept)
    decreases |swept|
  {
    hide Alike, Inv, Misses, Notices, Apply, Enabled;
    if swept != [] {
      var ev := swept[0];
      if IsSweep(ev) {
        SweepAlike(s, u, ev);
        NeverMissed(Apply(s, ev), u, swept[1..], evs);
      } else {
        assert WithoutSweeps(swept)[0] == ev && WithoutSweeps(swept)[1..] == WithoutSweeps(swept[1..]);
        assert evs[0] == ev && WithoutSweeps(swept[1..]) <= evs[1..];
        if Misses(s, u, ev) { MissIsNotice(s, u, ev); }
        EventAlike(s, u, ev);
        Keeps(u, ev);
        NeverMissed(Apply(s, ev), Apply(u, ev), swept[1..], evs[1..]);
      }
    }
  }

  lemma {:induction false} SomePlacementShows(u: World, evs: seq<Event>) returns (swept: seq<Event>)
    requires Inv(u) && ValidRun(u, evs) && !NeverNotices(u, evs) && WithoutSweeps(evs) == evs
    ensures ValidRun(u, swept) && WithoutSweeps(swept) <= evs && !StayAlike(u, u, swept)
    decreases |evs|
  {
    hide Alike, Inv, Misses, Notices, Apply, Enabled;
    var ev := evs[0];
    NoSweepFirst(evs);
    if Notices(u, ev) {
      var x := Spoiler(u, ev);
      NoticeIsMiss(u, ev);
      Reflexive(u);
      SweepAlike(u, u, x);
      var s := Apply(u, x);
      MissShows(s, u, ev);
      swept := [x, ev];
      assert swept[1..] == [ev] && [ev][1..] == [];
      Ends(Apply(s, ev), Apply(u, ev), []);
      assert ValidRun(Apply(s, ev), []) && ValidRun(s, [ev]);
      assert !StayAlike(s, u, [ev]);
      assert WithoutSweeps([ev]) == [ev] + WithoutSweeps([]);
    } else {
      Keeps(u, ev);
      var rest := SomePlacementShows(Apply(u, ev), evs[1..]);
      swept := [ev] + rest;
      assert swept[1..] == rest;
    }
  }

  lemma NoSweepFirst(evs: seq<Event>)
    requires evs != [] && WithoutSweeps(evs) == evs
    ensures !IsSweep(evs[0]) && WithoutSweeps(evs[1..]) == evs[1..]
  {
    WithoutSweepsShorter(evs[1..]);
    if !IsSweep(evs[0]) { assert WithoutSweeps(evs)[1..] == WithoutSweeps(evs[1..]); }
  }

  lemma {:induction false} WithoutSweepsShorter(evs: seq<Event>)
    ensures |WithoutSweeps(evs)| <= |evs|
    decreases |evs|
  {
    if evs != [] { WithoutSweepsShorter(evs[1..]); }
  }

  /** Main result, for every timing of the sweeps: a run cannot notice them exactly when each code redemption, each
      insert that names a session and each revocation by session succeeds, if at all, within an hour of that session's
      expiry, and each rotation within an hour of the token's. */
  lemma InvisibleIff(u: World, evs: seq<Event>)
    requires Inv(u) && ValidRun(u, evs) && WithoutSweeps(evs) == evs
    ensures SweepsAreInvisible(u, evs) <==> NeverNotices(u, evs)
  {
    if NeverNotices(u, evs) {
      forall swept: seq<Event> | ValidRun(u, swept) && WithoutSweeps(swept) <= evs
        ensures StayAlike(u, u, swept)
      {
        Reflexive(u);
        NeverMissed(u, u, swept, evs);
        AlikeUnlessMissed(u, u, swept);
      }
    } else {
      var swept := SomePlacementShows(u, evs);
    }
  }

  // ----- what it costs -----

  /** A refresh that takes milliseconds, over the moment at which its session has been expired for an hour: the token
      is read, the session sweep runs, the rotation succeeds, and the insert that follows fails.  The token is rotated
      and has no successor.  Without the sweep the same call goes on to its tokens. */
  lemma RefreshLosesItsFamily(db: Db, client: Client, token: string, session: SessionId, now: Time, id: string)
    requires token in db.refresh && session in db.sessions && db.sessions[session] == now - HOUR
    requires var row := db.refresh[token];
             && row.client == client.id && row.session == Some(session) && row.expiresAt > now
             && row.rotatedAt.None? && row.revokedAt.None?
    requires "refresh_token" in client.grants && id !in db.access
    requires forall x :: x in db.refresh ==> db.refresh[x].previous != Some(token)
    ensures var e0, e1 := Env(now, id, true), Env(now + 1, id, true);
            var read := Step(db, RefreshStart(client, token, []), e0).1;
            var checked := Step(db, read, e0).1;
            var swept := SweepSessions(db, now + 1 - HOUR);
            var (s, onSwept) := Step(swept, checked, e1);
            var (u, onUnswept) := Step(db, checked, e1);
            && Step(s, onSwept, e1) == (s, Done(Err(ServerError)))
            && token in s.refresh && s.refresh[token].rotatedAt.Some?
            && (forall x :: x in s.refresh ==> s.refresh[x].previous != Some(token))
            && (Step(u, onUnswept, e1).1.IssueRefresh? || Step(u, onUnswept, e1).1.Mint?)
  {
    var row := db.refresh[token];
    var e0, e1 := Env(now, id, true), Env(now + 1, id, true);
    assert Step(db, RefreshStart(client, token, []), e0).1 == RefreshRead(client, token, [], row);
    assert RefreshError(client, [], row).None?;
    assert Step(db, RefreshRead(client, token, [], row), e0).1 == RefreshRotate(client, token, [], row);
    var swept := SweepSessions(db, now + 1 - HOUR);
    assert session !in swept.sessions;
  }

  /** Every validity question gets the same answer, session_id apart.  Ids carry the prefix of their table, so no id is
      in both token tables; only introspection needs that.  A code answers alike unless it outlives its session by more
      than an hour. */
  lemma AnswersAlike(s: Db, u: Db, id: string, hint: string, now: Time)
    requires Swept(s, u, now)
    ensures (id in u.codes ==> !Dead(u.sessions, u.codes[id].session, now)) ==>
              ConsumeCode(s, id, now).1 == ConsumeCode(u, id, now).1
    ensures GetAccess(s, id, now).Some? <==> GetAccess(u, id, now).Some?
    ensures GetRefresh(s, id, now).Some? <==> GetRefresh(u, id, now).Some?
    ensures id !in u.access || id !in u.refresh ==>
              && (Introspect(s, id, hint, now).Inactive? <==> Introspect(u, id, hint, now).Inactive?)
              && (Introspect(s, id, hint, now).ActiveAccess? <==> Introspect(u, id, hint, now).ActiveAccess?)
  {
    assert CodeAlike(s, u, now, id) && AccessAlike(s, u, now, id) && RefreshAlike(s, u, now, id);
  }

  /** A rotation this late succeeds on the unswept table and fails on the swept one. */
  lemma LateRotationNotices(u: Db, id: string, now: Time)
    requires id in u.refresh && u.refresh[id].rotatedAt.None? && u.refresh[id].revokedAt.None?
    ensures RotateRefresh(u, id, now).1
    ensures RotateRefresh(SweepAll(u, now - HOUR), id, now).1 <==> u.refresh[id].expiresAt >= now - HOUR
  {}
}
