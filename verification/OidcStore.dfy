/** The statements of internal/store/postgres/oidc.go over the code, access-token
    and refresh-token tables, and those of internal/store/postgres/sessions.go that these
    tables feel through their foreign keys.  Every statement is one atomic function of the
    whole store; `Store` is the object whose methods run them. */
module OidcStore {
  import opened Common

  type UserId = nat
  type SessionId = nat

  const HOUR: Time := 3600

  datatype Code = Code(
    client: string, user: UserId, session: SessionId, redirect: string,
    scopes: seq<string>, challenge: Option<string>, acr: string, authTime: Time,
    expiresAt: Time, consumedAt: Option<Time>)

  datatype Access = Access(
    client: string, user: Option<UserId>, session: Option<SessionId>,
    scopes: seq<string>, expiresAt: Time, revokedAt: Option<Time>, createdAt: Time)

  datatype Refresh = Refresh(
    client: string, user: UserId, session: Option<SessionId>, scopes: seq<string>,
    previous: Option<string>, expiresAt: Time, rotatedAt: Option<Time>,
    revokedAt: Option<Time>, createdAt: Time)

  /** Of a session row only its presence and its expiry matter here. */
  datatype Db = Db(
    codes: map<string, Code>, access: map<string, Access>, refresh: map<string, Refresh>,
    sessions: map<SessionId, Time>)

  /** UPDATE .. SET consumed_at = now() WHERE consumed_at IS NULL AND expires_at > now() RETURNING .. */
  function ConsumeCode(db: Db, id: string, now: Time): (Db, Option<Code>) {
    if id in db.codes && db.codes[id].consumedAt.None? && db.codes[id].expiresAt > now then
      var row := db.codes[id].(consumedAt := Some(now));
      (db.(codes := db.codes[id := row]), Some(row))
    else (db, None)
  }

  /** The session_id foreign key: NULL or a row that is there. */
  predicate Refers(db: Db, session: Option<SessionId>) { session.None? || session.value in db.sessions }

  /** INSERT; a duplicate primary key or a missing session row is an error and changes nothing. */
  function InsertCode(db: Db, id: string, row: Code): (Db, bool) {
    if id in db.codes || !Refers(db, Some(row.session)) then (db, false)
    else (db.(codes := db.codes[id := row]), true)
  }

  function InsertAccess(db: Db, id: string, row: Access): (Db, bool) {
    if id in db.access || !Refers(db, row.session) then (db, false)
    else (db.(access := db.access[id := row]), true)
  }

  function InsertRefresh(db: Db, id: string, row: Refresh): (Db, bool) {
    if id in db.refresh || !Refers(db, row.session) then (db, false)
    else (db.(refresh := db.refresh[id := row]), true)
  }

  function InsertSession(db: Db, id: SessionId, expires: Time): (Db, bool) {
    if id in db.sessions then (db, false) else (db.(sessions := db.sessions[id := expires]), true)
  }

  function GetAccess(db: Db, id: string, now: Time): Option<Access> {
    if id in db.access && db.access[id].revokedAt.None? && db.access[id].expiresAt > now
    then Some(db.access[id]) else None
  }

  function GetAccessAny(db: Db, id: string): Option<Access> {
    if id in db.access then Some(db.access[id]) else None
  }

  function GetRefresh(db: Db, id: string, now: Time): Option<Refresh> {
    if id in db.refresh && db.refresh[id].revokedAt.None? && db.refresh[id].rotatedAt.None?
       && db.refresh[id].expiresAt > now
    then Some(db.refresh[id]) else None
  }

  /** Rotation tests rotated_at and revoked_at but, unlike the read, not expires_at. */
  function RotateRefresh(db: Db, id: string, now: Time): (Db, bool) {
    if id in db.refresh && db.refresh[id].rotatedAt.None? && db.refresh[id].revokedAt.None? then
      (db.(refresh := db.refresh[id := db.refresh[id].(rotatedAt := Some(now))]), true)
    else (db, false)
  }

  function RevokeAccess(db: Db, id: string, now: Time): Db {
    if id in db.access && db.access[id].revokedAt.None? then
      db.(access := db.access[id := db.access[id].(revokedAt := Some(now))])
    else db
  }

  function RevokeRefresh(db: Db, id: string, now: Time): Db {
    if id in db.refresh && db.refresh[id].revokedAt.None? then
      db.(refresh := db.refresh[id := db.refresh[id].(revokedAt := Some(now))])
    else db
  }

  function RevokedIf(row: Refresh, session: SessionId, now: Time): Refresh {
    if row.session == Some(session) && row.revokedAt.None? then row.(revokedAt := Some(now)) else row
  }

  function RevokeRefreshOfSession(db: Db, session: SessionId, now: Time): Db {
    db.(refresh := map id | id in db.refresh :: RevokedIf(db.refresh[id], session, now))
  }

  predicate Overdue(db: Db, session: SessionId, cutoff: Time) {
    session in db.sessions && db.sessions[session] < cutoff
  }

  function Detach(db: Db, session: Option<SessionId>, cutoff: Time): Option<SessionId> {
    if session.Some? && Overdue(db, session.value, cutoff) then None else session
  }

  /** DELETE FROM sessions, with what the foreign keys do: the codes of a deleted session go
      with it, its tokens stay with session_id set to NULL. */
  function SweepSessions(db: Db, cutoff: Time): Db {
    Db(map id | id in db.codes && !Overdue(db, db.codes[id].session, cutoff) :: db.codes[id],
       map id | id in db.access :: db.access[id].(session := Detach(db, db.access[id].session, cutoff)),
       map id | id in db.refresh :: db.refresh[id].(session := Detach(db, db.refresh[id].session, cutoff)),
       map id | id in db.sessions && !Overdue(db, id, cutoff) :: db.sessions[id])
  }

  function SweepCodes(db: Db, cutoff: Time): Db {
    db.(codes := map id | id in db.codes && db.codes[id].expiresAt >= cutoff :: db.codes[id])
  }

  function SweepAccess(db: Db, cutoff: Time): Db {
    db.(access := map id | id in db.access && db.access[id].expiresAt >= cutoff :: db.access[id])
  }

  function SweepRefresh(db: Db, cutoff: Time): Db {
    db.(refresh := map id | id in db.refresh && db.refresh[id].expiresAt >= cutoff :: db.refresh[id])
  }

  function SweepAll(db: Db, cutoff: Time): Db {
    SweepRefresh(SweepAccess(SweepCodes(db, cutoff), cutoff), cutoff)
  }

  function Rows(db: Db): nat { |db.codes| + |db.access| + |db.refresh| }

  class Store {
    var codes: map<string, Code>
    var access: map<string, Access>
    var refresh: map<string, Refresh>
    var sessions: map<SessionId, Time>

    ghost function State(): Db
      reads this
    {
      Db(codes, access, refresh, sessions)
    }

    constructor ()
      ensures State() == Db(map[], map[], map[], map[])
    {
      codes, access, refresh, sessions := map[], map[], map[], map[];
    }

    method CreateOIDCAuthCode(id: string, row: Code) returns (ok: bool)
      modifies this`codes
      ensures (State(), ok) == InsertCode(old(State()), id, row)
      ensures ok <==> id !in old(codes) && row.session in sessions
      ensures codes == if ok then old(codes)[id := row] else old(codes)
    {
      ok := id !in codes && row.session in sessions;
      if ok { codes := codes[id := row]; }
    }

    method ConsumeOIDCAuthCode(id: string, now: Time) returns (r: Option<Code>)
      modifies this`codes
      ensures (State(), r) == ConsumeCode(old(State()), id, now)
      ensures r.Some? <==> id in old(codes) && old(codes)[id].consumedAt == None && now < old(codes)[id].expiresAt
      ensures r.Some? ==> r.value == old(codes)[id].(consumedAt := Some(now)) && codes == old(codes)[id := r.value]
      ensures r.None? ==> codes == old(codes)
    {
      if id !in codes || codes[id].consumedAt.Some? || codes[id].expiresAt <= now {
        return None;
      }
      codes := codes[id := codes[id].(consumedAt := Some(now))];
      r := Some(codes[id]);
    }

    method CreateOIDCAccessToken(id: string, row: Access) returns (ok: bool)
      modifies this`access
      ensures (State(), ok) == InsertAccess(old(State()), id, row)
      ensures ok <==> id !in old(access) && (row.session == None || row.session.value in sessions)
      ensures access == if ok then old(access)[id := row] else old(access)
    {
      ok := id !in access && (row.session.None? || row.session.value in sessions);
      if ok { access := access[id := row]; }
    }

    method CreateOIDCRefreshToken(id: string, row: Refresh) returns (ok: bool)
      modifies this`refresh
      ensures (State(), ok) == InsertRefresh(old(State()), id, row)
      ensures ok <==> id !in old(refresh) && (row.session == None || row.session.value in sessions)
      ensures refresh == if ok then old(refresh)[id := row] else old(refresh)
    {
      ok := id !in refresh && (row.session.None? || row.session.value in sessions);
      if ok { refresh := refresh[id := row]; }
    }

    method GetOIDCRefreshToken(id: string, now: Time) returns (r: Option<Refresh>)
      ensures r == GetRefresh(State(), id, now)
      ensures r.Some? <==>
                && id in refresh && refresh[id].revokedAt == None && refresh[id].rotatedAt == None
                && now < refresh[id].expiresAt
      ensures r.Some? ==> r.value == refresh[id]
    {
      if id in refresh {
        var row := refresh[id];
        if row.revokedAt.None? && row.rotatedAt.None? && now < row.expiresAt { return Some(row); }
      }
      r := None;
    }

    method RotateOIDCRefreshToken(id: string, now: Time) returns (ok: bool)
      modifies this`refresh
      ensures (State(), ok) == RotateRefresh(old(State()), id, now)
      ensures ok <==> id in old(refresh) && old(refresh)[id].rotatedAt == None && old(refresh)[id].revokedAt == None
      ensures refresh == if ok then old(refresh)[id := old(refresh)[id].(rotatedAt := Some(now))] else old(refresh)
    {
      ok := id in refresh && refresh[id].rotatedAt.None? && refresh[id].revokedAt.None?;
      if ok { refresh := refresh[id := refresh[id].(rotatedAt := Some(now))]; }
    }

    method RevokeOIDCAccessToken(id: string, now: Time)
      modifies this`access
      ensures State() == RevokeAccess(old(State()), id, now)
    {
      if id in access && access[id].revokedAt.None? {
        access := access[id := access[id].(revokedAt := Some(now))];
      }
    }

    method RevokeOIDCRefreshToken(id: string, now: Time)
      modifies this`refresh
      ensures State() == RevokeRefresh(old(State()), id, now)
    {
      if id in refresh && refresh[id].revokedAt.None? {
        refresh := refresh[id := refresh[id].(revokedAt := Some(now))];
      }
    }

    /** Three deletes in order with a running total of the rows they removed. */
    method DeleteExpiredOIDCTokens(now: Time) returns (total: int)
      modifies this
      ensures State() == SweepAll(old(State()), now - HOUR)
      ensures total == Rows(old(State())) - Rows(State())
      ensures codes == (map id | id in old(codes) && old(codes)[id].expiresAt >= now - 3600 :: old(codes)[id])
      ensures access == (map id | id in old(access) && old(access)[id].expiresAt >= now - 3600 :: old(access)[id])
      ensures refresh == (map id | id in old(refresh) && old(refresh)[id].expiresAt >= now - 3600 :: old(refresh)[id])
    {
      var cutoff := now - HOUR;
      total := 0;
      var q := 0;
      while q < 3
        invariant 0 <= q <= 3
        invariant State() == (
          if q == 0 then old(State())
          else if q == 1 then SweepCodes(old(State()), cutoff)
          else if q == 2 then SweepAccess(SweepCodes(old(State()), cutoff), cutoff)
          else SweepAll(old(State()), cutoff))
        invariant total == Rows(old(State())) - Rows(State())
      {
        if q == 0 {
          var kept := map id | id in codes && codes[id].expiresAt >= cutoff :: codes[id];
          total, codes := total + (|codes| - |kept|), kept;
        } else if q == 1 {
          var kept := map id | id in access && access[id].expiresAt >= cutoff :: access[id];
          total, access := total + (|access| - |kept|), kept;
        } else {
          var kept := map id | id in refresh && refresh[id].expiresAt >= cutoff :: refresh[id];
          total, refresh := total + (|refresh| - |kept|), kept;
        }
        q := q + 1;
      }
    }

    method CreateSession(id: SessionId, expires: Time) returns (ok: bool)
      modifies this`sessions
      ensures (State(), ok) == InsertSession(old(State()), id, expires)
      ensures ok <==> id !in old(sessions)
      ensures sessions == if ok then old(sessions)[id := expires] else old(sessions)
    {
      ok := id !in sessions;
      if ok { sessions := sessions[id := expires]; }
    }

    /** One statement; the database carries out the foreign-key actions. */
    method DeleteExpiredSessions(now: Time) returns (total: int)
      modifies this
      ensures State() == SweepSessions(old(State()), now - HOUR)
      ensures total == |old(sessions)| - |sessions|
      ensures sessions == (map id | id in old(sessions) && old(sessions)[id] >= now - 3600 :: old(sessions)[id])
      ensures forall id :: id in codes <==>
                id in old(codes) && !(old(codes)[id].session in old(sessions) && old(codes)[id].session !in sessions)
      ensures forall id :: id in codes ==> codes[id] == old(codes)[id]
      ensures access.Keys == old(access).Keys && refresh.Keys == old(refresh).Keys
      ensures forall id :: id in access ==>
                var session := old(access)[id].session;
                var gone := session.Some? && session.value in old(sessions) && session.value !in sessions;
                access[id] == old(access)[id].(session := if gone then None else session)
      ensures forall id :: id in refresh ==>
                var session := old(refresh)[id].session;
                var gone := session.Some? && session.value in old(sessions) && session.value !in sessions;
                refresh[id] == old(refresh)[id].(session := if gone then None else session)
    {
      var before, cutoff := Db(codes, access, refresh, sessions), now - HOUR;
      codes := map id | id in codes && !Overdue(before, codes[id].session, cutoff) :: codes[id];
      access := map id | id in access :: access[id].(session := Detach(before, access[id].session, cutoff));
      refresh := map id | id in refresh :: refresh[id].(session := Detach(before, refresh[id].session, cutoff));
      sessions := map id | id in sessions && !Overdue(before, id, cutoff) :: sessions[id];
      total := |before.sessions| - |sessions|;
    }
  }
}
