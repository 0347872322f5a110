/** CAS service tickets (section 3.1.1 of the CAS Protocol 3.0 specification): internal/auth/cas/service.go
    over the statements of internal/store/postgres/cas.go and sessions.go.  `norm` is normalizeServiceURL:
    nothing is assumed about it. */
module CasTickets {
  import opened Common

  const TICKET_TTL: Time := 60
  const HOUR: Time := 3600

  type SessionId = nat
  type UserId = nat

  datatype Ticket = Ticket(session: SessionId, url: string, expiresAt: Time, consumedAt: Option<Time>, renew: bool)
  datatype Session = Session(user: UserId, expiresAt: Time, revokedAt: Option<Time>, acr: string)
  datatype Db = Db(tickets: map<string, Ticket>, sessions: map<SessionId, Session>)

  datatype Error = InvalidTicket | ServiceMismatch | UserGone | Abandoned
  datatype Verdict = Valid(ticket: Ticket, session: Session, readAt: Time) | Bad(error: Error)

  // ----- statements -----

  predicate Live(s: Session, now: Time) { s.revokedAt.None? && s.expiresAt > now }

  /** cas_tickets.session_id references sessions(id). */
  function CreateTicket(db: Db, id: string, t: Ticket): (Db, bool) {
    if id in db.tickets || t.session !in db.sessions then (db, false)
    else (db.(tickets := db.tickets[id := t]), true)
  }

  function ConsumeTicket(db: Db, id: string, now: Time): (Db, Option<Ticket>) {
    if id in db.tickets && db.tickets[id].consumedAt.None? && db.tickets[id].expiresAt > now then
      var t := db.tickets[id].(consumedAt := Some(now));
      (db.(tickets := db.tickets[id := t]), Some(t))
    else (db, None)
  }

  function GetActiveSession(db: Db, id: SessionId, now: Time): Option<Session> {
    if id in db.sessions && Live(db.sessions[id], now) then Some(db.sessions[id]) else None
  }

  function Revoke(db: Db, id: SessionId, now: Time): Db {
    if id in db.sessions && db.sessions[id].revokedAt.None? then
      db.(sessions := db.sessions[id := db.sessions[id].(revokedAt := Some(now))])
    else db
  }

  function SweepTickets(db: Db, cutoff: Time): Db {
    db.(tickets := map id | id in db.tickets && db.tickets[id].expiresAt >= cutoff :: db.tickets[id])
  }

  /** ON DELETE CASCADE takes the tickets of a deleted session along. */
  function SweepSessions(db: Db, cutoff: Time): Db {
    var kept := map id | id in db.sessions && db.sessions[id].expiresAt >= cutoff :: db.sessions[id];
    Db(map id | id in db.tickets && db.tickets[id].session in kept :: db.tickets[id], kept)
  }

  // ----- Validate, one statement at a time -----

  predicate Prefixed(id: string) { "ST-" <= id }

  datatype Call =
    | Start(ticket: string, url: string)
    | Consumed(ticket: string, url: string, row: Ticket)
    | Loaded(ticket: string, url: string, row: Ticket, session: Session, readAt: Time)
    | Done(verdict: Verdict)

  datatype Env = Env(now: Time, userLive: bool)

  function Step(norm: string -> string, db: Db, c: Call, env: Env): (Db, Call) {
    match c
    case Start(ticket, url) =>
      if !Prefixed(ticket) then (db, Done(Bad(InvalidTicket)))
      else
        var (db', row) := ConsumeTicket(db, ticket, env.now);
        (db', if row.None? then Done(Bad(InvalidTicket)) else Consumed(ticket, url, row.value))
    case Consumed(ticket, url, row) =>
      if row.url != norm(url) then (db, Done(Bad(ServiceMismatch)))
      else
        var s := GetActiveSession(db, row.session, env.now);
        (db, if s.None? then Done(Bad(InvalidTicket)) else Loaded(ticket, url, row, s.value, env.now))
    case Loaded(_, _, row, session, readAt) =>
      (db, Done(if env.userLive then Valid(row, session, readAt) else Bad(UserGone)))
    case Done(_) => (db, c)
  }

  /** Validate with nothing in between its statements. */
  function Alone(norm: string -> string, db: Db, ticket: string, url: string, env: Env): (Db, Verdict) {
    if !Prefixed(ticket) || ConsumeTicket(db, ticket, env.now).1.None? then (db, Bad(InvalidTicket))
    else
      var (db', row) := ConsumeTicket(db, ticket, env.now);
      (db',
       if row.value.url != norm(url) then Bad(ServiceMismatch)
       else
         var s := GetActiveSession(db', row.value.session, env.now);
         if s.None? then Bad(InvalidTicket)
         else if env.userLive then Valid(row.value, s.value, env.now)
         else Bad(UserGone))
  }

  predicate LiveTicket(db: Db, ticket: string, now: Time) {
    && "ST-" <= ticket && ticket in db.tickets && db.tickets[ticket].consumedAt == None
    && now < db.tickets[ticket].expiresAt
  }

  predicate LiveSession(db: Db, id: SessionId, now: Time) {
    id in db.sessions && db.sessions[id].revokedAt == None && now < db.sessions[id].expiresAt
  }

  /** What a validation with nobody in between answers, when, and what it leaves: the ticket used up whatever
      follows. */
  ghost predicate Outcome(norm: string -> string, db: Db, ticket: string, url: string, env: Env, db': Db, v: Verdict) {
    var there := LiveTicket(db, ticket, env.now);
    var own := there && db.tickets[ticket].url == norm(url);
    var live := own && LiveSession(db, db.tickets[ticket].session, env.now);
    && (v.Valid? <==> live && env.userLive)
    && (v == Bad(InvalidTicket) <==> !there || (own && !live))
    && (v == Bad(ServiceMismatch) <==> there && !own)
    && (v == Bad(UserGone) <==> live && !env.userLive)
    && db'.sessions == db.sessions
    && (there ==>
          var row := db.tickets[ticket].(consumedAt := Some(env.now));
          && db'.tickets == db.tickets[ticket := row]
          && (v.Valid? ==> v == Valid(row, db.sessions[row.session], env.now)))
    && (!there ==> db'.tickets == db.tickets)
  }

  /** Main result on one validation: the exact condition of every answer. */
  lemma AloneOutcome(norm: string -> string, db: Db, ticket: string, url: string, env: Env)
    ensures var (db', v) := Alone(norm, db, ticket, url, env); Outcome(norm, db, ticket, url, env, db', v)
  {}

  class Service {
    const norm: string -> string
    var db: Db

    constructor (norm: string -> string)
      ensures this.norm == norm && db == Db(map[], map[])
    {
      this.norm := norm;
      db := Db(map[], map[]);
    }

    method IssueServiceTicket(token: string, session: SessionId, url: string, renew: bool, now: Time)
      returns (id: Option<string>)
      modifies this
      ensures var row := Ticket(session, url, now + TICKET_TTL, None, renew);
              var (db', ok) := CreateTicket(old(db), "ST-" + token, row);
              db == db' && id == if ok then Some("ST-" + token) else None
      ensures id.Some? <==> "ST-" + token !in old(db).tickets && session in old(db).sessions
      ensures id.Some? ==> db.tickets == old(db).tickets[id.value := Ticket(session, url, now + 60, None, renew)]
    {
      var t := "ST-" + token;
      if t in db.tickets || session !in db.sessions { return None; }
      db := db.(tickets := db.tickets[t := Ticket(session, url, now + TICKET_TTL, None, renew)]);
      id := Some(t);
    }

    method ConsumeCASTicket(id: string, now: Time) returns (row: Option<Ticket>)
      modifies this
      ensures (db, row) == ConsumeTicket(old(db), id, now)
    {
      if id !in db.tickets || db.tickets[id].consumedAt.Some? || db.tickets[id].expiresAt <= now { return None; }
      var t := db.tickets[id].(consumedAt := Some(now));
      db := db.(tickets := db.tickets[id := t]);
      row := Some(t);
    }

    method RevokeSession(id: SessionId, now: Time)
      modifies this
      ensures db == Revoke(old(db), id, now)
      ensures db.tickets == old(db).tickets && db.sessions.Keys == old(db).sessions.Keys
      ensures forall s :: s in db.sessions ==>
                var row := old(db).sessions[s];
                db.sessions[s] == if s == id && row.revokedAt == None then row.(revokedAt := Some(now)) else row
    {
      if id in db.sessions && db.sessions[id].revokedAt.None? {
        db := db.(sessions := db.sessions[id := db.sessions[id].(revokedAt := Some(now))]);
      }
    }

    method DeleteExpiredCASTickets(now: Time) returns (total: int)
      modifies this
      ensures db == SweepTickets(old(db), now - HOUR)
      ensures total == |old(db).tickets| - |db.tickets| && db.sessions == old(db).sessions
      ensures forall id :: id in db.tickets <==> id in old(db).tickets && now - 3600 <= old(db).tickets[id].expiresAt
      ensures forall id :: id in db.tickets ==> db.tickets[id] == old(db).tickets[id]
    {
      var kept := map id | id in db.tickets && db.tickets[id].expiresAt >= now - HOUR :: db.tickets[id];
      total := |db.tickets| - |kept|;
      db := db.(tickets := kept);
    }

    method Validate(ticket: string, url: string, env: Env) returns (v: Verdict)
      modifies this
      ensures (db, v) == Alone(norm, old(db), ticket, url, env)
      ensures Outcome(norm, old(db), ticket, url, env, db, v)
    {
      if !("ST-" <= ticket) { return Bad(InvalidTicket); }
      var t := ConsumeCASTicket(ticket, env.now);
      if t.None? { return Bad(InvalidTicket); }
      if t.value.url != norm(url) { return Bad(ServiceMismatch); }
      var s := GetActiveSession(db, t.value.session, env.now);
      if s.None? { return Bad(InvalidTicket); }
      v := if env.userLive then Valid(t.value, s.value, env.now) else Bad(UserGone);
    }
  }

  /** A call left alone takes at most three steps and answers as the class does. */
  lemma AloneIsThreeSteps(norm: string -> string, db: Db, ticket: string, url: string, env: Env)
    ensures var (d1, c1) := Step(norm, db, Start(ticket, url), env);
            var (d2, c2) := Step(norm, d1, c1, env);
            var (d3, c3) := Step(norm, d2, c2, env);
            c3.Done? && (d3, c3.verdict) == Alone(norm, db, ticket, url, env)
  {}

  // ----- many calls at once -----

  type Tid = nat

  datatype Spend = Spend(ticket: string, at: Time)
  datatype History = History(tickets: map<string, Ticket>, sessions: map<SessionId, Session>,
                             begun: map<Tid, Call>, spent: map<Tid, Spend>,
                             vouched: set<Tid>)    // calls that found a live user at their last statement
  datatype World = World(db: Db, now: Time, calls: map<Tid, Call>, hist: History)

  datatype Event =
    | Tick(to: Time)
    | Login(who: SessionId, row: Session)
    | Logout(who: SessionId)
    | Issue(id: string, session: SessionId, url: string, renew: bool)
    | Begin(tid: Tid, ticket: string, url: string)
    | Advance(tid: Tid, userLive: bool)
    | Abandon(tid: Tid)
    | TicketSweep(cutoff: Time)
    | SessionSweep(cutoff: Time)

  predicate Enabled(w: World, ev: Event) {
    match ev
    case Tick(to) => w.now <= to
    case Login(id, s) => id !in w.hist.sessions && s.revokedAt.None?
    case Issue(id, session, _, _) => id !in w.hist.tickets && Prefixed(id) && session in w.hist.sessions
    case Begin(tid, _, _) => tid !in w.hist.begun
    case Advance(tid, _) => tid in w.calls
    case Abandon(tid) => tid in w.calls
    case TicketSweep(cutoff) => cutoff <= w.now - HOUR
    case SessionSweep(cutoff) => cutoff <= w.now - HOUR
    case Logout(_) => true
  }

  function IssuedTicket(w: World, ev: Event): Ticket
    requires ev.Issue?
  {
    Ticket(ev.session, ev.url, w.now + TICKET_TTL, None, ev.renew)
  }

  function Apply(norm: string -> string, w: World, ev: Event): World
    requires Enabled(w, ev)
  {
    match ev
    case Tick(to) => w.(now := to)
    case Login(id, s) =>
      w.(db := w.db.(sessions := w.db.sessions[id := s]), hist := w.hist.(sessions := w.hist.sessions[id := s]))
    case Logout(id) => w.(db := Revoke(w.db, id, w.now))
    case Issue(id, session, url, renew) =>
      var (db, ok) := CreateTicket(w.db, id, IssuedTicket(w, ev));
      if ok then w.(db := db, hist := w.hist.(tickets := w.hist.tickets[id := IssuedTicket(w, ev)])) else w
    case Begin(tid, ticket, url) =>
      var c := Start(ticket, url);
      w.(calls := w.calls[tid := c], hist := w.hist.(begun := w.hist.begun[tid := c]))
    case Advance(tid, userLive) =>
      var c := w.calls[tid];
      var (db, c') := Step(norm, w.db, c, Env(w.now, userLive));
      World(db, w.now, w.calls[tid := c'],
            if c.Start? && c'.Consumed? then w.hist.(spent := w.hist.spent[tid := Spend(c.ticket, w.now)])
            else if c.Loaded? && userLive then w.hist.(vouched := w.hist.vouched + {tid})
            else w.hist)
    case Abandon(tid) => w.(calls := w.calls[tid := Done(Bad(Abandoned))])
    case TicketSweep(cutoff) => w.(db := SweepTickets(w.db, cutoff))
    case SessionSweep(cutoff) => w.(db := SweepSessions(w.db, cutoff))
  }

  predicate ValidRun(norm: string -> string, w: World, evs: seq<Event>)
    decreases |evs|
  {
    evs == [] || (Enabled(w, evs[0]) && ValidRun(norm, Apply(norm, w, evs[0]), evs[1..]))
  }

  function Run(norm: string -> string, w: World, evs: seq<Event>): World
    requires ValidRun(norm, w, evs)
    decreases |evs|
  {
    if evs == [] then w else Run(norm, Apply(norm, w, evs[0]), evs[1..])
  }

  function Empty(now: Time): World {
    World(Db(map[], map[]), now, map[], History(map[], map[], map[], map[], {}))
  }

  // ----- what every step keeps -----

  ghost predicate TicketAt(w: World, id: string) {
    && (id in w.db.tickets ==>
          && id in w.hist.tickets && w.db.tickets[id] == w.hist.tickets[id].(consumedAt := w.db.tickets[id].consumedAt)
          && w.db.tickets[id].session in w.db.sessions)
    && (id in w.hist.tickets ==> w.hist.tickets[id].consumedAt.None? && w.hist.tickets[id].session in w.hist.sessions)
  }

  ghost predicate SessionAt(w: World, id: SessionId) {
    && (id in w.db.sessions ==>
          id in w.hist.sessions && w.db.sessions[id] == w.hist.sessions[id].(revokedAt := w.db.sessions[id].revokedAt))
    && (id in w.hist.sessions ==> w.hist.sessions[id].revokedAt.None?)
  }

  /** `row` is the ticket call `t` used up, before it expired. */
  ghost predicate Holds(h: History, t: Tid, row: Ticket) {
    && t in h.spent && t in h.begun && h.begun[t].Start? && h.begun[t].ticket == h.spent[t].ticket &&
        h.spent[t].ticket in h.tickets
    && row == h.tickets[h.spent[t].ticket].(consumedAt := Some(h.spent[t].at))
    && h.spent[t].at < row.expiresAt
  }

  /** The session and URL checks that call `t` passed. */
  ghost predicate Checked(norm: string -> string, h: History, t: Tid, row: Ticket, s: Session, readAt: Time) {
    && Holds(h, t, row) && row.url == norm(h.begun[t].url)
    && row.session in h.sessions && s == h.sessions[row.session] && Live(s, readAt) && h.spent[t].at <= readAt
  }

  ghost predicate CallAt(norm: string -> string, w: World, t: Tid) {
    && (t in w.calls <==> t in w.hist.begun)
    && (t in w.hist.spent ==> t in w.calls && !w.calls[t].Start? && w.hist.spent[t].at <= w.now)
    && (t in w.calls ==>
          match w.calls[t]
          case Start(_, _) => w.calls[t] == w.hist.begun[t]
          case Consumed(ticket, url, row) => Holds(w.hist, t, row) && w.hist.begun[t] == Start(ticket, url)
          case Loaded(_, _, row, s, readAt) => Checked(norm, w.hist, t, row, s, readAt)
          case Done(v) => v.Valid? ==> Checked(norm, w.hist, t, v.ticket, v.session, v.readAt) && t in w.hist.vouched)
  }

  ghost predicate SpentAt(w: World, t: Tid) {
    t in w.hist.spent ==>
      var id := w.hist.spent[t].ticket;
      && id in w.hist.tickets && w.hist.spent[t].at < w.hist.tickets[id].expiresAt
      && (id in w.db.tickets ==> w.db.tickets[id].consumedAt.Some?)
  }

  ghost predicate SpentOnce(h: History) {
    forall t, u :: t in h.spent && u in h.spent && h.spent[t].ticket == h.spent[u].ticket ==> t == u
  }

  ghost predicate Inv(norm: string -> string, w: World) {
    && (forall id {:trigger TicketAt(w, id)} :: TicketAt(w, id))
    && (forall id: SessionId {:trigger SessionAt(w, id)} :: SessionAt(w, id))
    && (forall t: Tid {:trigger CallAt(norm, w, t)} :: CallAt(norm, w, t))
    && (forall t: Tid {:trigger SpentAt(w, t)} :: SpentAt(w, t))
    && SpentOnce(w.hist)
  }

  lemma KeepsConsume(norm: string -> string, w: World, tid: Tid, userLive: bool)
    requires Inv(norm, w) && Enabled(w, Advance(tid, userLive)) && w.calls[tid].Start?
    ensures Inv(norm, Apply(norm, w, Advance(tid, userLive)))
  {
    var w' := Apply(norm, w, Advance(tid, userLive));
    var c := w.calls[tid];
    assert CallAt(norm, w, tid) && TicketAt(w, c.ticket);
    if w'.calls[tid].Consumed? {
      forall t | t in w.hist.spent
        ensures w.hist.spent[t].ticket != c.ticket
      {
        assert SpentAt(w, t);
      }
    }
    forall id ensures TicketAt(w', id) { assert TicketAt(w, id); }
    forall id: SessionId ensures SessionAt(w', id) { assert SessionAt(w, id); }
    forall t: Tid ensures CallAt(norm, w', t) { assert CallAt(norm, w, t); }
    forall t: Tid ensures SpentAt(w', t) { assert SpentAt(w, t); }
  }

  /** The statements after the first only read. */
  lemma KeepsRead(norm: string -> string, w: World, tid: Tid, userLive: bool)
    requires Inv(norm, w) && Enabled(w, Advance(tid, userLive)) && !w.calls[tid].Start?
    ensures Inv(norm, Apply(norm, w, Advance(tid, userLive)))
  {
    var w' := Apply(norm, w, Advance(tid, userLive));
    var c := w.calls[tid];
    assert w'.db == w.db && w'.hist == w.hist.(vouched := w'.hist.vouched);
    assert CallAt(norm, w, tid);
    if c.Consumed? { assert SessionAt(w, c.row.session); }
    forall id ensures TicketAt(w', id) { assert TicketAt(w, id); }
    forall id: SessionId ensures SessionAt(w', id) { assert SessionAt(w, id); }
    forall t: Tid ensures CallAt(norm, w', t) { assert CallAt(norm, w, t); }
    forall t: Tid ensures SpentAt(w', t) { assert SpentAt(w, t); }
  }

  lemma KeepsSweep(norm: string -> string, w: World, ev: Event)
    requires Inv(norm, w) && Enabled(w, ev) && IsSweep(ev)
    ensures Inv(norm, Apply(norm, w, ev))
  {
    var w' := Apply(norm, w, ev);
    forall id ensures TicketAt(w', id) { assert TicketAt(w, id); }
    forall id: SessionId ensures SessionAt(w', id) { assert SessionAt(w, id); }
    forall t: Tid ensures CallAt(norm, w', t) { assert CallAt(norm, w, t); }
    forall t: Tid ensures SpentAt(w', t) { assert SpentAt(w, t); }
  }

  lemma KeepsOther(norm: string -> string, w: World, ev: Event)
    requires Inv(norm, w) && Enabled(w, ev) && !ev.Advance? && !IsSweep(ev)
    ensures Inv(norm, Apply(norm, w, ev))
  {
    var w' := Apply(norm, w, ev);
    forall id
      ensures TicketAt(w', id)
    {
      assert TicketAt(w, id);
      if id in w.db.tickets { assert SessionAt(w, w.db.tickets[id].session); }
    }
    forall id: SessionId ensures SessionAt(w', id) { assert SessionAt(w, id); }
    forall t: Tid ensures CallAt(norm, w', t) { assert CallAt(norm, w, t); }
    forall t: Tid ensures SpentAt(w', t) { assert SpentAt(w, t); }
  }

  lemma Keeps(norm: string -> string, w: World, ev: Event)
    requires Inv(norm, w) && Enabled(w, ev)
    ensures Inv(norm, Apply(norm, w, ev))
  {
    if ev.Advance? && w.calls[ev.tid].Start? { KeepsConsume(norm, w, ev.tid, ev.userLive); }
    else if ev.Advance? { KeepsRead(norm, w, ev.tid, ev.userLive); }
    else if IsSweep(ev) { KeepsSweep(norm, w, ev); }
    else { KeepsOther(norm, w, ev); }
  }

  lemma {:induction false} RunKeeps(norm: string -> string, w: World, evs: seq<Event>)
    requires Inv(norm, w) && ValidRun(norm, w, evs)
    ensures Inv(norm, Run(norm, w, evs))
    decreases |evs|
  {
    if evs != [] {
      Keeps(norm, w, evs[0]);
      RunKeeps(norm, Apply(norm, w, evs[0]), evs[1..]);
    }
  }

  /** Main result.  In every interleaving each ticket passes consumption at most once, and only before its
      expiry; and a call that succeeds has used up a ticket that was issued, for a session and a URL that
      its own normalised URL equals, and found that session live afterwards and then a live user. */
  lemma ConsumedOnce(norm: string -> string, now: Time, evs: seq<Event>)
    requires ValidRun(norm, Empty(now), evs)
    ensures var h := Run(norm, Empty(now), evs).hist;
            && SpentOnce(h)
            && forall t :: t in h.spent ==>
                 h.spent[t].ticket in h.tickets && h.spent[t].at < h.tickets[h.spent[t].ticket].expiresAt
    ensures var w := Run(norm, Empty(now), evs);
            forall t :: t in w.calls && w.calls[t].Done? && w.calls[t].verdict.Valid? ==>
              var v := w.calls[t].verdict;
              Checked(norm, w.hist, t, v.ticket, v.session, v.readAt) && t in w.hist.vouched
  {
    RunKeeps(norm, Empty(now), evs);
    var w := Run(norm, Empty(now), evs);
    forall t | t in w.hist.spent
      ensures w.hist.spent[t].ticket in w.hist.tickets &&
              w.hist.spent[t].at < w.hist.tickets[w.hist.spent[t].ticket].expiresAt
    {
      assert SpentAt(w, t);
    }
    forall t | t in w.calls && w.calls[t].Done? && w.calls[t].verdict.Valid?
      ensures var v := w.calls[t].verdict;
              Checked(norm, w.hist, t, v.ticket, v.session, v.readAt) && t in w.hist.vouched
    {
      assert CallAt(norm, w, t);
    }
  }

  /** A ticket can be used up for sixty seconds from its issue, and not at the sixtieth. */
  lemma SixtySeconds(w: World, id: string, session: SessionId, url: string, renew: bool, at: Time)
    requires id !in w.db.tickets && session in w.db.sessions
    ensures var (db, ok) := CreateTicket(w.db, id, IssuedTicket(w, Issue(id, session, url, renew)));
            ok && (ConsumeTicket(db, id, at).1.Some? <==> at < w.now + 60)
  {}

  /** A ticket is stored with its raw URL and compared with a normalised one, so, presented in time with URL
      `url`, it is accepted exactly when that normalises to the raw text; otherwise it is burnt all the same. */
  lemma AcceptedIffNormalForm(norm: string -> string, db: Db, ticket: string, url: string, env: Env)
    requires Prefixed(ticket) && ticket in db.tickets && env.userLive
    requires db.tickets[ticket].consumedAt.None? && env.now < db.tickets[ticket].expiresAt
    requires db.tickets[ticket].session in db.sessions && Live(db.sessions[db.tickets[ticket].session], env.now)
    ensures var (db', v) := Alone(norm, db, ticket, url, env);
            && (v.Valid? <==> db.tickets[ticket].url == norm(url))
            && (!v.Valid? ==> v == Bad(ServiceMismatch))
            && forall later: Env, other: string ::
                 later.now >= env.now ==> Alone(norm, db', ticket, other, later) == (db', Bad(InvalidTicket))
  {}

  /** A service asking with the very URL it was given succeeds exactly when that URL is its own normal form;
      a URL outside the range of `norm` has tickets nobody can use. */
  lemma OwnUrlWorks(norm: string -> string, db: Db, ticket: string, env: Env)
    requires Prefixed(ticket) && ticket in db.tickets && env.userLive
    requires db.tickets[ticket].consumedAt.None? && env.now < db.tickets[ticket].expiresAt
    requires db.tickets[ticket].session in db.sessions && Live(db.sessions[db.tickets[ticket].session], env.now)
    ensures var u := db.tickets[ticket].url;
            && (Alone(norm, db, ticket, u, env).1.Valid? <==> norm(u) == u)
            && ((exists v :: Alone(norm, db, ticket, v, env).1.Valid?) <==> exists v :: norm(v) == u)
  {
    var u := db.tickets[ticket].url;
    forall v ensures Alone(norm, db, ticket, v, env).1.Valid? <==> norm(v) == u {
      AcceptedIffNormalForm(norm, db, ticket, v, env);
    }
  }

  // ----- the cleanup sweep -----

  predicate Dead(sessions: map<SessionId, Session>, id: SessionId, now: Time) {
    id in sessions && sessions[id].expiresAt < now - HOUR
  }

  ghost predicate TicketAlike(s: Db, u: Db, now: Time, id: string) {
    && (id in s.tickets ==> id in u.tickets && s.tickets[id] == u.tickets[id])
    && (id in u.tickets && id !in s.tickets ==>
          u.tickets[id].expiresAt < now - HOUR || Dead(u.sessions, u.tickets[id].session, now))
  }

  ghost predicate SessionAlike(s: Db, u: Db, now: Time, id: SessionId) {
    && (id in s.sessions ==> id in u.sessions && s.sessions[id] == u.sessions[id])
    && (id in u.sessions && id !in s.sessions ==> Dead(u.sessions, id, now))
  }

  /** `s` is `u` without some rows that the sweeps may take: tickets and sessions an hour past their expiry, and all
      tickets of such a session. */
  ghost predicate Swept(s: Db, u: Db, now: Time) {
    && (forall id {:trigger TicketAlike(s, u, now, id)} :: TicketAlike(s, u, now, id))
    && (forall id: SessionId {:trigger SessionAlike(s, u, now, id)} :: SessionAlike(s, u, now, id))
  }

  ghost predicate Alike(s: World, u: World) {
    s.now == u.now && s.calls == u.calls && s.hist == u.hist && Swept(s.db, u.db, u.now)
  }

  predicate IsSweep(ev: Event) { ev.TicketSweep? || ev.SessionSweep? }

  function WithoutSweeps(evs: seq<Event>): seq<Event> {
    if evs == [] then []
    else if IsSweep(evs[0]) then WithoutSweeps(evs[1..])
    else [evs[0]] + WithoutSweeps(evs[1..])
  }

  /** The call that `ev` moves is about to consume this ticket. */
  predicate Presents(w: World, ev: Event, ticket: string) {
    && ev.Advance? && ev.tid in w.calls && w.calls[ev.tid].Start? && w.calls[ev.tid].ticket == ticket
    && Prefixed(ticket)
  }

  /** The statement needs a row that a sweep took: the session of a new ticket, or the ticket to consume. */
  ghost predicate Misses(s: World, u: World, ev: Event) {
    || (ev.Issue? && ev.session !in s.db.sessions && ev.session in u.db.sessions)
    || (exists ticket :: Presents(u, ev, ticket) && ticket !in s.db.tickets
                         && ConsumeTicket(u.db, ticket, u.now).1.Some?)
  }

  /** The two runs stay alike to the end, statement by statement. */
  ghost predicate StayAlike(norm: string -> string, s: World, u: World, evs: seq<Event>)
    decreases |evs|
  {
    && Alike(s, u)
    && (evs != [] && Enabled(s, evs[0]) ==>
          if IsSweep(evs[0]) then StayAlike(norm, Apply(norm, s, evs[0]), u, evs[1..])
          else Enabled(u, evs[0]) && StayAlike(norm, Apply(norm, s, evs[0]), Apply(norm, u, evs[0]), evs[1..]))
  }

  /** However sweeps are put into a run, up to any point of it, every call is in the same phase on both stores, with the
      same verdict if it is done. */
  ghost predicate SweepsAreInvisible(norm: string -> string, u: World, evs: seq<Event>) {
    forall swept: seq<Event> :: ValidRun(norm, u, swept) && WithoutSweeps(swept) <= evs ==> StayAlike(norm, u, u, swept)
  }

  /** The statement succeeds although the session it needs expired more than an hour ago. */
  ghost predicate Notices(u: World, ev: Event) {
    || (ev.Issue? && CreateTicket(u.db, ev.id, IssuedTicket(u, ev)).1 && Dead(u.db.sessions, ev.session, u.now))
    || (exists ticket :: Presents(u, ev, ticket) && ConsumeTicket(u.db, ticket, u.now).1.Some?
                         && Dead(u.db.sessions, u.db.tickets[ticket].session, u.now))
  }

  ghost predicate NeverNotices(norm: string -> string, u: World, evs: seq<Event>)
    requires ValidRun(norm, u, evs)
    decreases |evs|
  {
    evs != [] ==> !Notices(u, evs[0]) && NeverNotices(norm, Apply(norm, u, evs[0]), evs[1..])
  }

  lemma Reflexive(w: World)
    ensures Alike(w, w)
  {
    forall id ensures TicketAlike(w.db, w.db, w.now, id) {}
    forall id: SessionId ensures SessionAlike(w.db, w.db, w.now, id) {}
  }

  lemma SweepAlike(norm: string -> string, s: World, u: World, ev: Event)
    requires Alike(s, u) && Inv(norm, u) && IsSweep(ev) && Enabled(s, ev)
    ensures Alike(Apply(norm, s, ev), u)
  {
    var s' := Apply(norm, s, ev);
    forall id
      ensures TicketAlike(s'.db, u.db, u.now, id)
    {
      assert TicketAlike(s.db, u.db, u.now, id) && TicketAt(u, id);
      if id in s.db.tickets { assert SessionAlike(s.db, u.db, u.now, s.db.tickets[id].session); }
    }
    forall id: SessionId ensures SessionAlike(s'.db, u.db, u.now, id) { assert SessionAlike(s.db, u.db, u.now, id); }
  }

  lemma IssueAlike(norm: string -> string, s: World, u: World, ev: Event)
    requires Alike(s, u) && Inv(norm, u) && ev.Issue? && Enabled(s, ev) && !Misses(s, u, ev)
    ensures Alike(Apply(norm, s, ev), Apply(norm, u, ev))
  {
    var s', u' := Apply(norm, s, ev), Apply(norm, u, ev);
    assert TicketAt(u, ev.id) && TicketAlike(s.db, u.db, u.now, ev.id) && SessionAlike(s.db, u.db, u.now, ev.session);
    forall id ensures TicketAlike(s'.db, u'.db, u.now, id) { assert TicketAlike(s.db, u.db, u.now, id); }
    forall id: SessionId ensures SessionAlike(s'.db, u'.db, u.now, id) { assert SessionAlike(s.db, u.db, u.now, id); }
  }

  lemma ConsumeAlike(s: Db, u: Db, now: Time, ticket: string)
    requires Swept(s, u, now) && (ticket !in s.tickets ==> ConsumeTicket(u, ticket, now).1.None?)
    ensures ConsumeTicket(s, ticket, now).1 == ConsumeTicket(u, ticket, now).1
    ensures Swept(ConsumeTicket(s, ticket, now).0, ConsumeTicket(u, ticket, now).0, now)
  {
    var (s', u') := (ConsumeTicket(s, ticket, now).0, ConsumeTicket(u, ticket, now).0);
    assert TicketAlike(s, u, now, ticket);
    forall id ensures TicketAlike(s', u', now, id) { assert TicketAlike(s, u, now, id); }
    forall id: SessionId ensures SessionAlike(s', u', now, id) { assert SessionAlike(s, u, now, id); }
  }

  lemma AdvanceAlike(norm: string -> string, s: World, u: World, ev: Event)
    requires Alike(s, u) && ev.Advance? && Enabled(s, ev) && !Misses(s, u, ev)
    ensures Alike(Apply(norm, s, ev), Apply(norm, u, ev))
  {
    var c := s.calls[ev.tid];
    if c.Start? && Prefixed(c.ticket) {
      assert Presents(u, ev, c.ticket);
      ConsumeAlike(s.db, u.db, u.now, c.ticket);
    } else if c.Consumed? {
      assert SessionAlike(s.db, u.db, u.now, c.row.session);
    }
    hide Swept, Misses;
  }

  lemma EventAlike(norm: string -> string, s: World, u: World, ev: Event)
    requires Alike(s, u) && Inv(norm, u) && Enabled(s, ev) && !IsSweep(ev) && !Misses(s, u, ev)
    ensures Enabled(u, ev) && Alike(Apply(norm, s, ev), Apply(norm, u, ev))
  {
    if ev.Issue? {
      IssueAlike(norm, s, u, ev);
    } else if ev.Advance? {
      AdvanceAlike(norm, s, u, ev);
    } else {
      OtherAlike(norm, s, u, ev);
    }
  }

  lemma OtherAlike(norm: string -> string, s: World, u: World, ev: Event)
    requires Alike(s, u) && Inv(norm, u) && Enabled(s, ev) && !IsSweep(ev) && !ev.Issue? && !ev.Advance?
    ensures Enabled(u, ev) && Alike(Apply(norm, s, ev), Apply(norm, u, ev))
  {
    var s', u' := Apply(norm, s, ev), Apply(norm, u, ev);
    if ev.Login? { assert SessionAt(u, ev.who); }
    if ev.Logout? { assert SessionAlike(s.db, u.db, u.now, ev.who); }
    hide Inv;
    forall id ensures TicketAlike(s'.db, u'.db, u'.now, id) { assert TicketAlike(s.db, u.db, u.now, id); }
    forall id: SessionId ensures SessionAlike(s'.db, u'.db, u'.now, id) { assert SessionAlike(s.db, u.db, u.now, id); }
  }

  /** A statement that misses its row ends otherwise on the two stores. */
  lemma MissShows(norm: string -> string, s: World, u: World, ev: Event)
    requires Alike(s, u) && Inv(norm, u) && Enabled(s, ev) && Misses(s, u, ev)
    ensures !Alike(Apply(norm, s, ev), Apply(norm, u, ev))
  {
    hide Swept;
    var s', u' := Apply(norm, s, ev), Apply(norm, u, ev);
    if ev.Issue? {
      assert TicketAt(u, ev.id);
      assert ev.id in u'.hist.tickets && ev.id !in s'.hist.tickets;
    } else {
      assert u'.calls[ev.tid].Consumed? && s'.calls[ev.tid].Done?;
    }
  }

  lemma MissIsNotice(norm: string -> string, s: World, u: World, ev: Event)
    requires Alike(s, u) && Inv(norm, u) && Enabled(s, ev) && Misses(s, u, ev)
    ensures Notices(u, ev)
  {
    if ev.Issue? {
      assert SessionAlike(s.db, u.db, u.now, ev.session) && TicketAt(u, ev.id);
    } else {
      var ticket :| Presents(u, ev, ticket) && ticket !in s.db.tickets && ConsumeTicket(u.db, ticket, u.now).1.Some?;
      assert TicketAlike(s.db, u.db, u.now, ticket);
    }
  }

  /** The session sweep just before it makes such a statement miss its row. */
  lemma NoticeIsMiss(norm: string -> string, u: World, ev: Event)
    requires Enabled(u, ev) && Notices(u, ev)
    ensures var x := SessionSweep(u.now - HOUR);
            && Enabled(u, x) && Enabled(Apply(norm, u, x), ev) && Misses(Apply(norm, u, x), u, ev)
  {
    if !ev.Issue? {
      var ticket :| Presents(u, ev, ticket) && ConsumeTicket(u.db, ticket, u.now).1.Some?
                    && Dead(u.db.sessions, u.db.tickets[ticket].session, u.now);
      assert ticket !in SweepSessions(u.db, u.now - HOUR).tickets;
    }
  }

  lemma {:induction false} NeverShows(norm: string -> string, s: World, u: World, swept: seq<Event>, evs: seq<Event>)
    requires Alike(s, u) && Inv(norm, u) && ValidRun(norm, s, swept) && ValidRun(norm, u, evs)
    requires WithoutSweeps(swept) <= evs && NeverNotices(norm, u, evs)
    ensures StayAlike(norm, s, u, swept)
    decreases |swept|
  {
    hide Alike, Inv, Misses, Notices, Apply, Enabled;
    if swept != [] {
      var ev := swept[0];
      if IsSweep(ev) {
        SweepAlike(norm, s, u, ev);
        NeverShows(norm, Apply(norm, s, ev), u, swept[1..], evs);
      } else {
        assert WithoutSweeps(swept)[0] == ev && WithoutSweeps(swept)[1..] == WithoutSweeps(swept[1..]);
        assert evs[0] == ev && WithoutSweeps(swept[1..]) <= evs[1..];
        if Misses(s, u, ev) { MissIsNotice(norm, s, u, ev); }
        EventAlike(norm, s, u, ev);
        Keeps(norm, u, ev);
        NeverShows(norm, Apply(norm, s, ev), Apply(norm, u, ev), swept[1..], evs[1..]);
      }
    }
  }

  lemma {:induction false} SomePlacementShows(norm: string -> string, u: World, evs: seq<Event>)
    returns (swept: seq<Event>)
    requires Inv(norm, u) && ValidRun(norm, u, evs) && !NeverNotices(norm, u, evs)
    requires forall ev :: ev in evs ==> !IsSweep(ev)
    ensures ValidRun(norm, u, swept) && WithoutSweeps(swept) <= evs && !StayAlike(norm, u, u, swept)
    decreases |evs|
  {
    hide Alike, Inv, Misses, Notices, Apply, Enabled;
    var ev := evs[0];
    if Notices(u, ev) {
      var x := SessionSweep(u.now - HOUR);
      NoticeIsMiss(norm, u, ev);
      Reflexive(u);
      SweepAlike(norm, u, u, x);
      var s := Apply(norm, u, x);
      MissShows(norm, s, u, ev);
      swept := [x, ev];
      assert swept[1..] == [ev] && [ev][1..] == [];
      assert ValidRun(norm, Apply(norm, s, ev), []) && ValidRun(norm, s, [ev]);
      assert !StayAlike(norm, Apply(norm, s, ev), Apply(norm, u, ev), []);
      assert !StayAlike(norm, s, u, [ev]);
      assert WithoutSweeps([ev]) == [ev] + WithoutSweeps([]);
    } else {
      Keeps(norm, u, ev);
      var rest := SomePlacementShows(norm, Apply(norm, u, ev), evs[1..]);
      swept := [ev] + rest;
      assert swept[1..] == rest;
    }
  }

  /** Main result, for every placing of the sweeps: a run cannot notice them exactly when each ticket that is inserted
      and each ticket that is consumed comes within an hour of its session's expiry. */
  lemma InvisibleIff(norm: string -> string, u: World, evs: seq<Event>)
    requires Inv(norm, u) && ValidRun(norm, u, evs) && forall ev :: ev in evs ==> !IsSweep(ev)
    ensures SweepsAreInvisible(norm, u, evs) <==> NeverNotices(norm, u, evs)
  {
    if NeverNotices(norm, u, evs) {
      forall swept: seq<Event> | ValidRun(norm, u, swept) && WithoutSweeps(swept) <= evs
        ensures StayAlike(norm, u, u, swept)
      {
        Reflexive(u);
        NeverShows(norm, u, u, swept, evs);
      }
    } else {
      var swept := SomePlacementShows(norm, u, evs);
    }
  }

  // ----- what it costs -----

  /** An insert notices the session sweep exactly past the hour. */
  lemma LateIssueNotices(u: Db, id: string, t: Ticket, now: Time)
    requires id !in u.tickets && t.session in u.sessions
    ensures CreateTicket(u, id, t).1
    ensures CreateTicket(SweepSessions(u, now - HOUR), id, t).1 <==> u.sessions[t.session].expiresAt >= now - HOUR
  {}

  /** A ticket still good when its session is an hour past expiry is taken along by the session sweep.  The verdict is
      InvalidTicket then; without the sweep it is that too, for the expired session, unless the URL is another one. */
  lemma LateTicketNotices(norm: string -> string, u: Db, ticket: string, url: string, env: Env)
    requires Prefixed(ticket) && ConsumeTicket(u, ticket, env.now).1.Some?
    requires Dead(u.sessions, u.tickets[ticket].session, env.now)
    ensures Alone(norm, SweepSessions(u, env.now - HOUR), ticket, url, env).1 == Bad(InvalidTicket)
    ensures Alone(norm, u, ticket, url, env).1 ==
              Bad(if u.tickets[ticket].url != norm(url) then ServiceMismatch else InvalidTicket)
  {}

  /** It happens to a ticket inserted within the hour, which no sweep before that insert would have stopped: 3550 s
      after its session expired, and presented with another URL 55 s later. */
  lemma InsertedInTimeStillShows(norm: string -> string, u: Db, id: string, t: Ticket, url: string, live: bool)
    requires Prefixed(id) && id !in u.tickets && t.session in u.sessions && t.consumedAt.None?
    requires t.expiresAt == u.sessions[t.session].expiresAt + 3550 + TICKET_TTL && t.url != norm(url)
    ensures var inserted := u.sessions[t.session].expiresAt + 3550;
            var v := CreateTicket(u, id, t).0;
            && CreateTicket(u, id, t).1 && CreateTicket(SweepSessions(u, inserted - HOUR), id, t).1
            && Alone(norm, v, id, url, Env(inserted + 55, live)).1 == Bad(ServiceMismatch)
            && Alone(norm, SweepSessions(v, inserted + 55 - HOUR), id, url, Env(inserted + 55, live)).1 ==
                 Bad(InvalidTicket)
  {
    var env := Env(u.sessions[t.session].expiresAt + 3550 + 55, live);
    LateTicketNotices(norm, CreateTicket(u, id, t).0, id, url, env);
  }
}
