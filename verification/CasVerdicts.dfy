/** When the cleanup sweep can change a verdict on a CAS ticket.  Module CasTickets says when a sweep can be noticed at
    all, statement by statement; a call that finds its ticket gone answers InvalidTicket, and mostly it would have
    answered that anyway, for the expired session.  Here only the answers count. */
module CasVerdicts {
  import opened Common
  import opened CasTickets

  // ----- near: alike but for calls that are bound to fail -----

  /** A call that has used up a ticket of a session that had expired more than an hour before. */
  predicate TooLate(u: World, c: Call) {
    && c.Consumed? && c.row.consumedAt.Some? && c.row.consumedAt.value <= u.now && c.row.session in u.hist.sessions
    && u.hist.sessions[c.row.session].expiresAt < c.row.consumedAt.value - HOUR
  }

  ghost predicate CallNear(s: World, u: World, t: Tid) {
    && (t in s.calls <==> t in u.calls)
    && (t in u.calls ==> s.calls[t] == u.calls[t] || (TooLate(u, u.calls[t]) && s.calls[t] == Done(Bad(InvalidTicket))))
  }

  ghost predicate Near(s: World, u: World) {
    && s.now == u.now && s.hist.begun == u.hist.begun && s.hist.sessions == u.hist.sessions
    && s.hist.tickets.Keys <= u.hist.tickets.Keys && Swept(s.db, u.db, u.now)
    && (forall t: Tid {:trigger CallNear(s, u, t)} :: CallNear(s, u, t))
  }

  /** The call is not in the same phase on both stores. */
  predicate Apart(s: World, u: World, t: Tid) { t in s.calls && t in u.calls && s.calls[t] != u.calls[t] }

  predicate WrongUrl(norm: string -> string, c: Call) { c.Consumed? && c.row.url != norm(c.url) }

  ghost predicate SameVerdict(s: World, u: World, t: Tid) {
    t in s.calls && t in u.calls && s.calls[t].Done? && u.calls[t].Done? ==> s.calls[t] == u.calls[t]
  }

  ghost predicate SameVerdicts(s: World, u: World) {
    forall t: Tid {:trigger SameVerdict(s, u, t)} :: SameVerdict(s, u, t)
  }

  lemma NearMeansSame(s: World, u: World)
    requires Near(s, u)
    ensures SameVerdicts(s, u)
  {
    hide Swept;
    forall t: Tid ensures SameVerdict(s, u, t) { assert CallNear(s, u, t); }
  }

  lemma NearSelf(u: World)
    ensures Near(u, u)
  {
    Reflexive(u);
    hide Swept;
    forall t: Tid ensures CallNear(u, u, t) {}
  }

  // ----- one statement -----

  lemma SweepNear(norm: string -> string, s: World, u: World, ev: Event)
    requires Near(s, u) && Inv(norm, u) && IsSweep(ev) && Enabled(s, ev)
    ensures Near(Apply(norm, s, ev), u)
  {
    var v, s' := u.(db := s.db), Apply(norm, s, ev);
    SweepAlike(norm, v, u, ev);
    assert s'.db == Apply(norm, v, ev).db && s'.calls == s.calls && s'.hist == s.hist && s'.now == s.now;
    hide Swept, Inv, Apply;
    forall t: Tid ensures CallNear(s', u, t) { assert CallNear(s, u, t); }
  }

  lemma EnabledToo(s: World, u: World, ev: Event)
    requires Near(s, u) && Enabled(u, ev) && !IsSweep(ev)
    ensures Enabled(s, ev)
  {
    if ev.Advance? || ev.Abandon? { assert CallNear(s, u, ev.tid); }
  }

  /** The statement of a call that is in the same phase on both stores. */
  lemma StepNear(norm: string -> string, s: World, u: World, tid: Tid, userLive: bool)
    requires Near(s, u) && Inv(norm, u) && tid in s.calls && tid in u.calls && s.calls[tid] == u.calls[tid]
    ensures var (a, b) := (Step(norm, s.db, s.calls[tid], Env(u.now, userLive)),
                           Step(norm, u.db, u.calls[tid], Env(u.now, userLive)));
            && Swept(a.0, b.0, u.now)
            && (a.1 == b.1 || (TooLate(u, b.1) && a.1 == Done(Bad(InvalidTicket))))
  {
    var c := u.calls[tid];
    if c.Start? && Prefixed(c.ticket) && c.ticket !in s.db.tickets && ConsumeTicket(u.db, c.ticket, u.now).1.Some? {
      assert TicketAlike(s.db, u.db, u.now, c.ticket);
      assert TicketAt(u, c.ticket) && SessionAt(u, u.db.tickets[c.ticket].session);
      var d := ConsumeTicket(u.db, c.ticket, u.now).0;
      forall id ensures TicketAlike(s.db, d, u.now, id) { assert TicketAlike(s.db, u.db, u.now, id); }
      forall id: SessionId ensures SessionAlike(s.db, d, u.now, id) { assert SessionAlike(s.db, u.db, u.now, id); }
    } else if c.Start? && Prefixed(c.ticket) {
      ConsumeAlike(s.db, u.db, u.now, c.ticket);
      hide Swept, Inv;
    } else if c.Consumed? {
      assert SessionAlike(s.db, u.db, u.now, c.row.session);
      hide Swept, Inv;
    } else {
      hide Swept, Inv;
    }
  }

  /** The swept store has ended the call already; the other ends it for its session, unless the URL is wrong. */
  lemma BoundToFail(norm: string -> string, u: World, tid: Tid, userLive: bool)
    requires Inv(norm, u) && tid in u.calls && TooLate(u, u.calls[tid])
    ensures Step(norm, u.db, u.calls[tid], Env(u.now, userLive)) ==
              (u.db, Done(Bad(if WrongUrl(norm, u.calls[tid]) then ServiceMismatch else InvalidTicket)))
  {
    assert SessionAt(u, u.calls[tid].row.session);
  }

  lemma OthersNear(s: World, u: World, s': World, u': World, tid: Tid)
    requires Near(s, u) && s'.now == u'.now >= u.now && s'.hist.begun == u'.hist.begun
    requires s'.hist.sessions == u'.hist.sessions && s'.hist.tickets.Keys <= u'.hist.tickets.Keys
    requires Swept(s'.db, u'.db, u'.now)
    requires forall k :: k in u.hist.sessions ==> k in u'.hist.sessions && u'.hist.sessions[k] == u.hist.sessions[k]
    requires forall t :: t != tid ==> (t in s'.calls <==> t in s.calls) && (t in u'.calls <==> t in u.calls)
    requires forall t :: t != tid && t in s.calls ==> s'.calls[t] == s.calls[t]
    requires forall t :: t != tid && t in u.calls ==> u'.calls[t] == u.calls[t]
    requires CallNear(s', u', tid)
    ensures Near(s', u')
  {
    hide Swept;
    forall t: Tid ensures CallNear(s', u', t) { assert CallNear(s, u, t); }
  }

  lemma AdvanceNear(norm: string -> string, s: World, u: World, ev: Event)
    requires Near(s, u) && Inv(norm, u) && ev.Advance? && Enabled(u, ev) && Enabled(s, ev)
    requires !(Apart(s, u, ev.tid) && WrongUrl(norm, u.calls[ev.tid]))
    ensures Near(Apply(norm, s, ev), Apply(norm, u, ev))
  {
    var s', u' := Apply(norm, s, ev), Apply(norm, u, ev);
    assert CallNear(s, u, ev.tid);
    if Apart(s, u, ev.tid) {
      BoundToFail(norm, u, ev.tid, ev.userLive);
    } else {
      StepNear(norm, s, u, ev.tid, ev.userLive);
    }
    hide Step, Swept, Inv;
    assert CallNear(s', u', ev.tid);
    OthersNear(s, u, s', u', ev.tid);
  }

  lemma AdvanceTells(norm: string -> string, s: World, u: World, ev: Event)
    requires Near(s, u) && Inv(norm, u) && ev.Advance? && Enabled(u, ev) && Enabled(s, ev)
    requires Apart(s, u, ev.tid) && WrongUrl(norm, u.calls[ev.tid])
    ensures !SameVerdicts(Apply(norm, s, ev), Apply(norm, u, ev))
  {
    assert CallNear(s, u, ev.tid);
    BoundToFail(norm, u, ev.tid, ev.userLive);
    hide Inv, Swept;
    assert !SameVerdict(Apply(norm, s, ev), Apply(norm, u, ev), ev.tid);
  }

  lemma IssueNear(norm: string -> string, s: World, u: World, ev: Event)
    requires Near(s, u) && Inv(norm, u) && ev.Issue? && Enabled(u, ev) && Enabled(s, ev)
    ensures Near(Apply(norm, s, ev), Apply(norm, u, ev))
  {
    var v, s', u' := u.(db := s.db), Apply(norm, s, ev), Apply(norm, u, ev);
    assert TicketAt(u, ev.id) && TicketAlike(s.db, u.db, u.now, ev.id) && SessionAlike(s.db, u.db, u.now, ev.session);
    if Misses(v, u, ev) {
      forall id ensures TicketAlike(s'.db, u'.db, u.now, id) { assert TicketAlike(s.db, u.db, u.now, id); }
      forall id: SessionId ensures SessionAlike(s'.db, u'.db, u.now, id) { assert SessionAlike(s.db, u.db, u.now, id); }
    } else {
      IssueAlike(norm, v, u, ev);
      assert s'.db == Apply(norm, v, ev).db;
    }
    hide Swept, Inv, Misses;
    forall t: Tid ensures CallNear(s', u', t) { assert CallNear(s, u, t); }
  }

  lemma OtherNear(norm: string -> string, s: World, u: World, ev: Event)
    requires Near(s, u) && Inv(norm, u) && Enabled(u, ev) && Enabled(s, ev)
    requires !IsSweep(ev) && !ev.Issue? && !ev.Advance?
    ensures Near(Apply(norm, s, ev), Apply(norm, u, ev))
  {
    var v, s', u' := u.(db := s.db), Apply(norm, s, ev), Apply(norm, u, ev);
    OtherAlike(norm, v, u, ev);
    assert s'.db == Apply(norm, v, ev).db;
    if ev.Login? { assert SessionAt(u, ev.who); }
    hide Swept, Inv;
    forall t: Tid ensures CallNear(s', u', t) { assert CallNear(s, u, t); }
  }

  /** One event on both stores: near again, unless a call that is apart gets to see a wrong URL. */
  lemma EventNear(norm: string -> string, s: World, u: World, ev: Event)
    requires Near(s, u) && Inv(norm, u) && Enabled(u, ev) && !IsSweep(ev)
    ensures Enabled(s, ev)
    ensures var (s', u') := (Apply(norm, s, ev), Apply(norm, u, ev));
            if ev.Advance? && Apart(s, u, ev.tid) && WrongUrl(norm, u.calls[ev.tid]) then !SameVerdicts(s', u')
            else Near(s', u')
  {
    EnabledToo(s, u, ev);
    hide Near, Inv, Apply;
    if ev.Issue? {
      IssueNear(norm, s, u, ev);
    } else if !ev.Advance? {
      OtherNear(norm, s, u, ev);
    } else if Apart(s, u, ev.tid) && WrongUrl(norm, u.calls[ev.tid]) {
      AdvanceTells(norm, s, u, ev);
    } else {
      AdvanceNear(norm, s, u, ev);
    }
  }

  // ----- whole runs -----

  ghost predicate VerdictsStay(norm: string -> string, s: World, u: World, evs: seq<Event>)
    decreases |evs|
  {
    && SameVerdicts(s, u)
    && (evs != [] && Enabled(s, evs[0]) ==>
          if IsSweep(evs[0]) then VerdictsStay(norm, Apply(norm, s, evs[0]), u, evs[1..])
          else Enabled(u, evs[0]) && VerdictsStay(norm, Apply(norm, s, evs[0]), Apply(norm, u, evs[0]), evs[1..]))
  }

  /** However sweeps are put into a run, up to any point of it, two calls that are both done have the same verdict. */
  ghost predicate NoVerdictChanges(norm: string -> string, u: World, evs: seq<Event>) {
    forall swept: seq<Event> ::
      ValidRun(norm, u, swept) && WithoutSweeps(swept) <= evs ==> VerdictsStay(norm, u, u, swept)
  }

  /** The call goes on with its next statement; it is not given up before. */
  predicate GoesOn(t: Tid, evs: seq<Event>)
    decreases |evs|
  {
    && evs != []
    && ((evs[0].Advance? && evs[0].tid == t) || (evs[0] != Abandon(t) && GoesOn(t, evs[1..])))
  }

  /** A call uses up a ticket whose session expired more than an hour ago, for another URL, and goes on to say so. */
  ghost predicate Misjudges(norm: string -> string, u: World, ev: Event, later: seq<Event>) {
    exists ticket ::
      && Presents(u, ev, ticket) && ConsumeTicket(u.db, ticket, u.now).1.Some?
      && Dead(u.db.sessions, u.db.tickets[ticket].session, u.now)
      && u.db.tickets[ticket].url != norm(u.calls[ev.tid].url) && GoesOn(ev.tid, later)
  }

  ghost predicate NeverMisjudges(norm: string -> string, u: World, evs: seq<Event>)
    requires ValidRun(norm, u, evs)
    decreases |evs|
  {
    evs != [] ==>
      !Misjudges(norm, u, evs[0], evs[1..]) && NeverMisjudges(norm, Apply(norm, u, evs[0]), evs[1..])
  }

  /** A call that is apart has the right URL, or does not go on. */
  ghost predicate Harmless(norm: string -> string, s: World, u: World, evs: seq<Event>, t: Tid) {
    Apart(s, u, t) && WrongUrl(norm, u.calls[t]) ==> !GoesOn(t, evs)
  }

  lemma HarmlessStep(norm: string -> string, s: World, u: World, evs: seq<Event>, t: Tid)
    requires Near(s, u) && Inv(norm, u) && evs != [] && Enabled(u, evs[0]) && Enabled(s, evs[0]) && !IsSweep(evs[0])
    requires Harmless(norm, s, u, evs, t) && !Misjudges(norm, u, evs[0], evs[1..])
    ensures Harmless(norm, Apply(norm, s, evs[0]), Apply(norm, u, evs[0]), evs[1..], t)
  {
    var ev := evs[0];
    assert CallNear(s, u, t);
    if ev.Advance? && ev.tid == t {
      var c := u.calls[t];
      if !Apart(s, u, t) && c.Start? && Prefixed(c.ticket) {
        StepNear(norm, s, u, t, ev.userLive);
        assert Presents(u, ev, c.ticket) && TicketAt(u, c.ticket);
        if c.ticket in u.db.tickets { assert SessionAt(u, u.db.tickets[c.ticket].session); }
        hide Swept, Inv;
      } else if Apart(s, u, t) {
        BoundToFail(norm, u, t, ev.userLive);
      } else {
        StepNear(norm, s, u, t, ev.userLive);
        hide Swept, Inv;
      }
    } else {
      hide Swept, Inv;
    }
  }

  lemma {:induction false} NoneChanges(norm: string -> string, s: World, u: World, swept: seq<Event>, evs: seq<Event>)
    requires Near(s, u) && Inv(norm, u) && ValidRun(norm, s, swept) && ValidRun(norm, u, evs)
    requires WithoutSweeps(swept) <= evs && NeverMisjudges(norm, u, evs)
    requires forall t: Tid {:trigger Harmless(norm, s, u, evs, t)} :: Harmless(norm, s, u, evs, t)
    ensures VerdictsStay(norm, s, u, swept)
    decreases |swept|
  {
    hide Near, Inv, Misjudges, Apply, Enabled, SameVerdicts;
    NearMeansSame(s, u);
    if swept != [] {
      var ev := swept[0];
      if IsSweep(ev) {
        SweepNear(norm, s, u, ev);
        forall t: Tid ensures Harmless(norm, Apply(norm, s, ev), u, evs, t) {
          assert Harmless(norm, s, u, evs, t);
          SweepMovesNobody(norm, s, ev);
        }
        NoneChanges(norm, Apply(norm, s, ev), u, swept[1..], evs);
      } else {
        assert WithoutSweeps(swept)[0] == ev && WithoutSweeps(swept)[1..] == WithoutSweeps(swept[1..]);
        assert evs[0] == ev && WithoutSweeps(swept[1..]) <= evs[1..];
        if ev.Advance? { assert Harmless(norm, s, u, evs, ev.tid); }
        EventNear(norm, s, u, ev);
        forall t: Tid ensures Harmless(norm, Apply(norm, s, ev), Apply(norm, u, ev), evs[1..], t) {
          assert Harmless(norm, s, u, evs, t);
          HarmlessStep(norm, s, u, evs, t);
        }
        Keeps(norm, u, ev);
        NoneChanges(norm, Apply(norm, s, ev), Apply(norm, u, ev), swept[1..], evs[1..]);
      }
    }
  }

  lemma SweepMovesNobody(norm: string -> string, s: World, ev: Event)
    requires IsSweep(ev) && Enabled(s, ev)
    ensures Apply(norm, s, ev).calls == s.calls
  {}

  /** Two calls apart with a wrong URL end in different verdicts, if the call goes on. */
  lemma {:induction false} Tells(norm: string -> string, s: World, u: World, evs: seq<Event>, t: Tid) returns (k: nat)
    requires Near(s, u) && Inv(norm, u) && ValidRun(norm, u, evs) && forall ev :: ev in evs ==> !IsSweep(ev)
    requires Apart(s, u, t) && WrongUrl(norm, u.calls[t]) && GoesOn(t, evs)
    ensures k <= |evs| && ValidRun(norm, s, evs[..k]) && !VerdictsStay(norm, s, u, evs[..k])
    decreases |evs|
  {
    hide Near, Inv, Apply, Enabled, SameVerdicts, WrongUrl;
    var ev := evs[0];
    EventNear(norm, s, u, ev);
    var s', u' := Apply(norm, s, ev), Apply(norm, u, ev);
    if ev.Advance? && Apart(s, u, ev.tid) && WrongUrl(norm, u.calls[ev.tid]) {
      k := 1;
      assert evs[..1][1..] == [] && ValidRun(norm, s', []) && !VerdictsStay(norm, s', u', []);
    } else {
      StillApart(norm, s, u, ev, t);
      Keeps(norm, u, ev);
      var n := Tells(norm, s', u', evs[1..], t);
      k := n + 1;
      assert evs[..k][0] == ev && evs[..k][1..] == evs[1..][..n];
    }
  }

  lemma StillApart(norm: string -> string, s: World, u: World, ev: Event, t: Tid)
    requires Enabled(s, ev) && Enabled(u, ev) && Apart(s, u, t) && WrongUrl(norm, u.calls[t]) && !IsSweep(ev)
    requires Near(s, u) && Inv(norm, u) && ev != Abandon(t) && !(ev.Advance? && ev.tid == t)
    ensures Apart(Apply(norm, s, ev), Apply(norm, u, ev), t) && WrongUrl(norm, Apply(norm, u, ev).calls[t])
  {
    assert CallAt(norm, u, t);
    hide Swept, Inv, Step;
  }

  lemma {:induction false} SomeChanges(norm: string -> string, u: World, evs: seq<Event>) returns (swept: seq<Event>)
    requires Inv(norm, u) && ValidRun(norm, u, evs) && !NeverMisjudges(norm, u, evs)
    requires forall ev :: ev in evs ==> !IsSweep(ev)
    ensures ValidRun(norm, u, swept) && WithoutSweeps(swept) <= evs && !VerdictsStay(norm, u, u, swept)
    decreases |evs|
  {
    hide Near, Inv, Misjudges, Apply, Enabled, SameVerdicts, Apart, WrongUrl;
    var ev := evs[0];
    if Misjudges(norm, u, ev, evs[1..]) {
      var x := SessionSweep(u.now - HOUR);
      NearSelf(u);
      NearMeansSame(u, u);
      SweepThenApart(norm, u, ev, evs[1..]);
      var s := Apply(norm, u, x);
      SweepNear(norm, u, u, x);
      EventNear(norm, s, u, ev);
      Keeps(norm, u, ev);
      var s', u' := Apply(norm, s, ev), Apply(norm, u, ev);
      var n := Tells(norm, s', u', evs[1..], ev.tid);
      var rest := evs[1..][..n];
      swept := [x] + ([ev] + rest);
      assert swept[1..] == [ev] + rest && ([ev] + rest)[1..] == rest;
      NoSweeps(rest);
      assert WithoutSweeps([ev] + rest) == [ev] + rest <= evs;
      assert !VerdictsStay(norm, s, u, [ev] + rest);
    } else {
      NearSelf(u);
      Keeps(norm, u, ev);
      var rest := SomeChanges(norm, Apply(norm, u, ev), evs[1..]);
      swept := [ev] + rest;
      assert swept[1..] == rest;
    }
  }

  lemma {:induction false} NoSweeps(evs: seq<Event>)
    requires forall ev :: ev in evs ==> !IsSweep(ev)
    ensures WithoutSweeps(evs) == evs
    decreases |evs|
  {
    if evs != [] { NoSweeps(evs[1..]); }
  }

  /** The session sweep just before the ticket is used up sets the two calls apart. */
  lemma SweepThenApart(norm: string -> string, u: World, ev: Event, later: seq<Event>)
    requires Inv(norm, u) && Enabled(u, ev) && Misjudges(norm, u, ev, later)
    ensures var x := SessionSweep(u.now - HOUR);
            && Enabled(u, x) && Enabled(Apply(norm, u, x), ev) && ev.Advance? && GoesOn(ev.tid, later)
            && Apart(Apply(norm, Apply(norm, u, x), ev), Apply(norm, u, ev), ev.tid)
            && WrongUrl(norm, Apply(norm, u, ev).calls[ev.tid])
            && !(ev.Advance? && Apart(Apply(norm, u, x), u, ev.tid))
  {
    var ticket :| && Presents(u, ev, ticket) && ConsumeTicket(u.db, ticket, u.now).1.Some?
                  && Dead(u.db.sessions, u.db.tickets[ticket].session, u.now)
                  && u.db.tickets[ticket].url != norm(u.calls[ev.tid].url) && GoesOn(ev.tid, later);
    hide Inv;
    assert ticket !in SweepSessions(u.db, u.now - HOUR).tickets;
  }

  /** Main result on the answers, for every placing of the sweeps: no verdict of a run can change exactly when no call
      uses up a ticket of a session an hour past its expiry, for another URL, and goes on to answer. */
  lemma NoVerdictChangesIff(norm: string -> string, u: World, evs: seq<Event>)
    requires Inv(norm, u) && ValidRun(norm, u, evs) && forall ev :: ev in evs ==> !IsSweep(ev)
    ensures NoVerdictChanges(norm, u, evs) <==> NeverMisjudges(norm, u, evs)
  {
    if NeverMisjudges(norm, u, evs) {
      NearSelf(u);
      forall t: Tid ensures Harmless(norm, u, u, evs, t) {}
      forall swept: seq<Event> | ValidRun(norm, u, swept) && WithoutSweeps(swept) <= evs
        ensures VerdictsStay(norm, u, u, swept)
      {
        NoneChanges(norm, u, u, swept, evs);
      }
    } else {
      var swept := SomeChanges(norm, u, evs);
    }
  }
}
