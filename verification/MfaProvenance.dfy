/** What follows for every run of module Mfa: where each session, code and id_token got its acr from. */
module MfaProvenance {
  import opened Common
  import opened Mfa
  import OidcWorld
  import OidcFamilies

  /** The whole chain behind a strong session: request `t` had a factor of the user accepted, for a challenge it read
      less than 301 seconds after that challenge was issued to the user, by a request whose password or provider
      step had succeeded for the same user. */
  ghost predicate ProvenFor(h: History, t: Tid, user: UserId) {
    && t in h.proofs && h.proofs[t].user == user && ProofOk(h, t)
    && h.proofs[t].challenge in h.issues
    && IssueOk(h, h.proofs[t].challenge)
  }

  lemma FromStart(config: Config, now: int, methods: map<MethodId, Method>, backups: map<UserId, nat>, evs: seq<Event>)
    requires ValidRun(Start(config, now, methods, backups), evs)
    ensures Inv(Run(Start(config, now, methods, backups), evs))
  {
    RunKeeps(Start(config, now, methods, backups), evs);
  }

  lemma StrongMeansProven(w: World, id: SessionId, s: Session)
    requires Inv(w) && Origin(w, id, s) && s.acr == "1"
    ensures ProvenFor(w.hist, w.hist.made[id], s.user)
    ensures s.amr == AmrOf(w.hist.proofs[w.hist.made[id]].factor)
  {
    hide SessionAt, CodeAt, CallAt;
    var t := w.hist.made[id];
    assert ProofAt(w, t) && IssueAt(w, w.hist.proofs[t].challenge);
  }

  /** Main result on sessions, over every run: acr "1" goes back to an accepted factor of the same user; any other
      session says "0", and its request had looked and seen no confirmed method. */
  lemma SessionsAreJustified(config: Config, now: int, methods: map<MethodId, Method>, backups: map<UserId, nat>,
                             evs: seq<Event>, id: SessionId)
    requires ValidRun(Start(config, now, methods, backups), evs)
    requires id in Run(Start(config, now, methods, backups), evs).sessions
    ensures var w := Run(Start(config, now, methods, backups), evs);
            var s := w.sessions[id];
            && id in w.hist.made
            && var t := w.hist.made[id];
               if s.acr == "1" then ProvenFor(w.hist, t, s.user)
               else s.acr == "0" && GatePassed(config, w.hist, t) && w.hist.logins[t].user == s.user
  {
    var w0 := Start(config, now, methods, backups);
    FromStart(config, now, methods, backups, evs);
    ConfigStays(w0, evs);
    var w := Run(w0, evs);
    hide ValidRun, Run;
    assert SessionAt(w, id);
    if w.sessions[id].acr == "1" { StrongMeansProven(w, id, w.sessions[id]); }
  }

  lemma {:induction false} ConfigStays(w: World, evs: seq<Event>)
    requires Inv(w) && ValidRun(w, evs)
    ensures Run(w, evs).config == w.config
    decreases |evs|
  {
    hide Inv, Apply, Enabled;
    if evs != [] {
      Keeps(w, evs[0]);
      ApplyConfig(w, evs[0]);
      ConfigStays(Apply(w, evs[0]), evs[1..]);
    }
  }

  lemma ApplyConfig(w: World, ev: Event)
    requires Enabled(w, ev)
    ensures Apply(w, ev).config == w.config
  {}

  /** Main result on tokens: over any run of the token endpoint whose codes were cut by authorize here, an id_token that
      says acr "1" goes back to an accepted factor of the user it names, and its auth_time is when the session of that
      factor was made. */
  lemma StrongIdTokenNeedsFactor(w: World, o: OidcWorld.World, t: OidcWorld.Tid)
    requires Inv(w) && OidcWorld.Reachable(o) && t in o.hist.idTokens && o.hist.idTokens[t].acr == "1"
    requires forall c :: c in o.hist.codes ==> c in w.codes && w.codes[c] == o.hist.codes[c]
    ensures exists id :: id in w.hist.made && ProvenFor(w.hist, w.hist.made[id], o.hist.idTokens[t].user)
                         && id in w.hist.born && w.hist.born[id].createdAt == o.hist.idTokens[t].authTime
  {
    OidcFamilies.StrongIdTokenFromStrongCode(o, t);
    var c := o.hist.spent[t].source.id;
    hide OidcWorld.Reachable, Core;
    assert CodeAt(w, c);
    var id := w.hist.codes[c];
    var s: Session :| Origin(w, id, s) && CopiesSession(s, id, w.codes[c]);
    StrongMeansProven(w, id, s);
  }

  // ----- is a single-factor session one of a user without factors? -----

  /** The event leaves `m` a confirmed method of the user. */
  ghost predicate Confirms(w: World, ev: Event, user: UserId, m: MethodId) {
    || (ev.Enrol? && ev.device == m && m !in w.methods && ev.row.user == user && ev.row.confirmed)
    || (ev.Confirm? && ev.device == m && m in w.methods && w.methods[m].user == user)
  }

  ghost predicate Undone(w: World, ev: Event, later: seq<Event>, user: UserId, m: MethodId) {
    Confirms(w, ev, user, m) ==> DeleteMethod(m) in later
  }

  /** Every method of the user that is confirmed during these events is deleted again before they end. */
  ghost predicate AllUndone(w: World, evs: seq<Event>, user: UserId)
    requires ValidRun(w, evs)
    decreases |evs|
  {
    evs != [] ==>
      && (forall m: MethodId {:trigger Undone(w, evs[0], evs[1..], user, m)} :: Undone(w, evs[0], evs[1..], user, m))
      && AllUndone(Apply(w, evs[0]), evs[1..], user)
  }

  lemma ConfirmedStep(w: World, ev: Event, user: UserId, m: MethodId)
    requires Enabled(w, ev)
    ensures m in Confirmed(Apply(w, ev), user) <==>
            Confirms(w, ev, user, m) || (m in Confirmed(w, user) && ev != DeleteMethod(m))
  {
    hide FirstOccurrences, CopiesSession, ComputeStatus, Verified, Expires, AmrOf, FirstAmr;
  }

  lemma {:induction false} StaysConfirmed(w: World, evs: seq<Event>, user: UserId, m: MethodId)
    requires ValidRun(w, evs) && m in Confirmed(w, user) && DeleteMethod(m) !in evs
    ensures m in Confirmed(Run(w, evs), user)
    decreases |evs|
  {
    hide Apply, Enabled, Confirmed, Confirms;
    if evs != [] {
      ConfirmedStep(w, evs[0], user, m);
      StaysConfirmed(Apply(w, evs[0]), evs[1..], user, m);
    }
  }

  lemma {:induction false} CameFrom(w: World, evs: seq<Event>, user: UserId, m: MethodId)
    requires ValidRun(w, evs) && m in Confirmed(Run(w, evs), user) && AllUndone(w, evs, user)
    ensures m in Confirmed(w, user) && DeleteMethod(m) !in evs
    decreases |evs|
  {
    hide Apply, Enabled, Confirmed, Confirms;
    if evs != [] {
      CameFrom(Apply(w, evs[0]), evs[1..], user, m);
      ConfirmedStep(w, evs[0], user, m);
      assert Undone(w, evs[0], evs[1..], user, m);
    }
  }

  lemma {:induction false} NotUndone(w: World, evs: seq<Event>, user: UserId)
    requires ValidRun(w, evs) && !AllUndone(w, evs, user)
    ensures Confirmed(Run(w, evs), user) != {}
    decreases |evs|
  {
    hide Apply, Enabled, Confirmed, Confirms;
    if m: MethodId :| !Undone(w, evs[0], evs[1..], user, m) {
      ConfirmedStep(w, evs[0], user, m);
      StaysConfirmed(Apply(w, evs[0]), evs[1..], user, m);
    } else {
      NotUndone(Apply(w, evs[0]), evs[1..], user);
    }
  }

  /** After any events the user has no confirmed method exactly when each one it had before, and each one confirmed
      meanwhile, was deleted. */
  lemma NoneConfirmedIff(w: World, evs: seq<Event>, user: UserId)
    requires ValidRun(w, evs)
    ensures Confirmed(Run(w, evs), user) == {} <==>
            (forall m :: m in Confirmed(w, user) ==> DeleteMethod(m) in evs) && AllUndone(w, evs, user)
  {
    hide Confirmed, Run, AllUndone;
    if !AllUndone(w, evs, user) {
      NotUndone(w, evs, user);
    } else if m: MethodId :| m in Confirmed(w, user) && DeleteMethod(m) !in evs {
      StaysConfirmed(w, evs, user, m);
    } else if Confirmed(Run(w, evs), user) != {} {
      var m :| m in Confirmed(Run(w, evs), user);
      CameFrom(w, evs, user, m);
    }
  }

  lemma RunCons(w: World, ev: Event, evs: seq<Event>)
    requires Enabled(w, ev) && ValidRun(Apply(w, ev), evs)
    ensures ValidRun(w, [ev] + evs) && Run(w, [ev] + evs) == Run(Apply(w, ev), evs)
  {
    hide Apply, Enabled;
    assert ([ev] + evs)[1..] == evs;
  }

  lemma {:induction false} Split(w: World, evs: seq<Event>, k: nat)
    requires ValidRun(w, evs) && k <= |evs|
    ensures ValidRun(w, evs[..k]) && ValidRun(Run(w, evs[..k]), evs[k..])
    ensures Run(w, evs) == Run(Run(w, evs[..k]), evs[k..])
    decreases k
  {
    hide Apply, Enabled;
    if k == 0 {
      assert evs[..0] == [] && evs[0..] == evs;
    } else {
      var w', rest := Apply(w, evs[0]), evs[1..];
      assert Enabled(w, evs[0]) && ValidRun(w', rest) && Run(w, evs) == Run(w', rest);
      hide Run, ValidRun;
      Split(w', rest, k - 1);
      RunCons(w, evs[0], rest[..k - 1]);
      assert [evs[0]] + rest[..k - 1] == evs[..k] && rest[k - 1..] == evs[k..];
    }
  }

  /** World just before event `k`. */
  ghost function Before(w: World, evs: seq<Event>, k: nat): World
    requires ValidRun(w, evs) && k <= |evs|
  {
    Split(w, evs, k);
    Run(w, evs[..k])
  }

  lemma {:induction false} PastStays(w: World, evs: seq<Event>)
    requires Inv(w) && ValidRun(w, evs)
    ensures Goes(w, Run(w, evs))
    decreases |evs|
  {
    hide Inv, Apply, Enabled, Goes;
    if evs == [] {
      GoesSelf(w);
    } else {
      Keeps(w, evs[0]);
      StepGoes(w, evs[0]);
      PastStays(Apply(w, evs[0]), evs[1..]);
      GoesOn(w, Apply(w, evs[0]), Run(w, evs));
    }
  }

  lemma GoesSelf(w: World) ensures Goes(w, w) {}

  lemma GoesOn(w: World, v: World, u: World)
    requires Goes(w, v) && Goes(v, u)
    ensures Goes(w, u)
  {}

  lemma StepGoes(w: World, ev: Event)
    requires Inv(w) && Enabled(w, ev)
    ensures Goes(w, Apply(w, ev))
  {
    hide Apply, Enabled, Core, Goes, SessionAt, CodeAt;
    CoreKeeps(w, ev);
  }
  /** The session `id` was created by event `k`, and what its user owned then is on record. */
  ghost predicate CreatedAt(w: World, evs: seq<Event>, id: SessionId, k: nat)
    requires ValidRun(w, evs)
  {
    && k < |evs|
    && var v, h := Before(w, evs, k), Run(w, evs).hist;
       && id in h.made && evs[k] == CreateSession(h.made[id], id) && Enabled(v, evs[k])
       && id in h.owned && h.owned[id] == Confirmed(v, v.calls[h.made[id]].user)
       && (v.calls[h.made[id]].Proven? || v.calls[h.made[id]].Passed? || v.calls[h.made[id]].SignedIn?)
  }

  /** Request `t` read its user's confirmed methods at event `i`. */
  ghost predicate LookedAt(w: World, evs: seq<Event>, t: Tid, i: nat)
    requires ValidRun(w, evs)
  {
    && i < |evs|
    && var v, h := Before(w, evs, i), Run(w, evs).hist;
       && evs[i].ListMethods? && evs[i].tid == t && t in h.looks
       && h.looks[t].confirmed == Confirmed(v, h.looks[t].user)
  }

  lemma BeforeCons(w: World, evs: seq<Event>, k: nat)
    requires ValidRun(w, evs) && k < |evs|
    ensures Before(w, evs, k + 1) == Before(Apply(w, evs[0]), evs[1..], k)
  {
    hide Apply, Enabled;
    assert evs[..k + 1][0] == evs[0] && evs[..k + 1][1..] == evs[1..][..k];
  }

  /** Only the creation of a session writes who made it. */
  lemma MadeFrame(w: World, ev: Event)
    requires Enabled(w, ev) && !ev.CreateSession?
    ensures Apply(w, ev).hist.made == w.hist.made && Apply(w, ev).hist.owned == w.hist.owned
  {
    if IsQuiet(ev) {
      QuietHistory(w, ev);
    } else {
      hide Enabled, IsQuiet, ComputeStatus, Verified, Expires, Confirmed, Challenges, Readable;
      match ev
      case SignIn(_, _, _) =>
      case ListMethods(_, _, _) =>
      case CountBackups(_, _) =>
      case OpenChallenge(_, _) =>
      case CheckFactor(_, _, _) =>
      case _ =>
    }
  }

  lemma QuietHistory(w: World, ev: Event)
    requires Enabled(w, ev) && IsQuiet(ev)
    ensures Apply(w, ev).hist == w.hist
  {
    hide Enabled;
  }

  lemma MadeOnce(w: World, ev: Event, id: SessionId)
    requires Enabled(w, ev) && id in w.hist.made && id in w.hist.owned
    ensures var h := Apply(w, ev).hist;
            id in h.made && h.made[id] == w.hist.made[id] && id in h.owned && h.owned[id] == w.hist.owned[id]
  {
    if ev.CreateSession? {
      hide Enabled, Confirmed, AmrOf, FirstAmr;
    } else {
      MadeFrame(w, ev);
    }
  }

  lemma {:induction false} MadeStays(w: World, evs: seq<Event>, id: SessionId)
    requires ValidRun(w, evs) && id in w.hist.made && id in w.hist.owned
    ensures var h := Run(w, evs).hist;
            id in h.made && h.made[id] == w.hist.made[id] && id in h.owned && h.owned[id] == w.hist.owned[id]
    decreases |evs|
  {
    hide Apply, Enabled;
    if evs != [] {
      MadeOnce(w, evs[0], id);
      MadeStays(Apply(w, evs[0]), evs[1..], id);
    }
  }

  lemma MadeStep(w: World, ev: Event, id: SessionId)
    requires Enabled(w, ev) && id !in w.hist.made && id in Apply(w, ev).hist.made
    ensures ev.CreateSession? && ev.session == id
    ensures var h := Apply(w, ev).hist;
            h.made[id] == ev.tid && id in h.owned && h.owned[id] == Confirmed(w, w.calls[ev.tid].user)
    ensures w.calls[ev.tid].Proven? || w.calls[ev.tid].Passed? || w.calls[ev.tid].SignedIn?
  {
    if ev.CreateSession? {
      hide Confirmed, AmrOf, FirstAmr;
    } else {
      MadeFrame(w, ev);
    }
  }

  lemma {:induction false} FindCreation(w: World, evs: seq<Event>, id: SessionId) returns (k: nat)
    requires ValidRun(w, evs) && id !in w.hist.made && id in Run(w, evs).hist.made
    ensures CreatedAt(w, evs, id, k)
    decreases |evs|
  {
    hide Apply, Enabled;
    if id in Apply(w, evs[0]).hist.made {
      k := 0;
      MadeStep(w, evs[0], id);
      MadeStays(Apply(w, evs[0]), evs[1..], id);
      assert evs[..0] == [];
    } else {
      var n := FindCreation(Apply(w, evs[0]), evs[1..], id);
      k := n + 1;
      BeforeCons(w, evs, n);
    }
  }

  lemma LookStep(w: World, ev: Event, t: Tid)
    requires Enabled(w, ev) && t !in w.hist.looks && t in Apply(w, ev).hist.looks
    ensures ev.ListMethods? && ev.tid == t && w.config.mfaOn
    ensures var l := Apply(w, ev).hist.looks[t]; l.confirmed == Confirmed(w, l.user)
  {
    if IsQuiet(ev) { QuietHistory(w, ev); }
    hide FirstOccurrences, CopiesSession, ComputeStatus, Verified, Expires, AmrOf, FirstAmr, Confirmed, Challenges;
  }

  lemma {:induction false} FindLook(w: World, evs: seq<Event>, t: Tid) returns (i: nat)
    requires Inv(w) && ValidRun(w, evs) && t !in w.hist.looks && t in Run(w, evs).hist.looks
    ensures LookedAt(w, evs, t, i) && w.config.mfaOn
    decreases |evs|
  {
    hide Inv, Apply, Enabled, Goes;
    Keeps(w, evs[0]);
    if t in Apply(w, evs[0]).hist.looks {
      i := 0;
      LookStep(w, evs[0], t);
      PastStays(Apply(w, evs[0]), evs[1..]);
      SameLook(Apply(w, evs[0]), Run(w, evs), t);
      assert evs[..0] == [];
    } else {
      ApplyConfig(w, evs[0]);
      var n := FindLook(Apply(w, evs[0]), evs[1..], t);
      i := n + 1;
      BeforeCons(w, evs, n);
    }
  }

  lemma SameLook(w: World, v: World, t: Tid)
    requires Goes(w, v) && t in w.hist.looks
    ensures t in v.hist.looks && v.hist.looks[t] == w.hist.looks[t]
  {}

  lemma BeforeNext(w: World, evs: seq<Event>, k: nat)
    requires ValidRun(w, evs) && k < |evs|
    ensures Enabled(Before(w, evs, k), evs[k]) && Before(w, evs, k + 1) == Apply(Before(w, evs, k), evs[k])
  {
    hide Apply, Enabled;
    Split(w, evs, k + 1);
    Split(w, evs[..k + 1], k);
    assert evs[..k + 1][..k] == evs[..k] && evs[..k + 1][k..] == [evs[k]];
    Split(w, evs, k);
    assert evs[k..][0] == evs[k] && [evs[k]][1..] == [];
  }

  lemma Between(w: World, evs: seq<Event>, i: nat, k: nat)
    requires ValidRun(w, evs) && i <= k <= |evs|
    ensures ValidRun(Before(w, evs, i), evs[i..k]) && Run(Before(w, evs, i), evs[i..k]) == Before(w, evs, k)
  {
    hide Apply, Enabled;
    Split(w, evs, k);
    Split(w, evs[..k], i);
    assert evs[..k][..i] == evs[..i] && evs[..k][i..] == evs[i..k];
  }

  lemma {:induction false} SessionKept(w: World, evs: seq<Event>, id: SessionId)
    requires ValidRun(w, evs) && id in w.hist.made && id in w.hist.owned && id in Run(w, evs).sessions
    ensures id in w.sessions && Run(w, evs).sessions[id] == w.sessions[id]
    decreases |evs|
  {
    hide Apply, Enabled;
    if evs != [] {
      MadeOnce(w, evs[0], id);
      SessionKept(Apply(w, evs[0]), evs[1..], id);
      SessionStep(w, evs[0], id);
    }
  }

  lemma SessionStep(w: World, ev: Event, id: SessionId)
    requires Enabled(w, ev) && id in w.hist.made && id in Apply(w, ev).sessions
    ensures id in w.sessions && Apply(w, ev).sessions[id] == w.sessions[id]
  {
    hide FirstOccurrences, CopiesSession, ComputeStatus, Verified, Expires, AmrOf, FirstAmr, Confirmed, Challenges;
  }

  /** The session that event `k` created is the one still there, and tells how its request got so far. */
  lemma CreatorOf(w: World, evs: seq<Event>, id: SessionId, k: nat)
    requires ValidRun(w, evs) && CreatedAt(w, evs, id, k) && id in Run(w, evs).sessions
    ensures var c, s := Before(w, evs, k).calls[Run(w, evs).hist.made[id]], Run(w, evs).sessions[id];
            s.user == c.user && (s.acr == "1" <==> c.Proven?)
  {
    hide ValidRun, Run, CopiesSession, FirstOccurrences, Confirmed, AmrOf, FirstAmr, ComputeStatus, Verified;
    BeforeNext(w, evs, k);
    Between(w, evs, k + 1, |evs|);
    WholeRun(w, evs);
    SessionKept(Before(w, evs, k + 1), evs[k + 1..|evs|], id);
  }

  lemma WholeRun(w: World, evs: seq<Event>)
    requires ValidRun(w, evs)
    ensures Before(w, evs, |evs|) == Run(w, evs)
  {
    assert evs[..|evs|] == evs;
  }

  /** Two-factor sign-in switched on: between the look of the request and the session it creates. */
  ghost predicate Window(w: World, evs: seq<Event>, id: SessionId, i: nat, k: nat)
    requires ValidRun(w, evs)
  {
    && i < k && CreatedAt(w, evs, id, k) && LookedAt(w, evs, Run(w, evs).hist.made[id], i)
    && Run(w, evs).hist.looks[Run(w, evs).hist.made[id]].confirmed == {}
  }

  /** Exactly when its user had no confirmed method as the session was created. */
  ghost predicate OwnedNoneIff(w: World, evs: seq<Event>, id: SessionId, user: UserId, i: nat, k: nat)
    requires ValidRun(w, evs) && i <= k <= |evs| && id in Run(w, evs).hist.owned
  {
    Between(w, evs, i, k);
    Run(w, evs).hist.owned[id] == {} <==> AllUndone(Before(w, evs, i), evs[i..k], user)
  }
  ghost predicate AtStart(w: World) { w == Start(w.config, w.now, w.methods, w.backups) }

  lemma WindowOf(w: World, evs: seq<Event>, id: SessionId, k: nat) returns (i: nat)
    requires AtStart(w) && ValidRun(w, evs) && w.config.mfaOn && CreatedAt(w, evs, id, k)
    requires id in Run(w, evs).sessions && Run(w, evs).sessions[id].acr == "0"
    ensures Window(w, evs, id, i, k)
    ensures Run(w, evs).hist.looks[Run(w, evs).hist.made[id]].user == Run(w, evs).sessions[id].user
  {
    var t, u := Run(w, evs).hist.made[id], Before(w, evs, k);
    CreatorOf(w, evs, id, k);
    assert Inv(w) by { FromStart(w.config, w.now, w.methods, w.backups, []); }
    Split(w, evs, k);
    RunKeeps(w, evs[..k]);
    RunKeeps(w, evs);
    PastStays(w, evs[..k]);
    PastStays(u, evs[k..]);
    assert CallAt(u, t) && u.calls[t].Passed? by {
      hide ValidRun, Run, CopiesSession, FirstOccurrences, Confirmed, SessionAt, CodeAt;
    }
    PassedLooked(u, t);
    hide Inv, CallAt;
    i := FindLook(w, evs[..k], t);
    SameLook(u, Run(w, evs), t);
    assert evs[..k][..i] == evs[..i];
  }

  lemma PassedLooked(u: World, t: Tid)
    requires CallAt(u, t) && t in u.calls && u.calls[t].Passed? && u.config.mfaOn
    ensures t in u.hist.looks && u.hist.looks[t] == Look(u.calls[t].user, {})
  {}

  lemma LookChangesNothing(w: World, evs: seq<Event>, t: Tid, i: nat)
    requires ValidRun(w, evs) && LookedAt(w, evs, t, i)
    ensures i + 1 <= |evs| && Before(w, evs, i + 1).methods == Before(w, evs, i).methods
  {
    hide Confirmed, FirstOccurrences, Run, ValidRun;
    BeforeNext(w, evs, i);
  }

  /** Main result on single-factor sessions, for every run with two-factor sign-in on: at the moment the session was
      created its user had no confirmed method exactly when every one confirmed since the gate's look at them was
      deleted again. */
  lemma SingleFactorIff(w: World, evs: seq<Event>, id: SessionId)
    requires AtStart(w) && ValidRun(w, evs) && w.config.mfaOn
    requires id in Run(w, evs).sessions && Run(w, evs).sessions[id].acr == "0"
    ensures exists i: nat, k: nat ::
              Window(w, evs, id, i, k) && OwnedNoneIff(w, evs, id, Run(w, evs).sessions[id].user, i + 1, k)
  {
    MadeIfThere(w, evs, id);
    var user := Run(w, evs).sessions[id].user;
    var k := FindCreation(w, evs, id);
    var i := WindowOf(w, evs, id, k);
    CreatorOf(w, evs, id, k);
    LookChangesNothing(w, evs, Run(w, evs).hist.made[id], i);
    Between(w, evs, i + 1, k);
    NoneConfirmedIff(Before(w, evs, i + 1), evs[i + 1..k], user);
    assert Confirmed(Before(w, evs, i + 1), user) == {};
    assert OwnedNoneIff(w, evs, id, user, i + 1, k);
  }

  lemma MadeIfThere(w: World, evs: seq<Event>, id: SessionId)
    requires AtStart(w) && ValidRun(w, evs) && id in Run(w, evs).sessions
    ensures id in Run(w, evs).hist.made
  {
    FromStart(w.config, w.now, w.methods, w.backups, evs);
    assert SessionAt(Run(w, evs), id);
  }

  /** With two-factor sign-in off nobody looks: it depends on all that happened to the user's methods. */
  lemma SingleFactorWithoutGateIff(w: World, evs: seq<Event>, id: SessionId)
    requires AtStart(w) && ValidRun(w, evs) && !w.config.mfaOn
    requires id in Run(w, evs).sessions && Run(w, evs).sessions[id].acr == "0"
    ensures Run(w, evs).hist.looks == map[]
    ensures exists k: nat ::
              && CreatedAt(w, evs, id, k) && ValidRun(w, evs[..k])
              && var user := Run(w, evs).sessions[id].user;
                 Run(w, evs).hist.owned[id] == {} <==>
                 (forall m :: m in Confirmed(w, user) ==> DeleteMethod(m) in evs[..k]) && AllUndone(w, evs[..k], user)
  {
    MadeIfThere(w, evs, id);
    NobodyLooks(w, evs);
    var user := Run(w, evs).sessions[id].user;
    var k := FindCreation(w, evs, id);
    CreatorOf(w, evs, id, k);
    Split(w, evs, k);
    NoneConfirmedIff(w, evs[..k], user);
  }

  lemma {:induction false} NobodyLooks(w: World, evs: seq<Event>)
    requires ValidRun(w, evs) && !w.config.mfaOn && w.hist.looks == map[]
    ensures Run(w, evs).hist.looks == map[]
    decreases |evs|
  {
    hide Apply, Enabled;
    if evs != [] {
      ApplyConfig(w, evs[0]);
      forall t
        ensures t !in Apply(w, evs[0]).hist.looks
      {
        if t in Apply(w, evs[0]).hist.looks { LookStep(w, evs[0], t); }
      }
      NobodyLooks(Apply(w, evs[0]), evs[1..]);
    }
  }

  /** The gate and the session are separate statements: a method confirmed between them leaves a single-factor session
      for a user who has a second factor. */
  lemma ConfirmBetweenGateAndSession(w: World, tid: Tid, m: MethodId, id: SessionId)
    requires tid in w.calls && w.calls[tid].Passed? && id !in w.hist.made
    requires m in w.methods && w.methods[m].user == w.calls[tid].user
    ensures var evs := [Confirm(m), CreateSession(tid, id)];
            && ValidRun(w, evs)
            && var v := Run(w, evs);
               id in v.sessions && v.sessions[id].acr == "0" && m in Confirmed(v, v.sessions[id].user)
  {
    var x := Apply(w, Confirm(m));
    var y := Apply(x, CreateSession(tid, id));
    var evs := [Confirm(m), CreateSession(tid, id)];
    assert evs[1..] == [CreateSession(tid, id)] && evs[1..][1..] == [];
    assert ValidRun(y, []) && ValidRun(x, evs[1..]) && Run(x, evs[1..]) == y;
  }

  // ----- a factor forced on everyone -----

  ghost predicate EmptyHanded(w: World, user: UserId) {
    Confirmed(w, user) == {} && (user in w.backups ==> w.backups[user] == 0)
  }

  /** The user has nothing to answer a challenge with all along, and signs in through providers only. */
  ghost predicate Stranded(w: World, evs: seq<Event>, user: UserId)
    requires ValidRun(w, evs)
    decreases |evs|
  {
    && EmptyHanded(w, user)
    && (evs != [] ==>
          && (evs[0].SignIn? && evs[0].user == user ==> evs[0].via.Provider?)
          && Stranded(Apply(w, evs[0]), evs[1..], user))
  }

  ghost predicate NotThrough(c: Call, user: UserId) {
    match c
    case SignedIn(u, via) => u == user ==> via.Provider?
    case Listed(u, via, _) => u == user ==> via.Provider?
    case Passed(u, _) => u != user
    case Proven(_, u, _) => u != user
    case _ => true
  }

  ghost predicate Outside(w: World, user: UserId) {
    && w.config.mfaOn && w.config.force
    && (forall t :: t in w.calls ==> NotThrough(w.calls[t], user))
    && (forall id :: id in w.sessions ==> w.sessions[id].user != user)
  }

  lemma CheckFails(w: World, tid: Tid, factor: Factor, good: bool, user: UserId)
    requires Enabled(w, CheckFactor(tid, factor, good)) && EmptyHanded(w, user) && w.calls[tid].user == user
    ensures Apply(w, CheckFactor(tid, factor, good)) == w.(calls := w.calls[tid := Over])
  {
    hide FirstOccurrences, CopiesSession;
    assert factor.Backup? || factor.device !in Confirmed(w, user);
  }

  predicate MovesCall(ev: Event) {
    ev.SignIn? || ev.ListMethods? || ev.CountBackups? || ev.OpenChallenge? || ev.CheckFactor?
  }

  lemma MovedCall(w: World, ev: Event, user: UserId)
    requires Enabled(w, ev) && EmptyHanded(w, user) && Outside(w, user) && MovesCall(ev)
    requires ev.SignIn? && ev.user == user ==> ev.via.Provider?
    ensures var w' := Apply(w, ev);
            && w'.config == w.config && w'.sessions == w.sessions && ev.tid in w'.calls
            && w'.calls == w.calls[ev.tid := w'.calls[ev.tid]] && NotThrough(w'.calls[ev.tid], user)
  {
    if ev.CheckFactor? {
      FactorStep(w, ev.tid, ev.factor, ev.good, user);
    } else if ev.CountBackups? {
      GateStep(w, ev.tid, ev.challenge, user);
    } else {
      hide Enabled, Confirmed, Expires, Readable, EmptyHanded;
    }
  }

  lemma FactorStep(w: World, tid: Tid, factor: Factor, good: bool, user: UserId)
    requires Enabled(w, CheckFactor(tid, factor, good)) && EmptyHanded(w, user)
    ensures var w' := Apply(w, CheckFactor(tid, factor, good));
            && w'.config == w.config && w'.sessions == w.sessions && tid in w'.calls
            && w'.calls == w.calls[tid := w'.calls[tid]] && NotThrough(w'.calls[tid], user)
  {
    if w.calls[tid].user == user { CheckFails(w, tid, factor, good, user); }
    hide Verified, EmptyHanded;
  }

  lemma GateStep(w: World, tid: Tid, challenge: ChallengeId, user: UserId)
    requires Enabled(w, CountBackups(tid, challenge)) && Outside(w, user)
    ensures var w' := Apply(w, CountBackups(tid, challenge));
            && w'.config == w.config && w'.sessions == w.sessions && tid in w'.calls
            && w'.calls == w.calls[tid := w'.calls[tid]] && NotThrough(w'.calls[tid], user)
  {
    assert NotThrough(w.calls[tid], user);
    hide Expires, Outside;
  }

  lemma Unmoved(w: World, ev: Event)
    requires Enabled(w, ev) && (IsQuiet(ev) || ev.CutCode?)
    ensures var w' := Apply(w, ev);
            && w'.config == w.config && w'.calls == w.calls
            && forall id :: id in w'.sessions ==> id in w.sessions && w'.sessions[id] == w.sessions[id]
  {
    hide Enabled;
  }

  lemma StaysOutside(w: World, ev: Event, user: UserId)
    requires Enabled(w, ev) && EmptyHanded(w, user) && Outside(w, user)
    requires ev.SignIn? && ev.user == user ==> ev.via.Provider?
    ensures Outside(Apply(w, ev), user)
  {
    if ev.CreateSession? {
      hide Confirmed, AmrOf, FirstAmr, EmptyHanded;
      assert NotThrough(w.calls[ev.tid], user);
    } else {
      hide Apply, Enabled, EmptyHanded;
      if MovesCall(ev) { MovedCall(w, ev, user); } else { Unmoved(w, ev); }
    }
  }

  /** Main result on forced factors, for every run: a user without a confirmed method or an unused backup code who signs
      in through providers has no session, and gets none as long as that stays so. */
  lemma {:induction false} ForcedProviderDeadEnd(w: World, evs: seq<Event>, user: UserId)
    requires ValidRun(w, evs) && Outside(w, user) && Stranded(w, evs, user)
    ensures Outside(Run(w, evs), user)
    decreases |evs|
  {
    hide Apply, Enabled, EmptyHanded, Outside;
    if evs != [] {
      StaysOutside(w, evs[0], user);
      ForcedProviderDeadEnd(Apply(w, evs[0]), evs[1..], user);
    }
  }

  /** From an empty start. */
  lemma NoSessionWhenForced(w: World, evs: seq<Event>, user: UserId, id: SessionId)
    requires AtStart(w) && w.config.mfaOn && w.config.force && ValidRun(w, evs) && Stranded(w, evs, user)
    ensures id in Run(w, evs).sessions ==> Run(w, evs).sessions[id].user != user
  {
    ForcedProviderDeadEnd(w, evs, user);
  }
}
