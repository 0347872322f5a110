/** The sign-in handlers as they run when nothing comes between their statements: loginPOST of
    internal/api/cas/login.go, callback of internal/api/federation/handler.go and the challenge handlers of
    internal/api/mfa/handler.go.  Each is what the interleaved requests of module Mfa do when left alone. */
module MfaHandlers {
  import opened Common
  import opened Mfa

  datatype Challenge = Challenge(user: UserId, expires: int)
  datatype Server = Server(methods: map<MethodId, Method>, backups: map<UserId, nat>,
                           challenges: map<ChallengeId, Challenge>, sessions: map<SessionId, Session>)

  predicate Enrolled(s: Server, user: UserId) {
    exists m :: m in s.methods && s.methods[m].user == user && s.methods[m].confirmed
  }

  predicate HasFactor(s: Server, user: UserId, f: Factor) { Usable(s.methods, s.backups, user, f) }

  /** The policy: an enrolled user is challenged; a provider login also when a factor is forced on everyone. */
  predicate Stopped(config: Config, s: Server, via: Via, user: UserId) {
    config.mfaOn && (Enrolled(s, user) || (via.Provider? && config.force))
  }

  function LoginAlone(config: Config, s: Server, via: Via, user: UserId, c: ChallengeId, id: SessionId,
                      now: int): Server {
    if Stopped(config, s, via, user) then s.(challenges := s.challenges[c := Challenge(user, Expires(now))])
    else s.(sessions := s.sessions[id := Session(user, "0", FirstAmr(via), now)])
  }

  function AnswerAlone(s: Server, c: ChallengeId, f: Factor, good: bool, id: SessionId, now: int): Server {
    if c in s.challenges && Readable(s.challenges[c].expires, now) && good && HasFactor(s, s.challenges[c].user, f) then
      var user := s.challenges[c].user;
      s.(sessions := s.sessions[id := Session(user, "1", AmrOf(f), now)],
         backups := if f.Backup? then s.backups[user := s.backups[user] - 1] else s.backups)
    else s
  }

  /** The confirmed methods of a user, in order of creation. */
  ghost predicate ListsConfirmed(s: Server, user: UserId, ids: seq<MethodId>) {
    forall m :: m in ids <==> m in s.methods && s.methods[m].user == user && s.methods[m].confirmed
  }

  class Handler {
    const config: Config
    var server: Server

    /** The gate after a first factor, shared by both logins; `ids` is ListConfirmedMFAMethods. */
    method SignIn(via: Via, user: UserId, ids: seq<MethodId>, c: ChallengeId, id: SessionId, now: int)
      requires ListsConfirmed(server, user, ids)
      modifies this
      ensures server == LoginAlone(config, old(server), via, user, c, id, now)
      ensures var was := old(server);
              var enrolled := exists m :: m in was.methods && was.methods[m].user == user && was.methods[m].confirmed;
              && server.methods == was.methods && server.backups == was.backups
              && if config.mfaOn && (enrolled || (via.Provider? && config.force)) then
                   && server.sessions == was.sessions
                   && server.challenges ==
                        was.challenges[c := Challenge(user, (now + 300 * 1_000_000_000) / 1_000_000_000)]
                 else
                   && server.challenges == was.challenges
                   && var amr := if via.Password? then ["pwd"] else ["fed", via.name];
                      server.sessions == was.sessions[id := Session(user, "0", amr, now)]
    {
      if config.mfaOn {
        var rows := server.methods;
        assert forall i :: 0 <= i < |ids| ==> ids[i] in ids;
        var kinds := seq(|ids|, i requires 0 <= i < |ids| && ids[i] in rows => rows[ids[i]].kind);
        var backups := if user in server.backups then server.backups[user] else 0;
        var status := StatusForUser(kinds, backups, config.force);
        if ids != [] { assert ids[0] in ids; }
        assert Enrolled(server, user) <==> kinds != [] by {
          if Enrolled(server, user) {
            var m :| m in server.methods && server.methods[m].user == user && server.methods[m].confirmed;
            assert m in ids;
          }
        }
        if Challenges(via, status) {
          server := server.(challenges := server.challenges[c := Challenge(user, Expires(now))]);
          return;
        }
      }
      server := server.(sessions := server.sessions[id := Session(user, "0", FirstAmr(via), now)]);
    }

    /** Accepts on the first confirmed TOTP method whose secret the code fits. */
    method VerifyTOTP(user: UserId, ids: seq<MethodId>, fits: MethodId -> bool) returns (r: Option<MethodId>)
      requires ListsConfirmed(server, user, ids)
      ensures r.Some? ==> HasFactor(server, user, Otp(r.value)) && fits(r.value)
      ensures r.None? ==> forall m :: HasFactor(server, user, Otp(m)) ==> !fits(m)
    {
      for i := 0 to |ids|
        invariant forall j :: 0 <= j < i ==> !(HasFactor(server, user, Otp(ids[j])) && fits(ids[j]))
      {
        assert ids[i] in ids;
        if server.methods[ids[i]].kind == Totp && fits(ids[i]) { return Some(ids[i]); }
      }
      r := None;
      forall m | HasFactor(server, user, Otp(m)) ensures !fits(m) { assert m in ids; }
    }

    method FinishChallenge(user: UserId, f: Factor, id: SessionId, now: int)
      modifies this
      ensures server == old(server).(sessions := old(server).sessions[id := Session(user, "1", AmrOf(f), now)])
      ensures id in server.sessions && server.sessions[id].amr ==
                ["pwd", if f.Otp? then "otp" else if f.SecurityKey? then "hwk" else "mfa"]
    {
      server := server.(sessions := server.sessions[id := Session(user, "1", AmrOf(f), now)]);
    }

    method ReadChallenge(c: ChallengeId, now: int) returns (user: Option<UserId>)
      ensures user == if c in server.challenges && Readable(server.challenges[c].expires, now)
                      then Some(server.challenges[c].user) else None
      ensures user.Some? <==> c in server.challenges && now / 1_000_000_000 <= server.challenges[c].expires
    {
      if c !in server.challenges || Unix(now) > server.challenges[c].expires { return None; }
      user := Some(server.challenges[c].user);
    }

    method ChallengeTOTP(c: ChallengeId, ids: seq<MethodId>, fits: MethodId -> bool, id: SessionId, now: int)
      returns (used: Option<MethodId>)
      requires id !in server.sessions
      requires c in server.challenges ==> ListsConfirmed(server, server.challenges[c].user, ids)
      modifies this
      ensures used.Some? ==>
                && server == AnswerAlone(old(server), c, Otp(used.value), fits(used.value), id, now)
                && server != old(server)
      ensures used.None? ==>
                server == old(server) && forall m :: AnswerAlone(server, c, Otp(m), fits(m), id, now) == server
      ensures var was := old(server);
              used.Some? <==>
                && c in was.challenges && now / 1_000_000_000 <= was.challenges[c].expires
                && exists m ::
                     m in was.methods && was.methods[m] == Method(was.challenges[c].user, Totp, true) && fits(m)
      ensures used.Some? ==>
                var was := old(server);
                && used.value in was.methods && fits(used.value)
                && was.methods[used.value] == Method(was.challenges[c].user, Totp, true)
                && var mine := Session(was.challenges[c].user, "1", ["pwd", "otp"], now);
                   server == was.(sessions := was.sessions[id := mine])
    {
      var user := ReadChallenge(c, now);
      if user.None? { return None; }
      used := VerifyTOTP(user.value, ids, fits);
      if used.None? { return; }
      FinishChallenge(user.value, Otp(used.value), id, now);
      assert id in server.sessions;
    }

    method ChallengeBackup(c: ChallengeId, good: bool, id: SessionId, now: int) returns (ok: bool)
      modifies this
      ensures server == AnswerAlone(old(server), c, Backup, good, id, now)
      ensures var was := old(server);
              ok <==>
                && c in was.challenges && now / 1_000_000_000 <= was.challenges[c].expires && good
                && was.challenges[c].user in was.backups && was.backups[was.challenges[c].user] > 0
      ensures !ok ==> server == old(server)
      ensures ok ==>
                var was := old(server);
                var user := was.challenges[c].user;
                server == was.(backups := was.backups[user := was.backups[user] - 1],
                               sessions := was.sessions[id := Session(user, "1", ["pwd", "mfa"], now)])
    {
      var user := ReadChallenge(c, now);
      if user.None? || !good || user.value !in server.backups || server.backups[user.value] == 0 { return false; }
      server := server.(backups := server.backups[user.value := server.backups[user.value] - 1]);
      FinishChallenge(user.value, Backup, id, now);
      ok := true;
    }

    method ChallengeWebAuthnFinish(c: ChallengeId, device: MethodId, good: bool, id: SessionId, now: int)
      returns (ok: bool)
      modifies this
      ensures server == AnswerAlone(old(server), c, SecurityKey(device), good, id, now)
      ensures var was := old(server);
              ok <==>
                && c in was.challenges && now / 1_000_000_000 <= was.challenges[c].expires && good
                && device in was.methods && was.methods[device] == Method(was.challenges[c].user, WebAuthn, true)
      ensures !ok ==> server == old(server)
      ensures ok ==>
                var was := old(server);
                var mine := Session(was.challenges[c].user, "1", ["pwd", "hwk"], now);
                server == was.(sessions := was.sessions[id := mine])
    {
      var user := ReadChallenge(c, now);
      if user.None? || !good || device !in server.methods ||
          server.methods[device] != Method(user.value, WebAuthn, true) {
        return false;
      }
      FinishChallenge(user.value, SecurityKey(device), id, now);
      ok := true;
    }
  }

  // ----- the same in the interleaved machine -----

  function View(w: World): Server {
    var challenges := map c | c in w.hist.issues :: Challenge(w.hist.issues[c].user, w.hist.issues[c].expires);
    Server(w.methods, w.backups, challenges, w.sessions)
  }

  /** A login left alone does in the machine what the handler does. */
  lemma LoginIsARun(w: World, tid: Tid, user: UserId, via: Via, kinds: seq<Kind>, types: seq<Kind>, c: ChallengeId,
                    id: SessionId)
    requires tid !in w.calls && c !in w.hist.issues && id !in w.hist.made
    requires FirstOccurrences(kinds, types) && (kinds == [] <==> Confirmed(w, user) == {})
    ensures var e1 := SignIn(tid, user, via);
            && Enabled(w, e1)
            && var w1 := Apply(w, e1);
               if w.config.mfaOn then
                 && Enabled(w1, ListMethods(tid, kinds, types))
                 && var w2 := Apply(w1, ListMethods(tid, kinds, types));
                    && Enabled(w2, CountBackups(tid, c))
                    && var w3 := Apply(w2, CountBackups(tid, c));
                       if w3.calls[tid].Over? then View(w3) == LoginAlone(w.config, View(w), via, user, c, id, w.now)
                       else Enabled(w3, CreateSession(tid, id))
                            && View(Apply(w3, CreateSession(tid, id))) ==
                                LoginAlone(w.config, View(w), via, user, c, id, w.now)
               else Enabled(w1, CreateSession(tid, id))
                    && View(Apply(w1, CreateSession(tid, id))) == LoginAlone(w.config, View(w), via, user, c, id, w.now)
  {
    OccurrencesEmpty(kinds, types);
    EnrolledMeans(w, user);
    hide FirstOccurrences, Enrolled, Confirmed, Expires;
    var w1 := Apply(w, SignIn(tid, user, via));
    SameConfirmed(w, w1, user);
    if w.config.mfaOn {
      GateRun(w, w1, tid, user, via, kinds, types, c, id);
    }
  }

  lemma EnrolledMeans(w: World, user: UserId)
    ensures Enrolled(View(w), user) <==> Confirmed(w, user) != {}
  {
    if Enrolled(View(w), user) {
      var m :| m in w.methods && w.methods[m].user == user && w.methods[m].confirmed;
      assert m in Confirmed(w, user);
    }
    if Confirmed(w, user) != {} {
      var m :| m in Confirmed(w, user);
    }
  }

  lemma SameConfirmed(w: World, w1: World, user: UserId)
    requires w1.methods == w.methods
    ensures Confirmed(w1, user) == Confirmed(w, user)
  {}

  lemma GateRun(w: World, w1: World, tid: Tid, user: UserId, via: Via, kinds: seq<Kind>, types: seq<Kind>,
                c: ChallengeId, id: SessionId)
    requires tid !in w.calls && c !in w.hist.issues && id !in w.hist.made && w.config.mfaOn
    requires FirstOccurrences(kinds, types) && (kinds == [] <==> Confirmed(w, user) == {})
    requires w1 == Apply(w, SignIn(tid, user, via))
    ensures && Enabled(w1, ListMethods(tid, kinds, types))
            && var w2 := Apply(w1, ListMethods(tid, kinds, types));
               && Enabled(w2, CountBackups(tid, c))
               && var w3 := Apply(w2, CountBackups(tid, c));
                  if w3.calls[tid].Over? then View(w3) == LoginAlone(w.config, View(w), via, user, c, id, w.now)
                  else Enabled(w3, CreateSession(tid, id))
                       && View(Apply(w3, CreateSession(tid, id))) ==
                           LoginAlone(w.config, View(w), via, user, c, id, w.now)
  {
    OccurrencesEmpty(kinds, types);
    EnrolledMeans(w, user);
    SameConfirmed(w, w1, user);
    hide FirstOccurrences, Enrolled, Confirmed, Expires;
    var w2 := Apply(w1, ListMethods(tid, kinds, types));
    assert w2.calls[tid] == Listed(user, via, types) && w2.hist.issues == w.hist.issues && w2.hist.made == w.hist.made;
    assert w2 == w.(calls := w2.calls, hist := w2.hist);
    hide Apply;
    GateEnd(w, w2, tid, user, via, types, c, id);
  }

  lemma GateEnd(w: World, w2: World, tid: Tid, user: UserId, via: Via, types: seq<Kind>, c: ChallengeId, id: SessionId)
    requires w2 == w.(calls := w2.calls, hist := w2.hist) && w2.hist.issues == w.hist.issues &&
             w2.hist.made == w.hist.made
    requires tid in w2.calls && w2.calls[tid] == Listed(user, via, types) && w.config.mfaOn
    requires c !in w.hist.issues && id !in w.hist.made && (types == [] <==> !Enrolled(View(w), user))
    ensures Enabled(w2, CountBackups(tid, c))
    ensures var w3 := Apply(w2, CountBackups(tid, c));
            if w3.calls[tid].Over? then View(w3) == LoginAlone(w.config, View(w), via, user, c, id, w.now)
            else Enabled(w3, CreateSession(tid, id))
                 && View(Apply(w3, CreateSession(tid, id))) == LoginAlone(w.config, View(w), via, user, c, id, w.now)
  {
    hide Enrolled, Expires, View, Apply, Enabled;
    CountGives(w2, tid, user, via, types, c);
    var w3 := Apply(w2, CountBackups(tid, c));
    ViewOf(w, w2);
    if types != [] || (via.Provider? && w.config.force) {
      ViewWithIssue(w2, w3, c);
    } else {
      CreateAfterPass(w, w3, tid, user, via, id);
    }
  }

  /** The last statement of the gate issues a challenge or lets the request through. */
  lemma CountGives(w: World, tid: Tid, user: UserId, via: Via, types: seq<Kind>, c: ChallengeId)
    requires tid in w.calls && w.calls[tid] == Listed(user, via, types) && c !in w.hist.issues
    ensures Enabled(w, CountBackups(tid, c))
    ensures var v := Apply(w, CountBackups(tid, c));
            if types != [] || (via.Provider? && w.config.force) then
              && v.calls == w.calls[tid := Over] && v.sessions == w.sessions
              && v.hist == w.hist.(issues := w.hist.issues[c := Issue(tid, user, w.now, Expires(w.now))])
              && v.methods == w.methods && v.backups == w.backups
            else v == w.(calls := w.calls[tid := Passed(user, via)])
  {
    hide Readable, FirstOccurrences, CopiesSession, Confirmed, Verified, Expires, AmrOf, FirstAmr;
  }

  lemma CreateAfterPass(w: World, w3: World, tid: Tid, user: UserId, via: Via, id: SessionId)
    requires w3.methods == w.methods && w3.backups == w.backups && w3.hist.issues == w.hist.issues
    requires w3.now == w.now && w3.sessions == w.sessions && id !in w3.hist.made
    requires tid in w3.calls && w3.calls[tid] == Passed(user, via)
    ensures Enabled(w3, CreateSession(tid, id))
    ensures View(Apply(w3, CreateSession(tid, id))) ==
            View(w).(sessions := View(w).sessions[id := Session(user, "0", FirstAmr(via), w.now)])
  {
    hide View;
    ViewOf(w, Apply(w3, CreateSession(tid, id)));
  }

  lemma ViewOf(w: World, v: World)
    requires v.methods == w.methods && v.backups == w.backups && v.hist.issues == w.hist.issues
    ensures View(w).sessions == w.sessions && View(v) == View(w).(sessions := v.sessions)
  {}

  lemma ViewWithIssue(w: World, v: World, c: ChallengeId)
    requires v.methods == w.methods && v.backups == w.backups && v.sessions == w.sessions
    requires c in v.hist.issues && v.hist.issues == w.hist.issues[c := v.hist.issues[c]]
    ensures var challenge := Challenge(v.hist.issues[c].user, v.hist.issues[c].expires);
            View(v) == View(w).(challenges := View(w).challenges[c := challenge])
  {}

  /** Answering a challenge left alone: open it, check the factor, create the session. */
  lemma AnswerIsARun(w: World, tid: Tid, c: ChallengeId, f: Factor, good: bool, id: SessionId)
    requires tid !in w.calls && c in w.hist.issues && id !in w.hist.made
    ensures Enabled(w, OpenChallenge(tid, c))
    ensures var w1 := Apply(w, OpenChallenge(tid, c));
            if w1.calls[tid].Over? then View(w1) == AnswerAlone(View(w), c, f, good, id, w.now)
            else
              && Enabled(w1, CheckFactor(tid, f, good))
              && var w2 := Apply(w1, CheckFactor(tid, f, good));
                 if w2.calls[tid].Over? then View(w2) == AnswerAlone(View(w), c, f, good, id, w.now)
                 else Enabled(w2, CreateSession(tid, id))
                      && View(Apply(w2, CreateSession(tid, id))) == AnswerAlone(View(w), c, f, good, id, w.now)
  {
    hide Readable, View, Apply, Enabled, HasFactor;
    OpenGives(w, tid, c);
    var w1 := Apply(w, OpenChallenge(tid, c));
    ViewOf(w, w1);
    ViewIssue(w, c);
    if !w1.calls[tid].Over? { AnswerEnd(w, w1, tid, c, f, good, id); }
  }

  lemma OpenGives(w: World, tid: Tid, c: ChallengeId)
    requires tid !in w.calls && c in w.hist.issues
    ensures Enabled(w, OpenChallenge(tid, c))
    ensures var issue := w.hist.issues[c];
            var call := if Readable(issue.expires, w.now) then Answering(c, issue.user) else Over;
            var w1 := Apply(w, OpenChallenge(tid, c));
            && w1 == w.(calls := w.calls[tid := call], hist := w.hist.(openedAt := w1.hist.openedAt))
            && w1.hist.issues == w.hist.issues && w1.hist.made == w.hist.made
            && tid in w1.calls && w1.calls[tid] == call
  {
    hide Readable, FirstOccurrences, CopiesSession, Confirmed, ComputeStatus, Verified, Challenges, Expires, AmrOf;
    if Readable(w.hist.issues[c].expires, w.now) {
      assert Apply(w, OpenChallenge(tid, c)) ==
             w.(calls := w.calls[tid := Answering(c, w.hist.issues[c].user)],
                hist := w.hist.(openedAt := w.hist.openedAt[tid := w.now]));
    } else {
      assert Apply(w, OpenChallenge(tid, c)) == w.(calls := w.calls[tid := Over]);
    }
  }

  lemma ViewIssue(w: World, c: ChallengeId)
    requires c in w.hist.issues
    ensures c in View(w).challenges &&
            View(w).challenges[c] == Challenge(w.hist.issues[c].user, w.hist.issues[c].expires)
    ensures View(w).methods == w.methods && View(w).backups == w.backups
  {}

  lemma AnswerEnd(w: World, w1: World, tid: Tid, c: ChallengeId, f: Factor, good: bool, id: SessionId)
    requires c in w.hist.issues && id !in w.hist.made && Readable(w.hist.issues[c].expires, w.now)
    requires w1 == w.(calls := w1.calls, hist := w1.hist) && w1.hist.issues == w.hist.issues &&
             w1.hist.made == w.hist.made
    requires tid in w1.calls && w1.calls[tid] == Answering(c, w.hist.issues[c].user)
    ensures Enabled(w1, CheckFactor(tid, f, good))
    ensures var w2 := Apply(w1, CheckFactor(tid, f, good));
            if w2.calls[tid].Over? then View(w2) == AnswerAlone(View(w), c, f, good, id, w.now)
            else Enabled(w2, CreateSession(tid, id))
                 && View(Apply(w2, CreateSession(tid, id))) == AnswerAlone(View(w), c, f, good, id, w.now)
  {
    hide Readable, View, Apply, Enabled, Usable;
    var user := w.hist.issues[c].user;
    CheckGives(w1, tid, c, user, f, good);
    var w2 := Apply(w1, CheckFactor(tid, f, good));
    ViewIssue(w, c);
    if good && Usable(w1.methods, w1.backups, user, f) {
      CreateAfterProof(w, w2, tid, c, user, f, id);
    } else {
      ViewOf(w, w2);
    }
  }

  /** The factor is used up, or the request is over. */
  lemma CheckGives(w: World, tid: Tid, c: ChallengeId, user: UserId, f: Factor, good: bool)
    requires tid in w.calls && w.calls[tid] == Answering(c, user)
    ensures Enabled(w, CheckFactor(tid, f, good))
    ensures var v := Apply(w, CheckFactor(tid, f, good));
            && v == w.(calls := v.calls, hist := v.hist, backups := v.backups)
            && v.hist.issues == w.hist.issues && v.hist.made == w.hist.made && tid in v.calls
            && if good && Usable(w.methods, w.backups, user, f) then
                 && v.calls[tid] == Proven(c, user, f)
                 && (f.Backup? ==> user in w.backups && v.backups == w.backups[user := w.backups[user] - 1])
                 && (!f.Backup? ==> v.backups == w.backups)
               else v.calls[tid] == Over && v.backups == w.backups
  {}

  lemma CreateAfterProof(w: World, w2: World, tid: Tid, c: ChallengeId, user: UserId, f: Factor, id: SessionId)
    requires w2 == w.(calls := w2.calls, hist := w2.hist, backups := w2.backups)
    requires w2.hist.issues == w.hist.issues && id !in w2.hist.made && tid in w2.calls &&
             w2.calls[tid] == Proven(c, user, f)
    ensures Enabled(w2, CreateSession(tid, id))
    ensures View(Apply(w2, CreateSession(tid, id)))
            == View(w).(sessions := View(w).sessions[id := Session(user, "1", AmrOf(f), w.now)], backups := w2.backups)
  {}
}
