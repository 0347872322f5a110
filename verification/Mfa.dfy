/** Two-factor sign-in.  The gates of internal/api/cas/login.go and internal/api/federation/handler.go, the signed
    challenge of internal/auth/mfa/challenge.go, the factor checks and finishChallenge of internal/api/mfa/handler.go,
    and the code that internal/api/oidc/authorize.go cuts from a session.  Every request is a sequence of single
    statements, and requests interleave.  Instants are nanoseconds. */
module Mfa {
  import opened Common
  import OidcStore

  const SECOND: int := 1_000_000_000
  const CHALLENGE_TTL: int := 300 * SECOND

  type Tid = nat
  type UserId = nat
  type MethodId = nat
  type ChallengeId = nat
  type SessionId = nat

  // ----- status -----

  datatype Kind = Totp | WebAuthn
  datatype Method = Method(user: UserId, kind: Kind, confirmed: bool)

  datatype Status = Status(types: seq<Kind>, hasBackup: bool, required: bool, enrollmentRequired: bool)

  function ComputeStatus(types: seq<Kind>, hasBackup: bool, force: bool): (s: Status)
    ensures s.required && !s.enrollmentRequired <==> types != []
    ensures s.required <==> types != [] || force
  {
    var enrolled := |types| > 0;
    var required := enrolled || force;
    Status(types, hasBackup, required, required && !enrolled)
  }

  /** The kinds that occur, each at its first place. */
  ghost predicate FirstOccurrences(kinds: seq<Kind>, types: seq<Kind>) {
    && (forall k :: k in types <==> k in kinds)
    && (forall i, j :: 0 <= i < j < |types| ==> types[i] != types[j])
    && (forall i, j :: 0 <= i < j < |types| ==> Place(kinds, types[i]) < Place(kinds, types[j]))
  }

  function Place(kinds: seq<Kind>, k: Kind): nat
    decreases |kinds|
  {
    if kinds == [] || kinds[0] == k then 0 else 1 + Place(kinds[1..], k)
  }

  lemma {:induction false} PlaceIsFirst(kinds: seq<Kind>, k: Kind)
    ensures Place(kinds, k) <= |kinds|
    ensures k in kinds ==> Place(kinds, k) < |kinds| && kinds[Place(kinds, k)] == k
    ensures forall i :: 0 <= i < Place(kinds, k) ==> kinds[i] != k
    decreases |kinds|
  {
    if kinds != [] && kinds[0] != k {
      PlaceIsFirst(kinds[1..], k);
      assert forall i :: 0 < i < |kinds| ==> kinds[i] == kinds[1..][i - 1];
    }
  }

  lemma OccurrencesEmpty(kinds: seq<Kind>, types: seq<Kind>)
    requires FirstOccurrences(kinds, types)
    ensures types == [] <==> kinds == []
  {
    if kinds != [] { assert kinds[0] in types; }
    if types != [] { assert types[0] in kinds; }
  }

  /** `kinds` are the confirmed methods in order of creation, `backups` the number of unused backup codes. */
  method StatusForUser(kinds: seq<Kind>, backups: nat, force: bool) returns (s: Status)
    ensures FirstOccurrences(kinds, s.types)
    ensures s == ComputeStatus(s.types, backups > 0, force)
    ensures s.types == [] <==> kinds == []
  {
    var seen: set<Kind> := {};
    var types: seq<Kind> := [];
    for i := 0 to |kinds|
      invariant forall k :: k in seen <==> k in kinds[..i]
      invariant forall k :: k in types <==> k in seen
      invariant forall a, b :: 0 <= a < b < |types| ==>
                  types[a] != types[b] && Place(kinds, types[a]) < Place(kinds, types[b])
    {
      if kinds[i] !in seen {
        PlaceIsFirst(kinds, kinds[i]);
        assert Place(kinds, kinds[i]) == i;
        forall a | 0 <= a < |types|
          ensures Place(kinds, types[a]) < i
        {
          PlaceIsFirst(kinds, types[a]);
          assert types[a] in kinds[..i];
        }
        seen := seen + {kinds[i]};
        types := types + [kinds[i]];
      }
    }
    assert kinds[..|kinds|] == kinds;
    s := ComputeStatus(types, backups > 0, force);
    OccurrencesEmpty(kinds, types);
  }

  // ----- the challenge cookie -----

  function Unix(t: int): int { t / SECOND }

  function Expires(issuedAt: int): int { Unix(issuedAt + CHALLENGE_TTL) }

  predicate Readable(expires: int, now: int) { Unix(now) <= expires }

  /** A challenge can be read for less than 301 seconds, whatever the fractions, and no smaller whole bound holds. */
  lemma ReadableWindow(issuedAt: int, now: int)
    ensures Readable(Expires(issuedAt), now) ==> now - issuedAt < 301 * 1_000_000_000
    ensures now - issuedAt <= 300 * 1_000_000_000 ==> Readable(Expires(issuedAt), now)
  {}

  lemma WindowIsTight(whole: int)
    ensures Readable(Expires(whole * SECOND), whole * SECOND + 301 * SECOND - 1)
    ensures !Readable(Expires(whole * SECOND), whole * SECOND + 301 * SECOND)
  {}

  // ----- requests, statement by statement -----

  datatype Config = Config(mfaOn: bool, force: bool)
  datatype Via = Password | Provider(name: string)
  datatype Factor = Otp(device: MethodId) | Backup | SecurityKey(device: MethodId)

  function AmrOf(f: Factor): seq<string> {
    match f
    case Otp(_) => ["pwd", "otp"]
    case Backup => ["pwd", "mfa"]
    case SecurityKey(_) => ["pwd", "hwk"]
  }

  function FirstAmr(via: Via): seq<string> {
    match via
    case Password => ["pwd"]
    case Provider(name) => ["fed", name]
  }

  /** The gate: a password login challenges an enrolled user, a federated one whenever a factor is required. */
  predicate Challenges(via: Via, s: Status) {
    if via.Password? then s.required && !s.enrollmentRequired else s.required
  }

  datatype Call =
    | SignedIn(user: UserId, via: Via)                        // password or provider accepted
    | Listed(user: UserId, via: Via, types: seq<Kind>)        // confirmed methods read
    | Passed(user: UserId, via: Via)                          // the gate lets the request through
    | Answering(challenge: ChallengeId, user: UserId)         // cookie read and valid
    | Proven(challenge: ChallengeId, user: UserId, factor: Factor)
    | Over

  datatype Session = Session(user: UserId, acr: string, amr: seq<string>, createdAt: int)

  datatype Login = Login(user: UserId, via: Via, at: int)
  datatype Issue = Issue(maker: Tid, user: UserId, at: int, expires: int)
  datatype Look = Look(user: UserId, confirmed: set<MethodId>)
  datatype Proof = Proof(challenge: ChallengeId, user: UserId, factor: Factor, readAt: int, at: int,
                         row: Option<Method>)

  /** What happened, by request; `made` says which request created a session, `born` how it was created, `owned` which
      confirmed methods its user had at that moment, `codes` what authorize cut. */
  datatype History = History(logins: map<Tid, Login>, issues: map<ChallengeId, Issue>, looks: map<Tid, Look>,
                             openedAt: map<Tid, int>, proofs: map<Tid, Proof>, made: map<SessionId, Tid>,
                             born: map<SessionId, Session>, owned: map<SessionId, set<MethodId>>,
                             codes: map<string, SessionId>)

  datatype World = World(config: Config, now: int, methods: map<MethodId, Method>, backups: map<UserId, nat>,
                         calls: map<Tid, Call>, sessions: map<SessionId, Session>,
                         codes: map<string, OidcStore.Code>, hist: History)

  datatype Event =
    | Tick(to: int)
    | Enrol(device: MethodId, row: Method)
    | Confirm(device: MethodId)
    | DeleteMethod(device: MethodId)
    | SetBackups(user: UserId, n: nat)
    | SignIn(tid: Tid, user: UserId, via: Via)
    | ListMethods(tid: Tid, kinds: seq<Kind>, types: seq<Kind>)
    | CountBackups(tid: Tid, challenge: ChallengeId)
    | OpenChallenge(tid: Tid, challenge: ChallengeId)
    | CheckFactor(tid: Tid, factor: Factor, good: bool)
    | CreateSession(tid: Tid, session: SessionId)
    | EndSession(session: SessionId)
    | CutCode(id: string, session: SessionId, code: OidcStore.Code)

  function Confirmed(w: World, user: UserId): set<MethodId> {
    set m | m in w.methods && w.methods[m].user == user && w.methods[m].confirmed
  }

  /** A factor belongs to the user and may be used: a confirmed method of the right kind, or an unused code. */
  predicate Usable(methods: map<MethodId, Method>, backups: map<UserId, nat>, user: UserId, f: Factor) {
    match f
    case Otp(m) => m in methods && methods[m] == Method(user, Totp, true)
    case SecurityKey(m) => m in methods && methods[m] == Method(user, WebAuthn, true)
    case Backup => user in backups && backups[user] > 0
  }

  predicate Fresh(w: World, tid: Tid) { tid !in w.calls }

  ghost predicate Enabled(w: World, ev: Event) {
    match ev
    case Tick(to) => w.now <= to
    case SignIn(tid, _, _) => Fresh(w, tid)
    case ListMethods(tid, kinds, types) =>
      && tid in w.calls && w.calls[tid].SignedIn? && w.config.mfaOn && FirstOccurrences(kinds, types)
      && (kinds == [] <==> Confirmed(w, w.calls[tid].user) == {})
    case CountBackups(tid, challenge) => tid in w.calls && w.calls[tid].Listed? && challenge !in w.hist.issues
    case OpenChallenge(tid, challenge) => Fresh(w, tid) && challenge in w.hist.issues
    case CheckFactor(tid, _, _) => tid in w.calls && w.calls[tid].Answering?
    case CreateSession(tid, session) =>
      && tid in w.calls && session !in w.hist.made
      && (w.calls[tid].Passed? || w.calls[tid].Proven? || (w.calls[tid].SignedIn? && !w.config.mfaOn))
    case CutCode(id, session, code) =>
      && id !in w.codes && session in w.sessions && code.consumedAt.None?
      && CopiesSession(w.sessions[session], session, code)
    case _ => true
  }

  /** issueCodeAndRedirect: an empty acr becomes "0"; user, session and auth time are the session's. */
  predicate CopiesSession(s: Session, id: SessionId, code: OidcStore.Code) {
    && code.acr == (if s.acr == "" then "0" else s.acr)
    && code.user == s.user && code.session == id && code.authTime == s.createdAt
  }

  function Verified(w: World, tid: Tid, factor: Factor, good: bool): bool
    requires tid in w.calls && w.calls[tid].Answering?
  {
    good && Usable(w.methods, w.backups, w.calls[tid].user, factor)
  }

  ghost function Apply(w: World, ev: Event): World
    requires Enabled(w, ev)
  {
    match ev
    case Tick(to) => w.(now := to)
    case Enrol(m, row) => if m in w.methods then w else w.(methods := w.methods[m := row])
    case Confirm(m) => if m in w.methods then w.(methods := w.methods[m := w.methods[m].(confirmed := true)]) else w
    case DeleteMethod(m) => w.(methods := w.methods - {m})
    case SetBackups(user, n) => w.(backups := w.backups[user := n])
    case SignIn(tid, user, via) =>
      w.(calls := w.calls[tid := SignedIn(user, via)],
         hist := w.hist.(logins := w.hist.logins[tid := Login(user, via, w.now)]))
    case ListMethods(tid, _, types) =>
      var c := w.calls[tid];
      w.(calls := w.calls[tid := Listed(c.user, c.via, types)],
         hist := w.hist.(looks := w.hist.looks[tid := Look(c.user, Confirmed(w, c.user))]))
    case CountBackups(tid, challenge) =>
      var c := w.calls[tid];
      var s := ComputeStatus(c.types, c.user in w.backups && w.backups[c.user] > 0, w.config.force);
      if Challenges(c.via, s) then
        w.(calls := w.calls[tid := Over],
           hist := w.hist.(issues := w.hist.issues[challenge := Issue(tid, c.user, w.now, Expires(w.now))]))
      else w.(calls := w.calls[tid := Passed(c.user, c.via)])
    case OpenChallenge(tid, challenge) =>
      var i := w.hist.issues[challenge];
      if Readable(i.expires, w.now) then
        w.(calls := w.calls[tid := Answering(challenge, i.user)],
           hist := w.hist.(openedAt := w.hist.openedAt[tid := w.now]))
      else w.(calls := w.calls[tid := Over])
    case CheckFactor(tid, factor, good) =>
      var c := w.calls[tid];
      if !Verified(w, tid, factor, good) then w.(calls := w.calls[tid := Over])
      else
        var row := if factor.Backup? then None else Some(w.methods[factor.device]);
        w.(calls := w.calls[tid := Proven(c.challenge, c.user, factor)],
           backups := if factor.Backup? then w.backups[c.user := w.backups[c.user] - 1] else w.backups,
           hist := w.hist.(proofs := w.hist.proofs[tid := Proof(c.challenge, c.user, factor,
                             if tid in w.hist.openedAt then w.hist.openedAt[tid] else w.now, w.now, row)]))
    case CreateSession(tid, id) =>
      var c := w.calls[tid];
      var s := if c.Proven? then Session(c.user, "1", AmrOf(c.factor), w.now)
               else Session(c.user, "0", FirstAmr(c.via), w.now);
      w.(calls := w.calls[tid := Over], sessions := w.sessions[id := s],
         hist := w.hist.(made := w.hist.made[id := tid], born := w.hist.born[id := s],
                         owned := w.hist.owned[id := Confirmed(w, c.user)]))
    case EndSession(id) => w.(sessions := w.sessions - {id})
    case CutCode(id, session, code) =>
      w.(codes := w.codes[id := code], hist := w.hist.(codes := w.hist.codes[id := session]))
  }

  ghost predicate ValidRun(w: World, evs: seq<Event>)
    decreases |evs|
  {
    evs == [] || (Enabled(w, evs[0]) && ValidRun(Apply(w, evs[0]), evs[1..]))
  }

  ghost function Run(w: World, evs: seq<Event>): World
    requires ValidRun(w, evs)
    decreases |evs|
  {
    if evs == [] then w else Run(Apply(w, evs[0]), evs[1..])
  }

  function Start(config: Config, now: int, methods: map<MethodId, Method>, backups: map<UserId, nat>): World {
    World(config, now, methods, backups, map[], map[], map[],
          History(map[], map[], map[], map[], map[], map[], map[], map[], map[]))
  }

  // ----- provenance -----

  /** A challenge goes to a user whose password or provider step succeeded before. */
  ghost predicate IssueOk(h: History, c: ChallengeId) {
    c in h.issues ==>
      var i := h.issues[c];
      && i.expires == Expires(i.at)
      && i.maker in h.logins && h.logins[i.maker].user == i.user && h.logins[i.maker].at <= i.at
  }

  /** A factor of the challenged user was accepted, by a request that read the challenge within 301 seconds. */
  ghost predicate ProofOk(h: History, t: Tid) {
    t in h.proofs ==>
      var p := h.proofs[t];
      && p.challenge in h.issues && h.issues[p.challenge].user == p.user
      && h.issues[p.challenge].at <= p.readAt < h.issues[p.challenge].at + 301 * SECOND && p.readAt <= p.at
      && match p.factor
         case Otp(_) => p.row == Some(Method(p.user, Totp, true))
         case SecurityKey(_) => p.row == Some(Method(p.user, WebAuthn, true))
         case Backup => p.row == None
  }

  /** Request `t` looked, saw no confirmed method, and was not stopped by a forced factor. */
  ghost predicate GatePassed(config: Config, h: History, t: Tid) {
    && t in h.logins
    && (config.mfaOn ==> t in h.looks && h.looks[t] == Look(h.logins[t].user, {}))
    && (config.mfaOn && h.logins[t].via.Provider? ==> !config.force)
  }

  ghost predicate CallAt(w: World, t: Tid) {
    && (t in w.hist.logins || t in w.hist.looks || t in w.hist.openedAt || t in w.hist.proofs ==> t in w.calls)
    && (t in w.hist.logins ==> w.hist.logins[t].at <= w.now)
    && (t in w.calls ==>
          match w.calls[t]
          case SignedIn(user, via) =>
            t !in w.hist.looks && t in w.hist.logins && w.hist.logins[t].user == user && w.hist.logins[t].via == via
          case Listed(user, via, types) =>
            && t in w.hist.logins && w.hist.logins[t].user == user && w.hist.logins[t].via == via && w.config.mfaOn
            && t in w.hist.looks && w.hist.looks[t].user == user && (types == [] <==> w.hist.looks[t].confirmed == {})
          case Passed(user, via) =>
            GatePassed(w.config, w.hist, t) && w.hist.logins[t].user == user && w.hist.logins[t].via == via
          case Answering(c, user) =>
            && c in w.hist.issues && w.hist.issues[c].user == user && t in w.hist.openedAt && t !in w.hist.proofs
            && w.hist.issues[c].at <= w.hist.openedAt[t] < w.hist.issues[c].at + 301 * SECOND &&
                w.hist.openedAt[t] <= w.now
          case Proven(c, user, factor) =>
            t in w.hist.proofs && w.hist.proofs[t].challenge == c && w.hist.proofs[t].user == user &&
                w.hist.proofs[t].factor == factor
          case Over => true)
  }

  ghost predicate IssueAt(w: World, c: ChallengeId) {
    IssueOk(w.hist, c) && (c in w.hist.issues ==> w.hist.issues[c].at <= w.now)
  }

  /** Where a session comes from. */
  ghost predicate Origin(w: World, id: SessionId, s: Session) {
    && id in w.hist.made && id in w.hist.born && w.hist.born[id] == s
    && var t := w.hist.made[id];
       if s.acr == "1" then
         t in w.hist.proofs && w.hist.proofs[t].user == s.user && s.amr == AmrOf(w.hist.proofs[t].factor)
         && w.hist.proofs[t].at <= s.createdAt
       else
         s.acr == "0" && GatePassed(w.config, w.hist, t) && w.hist.logins[t].user == s.user &&
             s.amr == FirstAmr(w.hist.logins[t].via)
  }

  ghost predicate SessionAt(w: World, id: SessionId) { id in w.sessions ==> Origin(w, id, w.sessions[id]) }

  ghost predicate CodeAt(w: World, id: string) {
    id in w.codes ==>
      && id in w.hist.codes
      && exists s: Session :: Origin(w, w.hist.codes[id], s) && CopiesSession(s, w.hist.codes[id], w.codes[id])
  }

  ghost predicate ProofAt(w: World, t: Tid) {
    ProofOk(w.hist, t) && (t in w.hist.proofs ==> w.hist.proofs[t].at <= w.now)
  }

  ghost predicate Core(w: World) {
    && (forall t: Tid {:trigger CallAt(w, t)} :: CallAt(w, t))
    && (forall c: ChallengeId {:trigger IssueAt(w, c)} :: IssueAt(w, c))
    && (forall t: Tid {:trigger ProofAt(w, t)} :: ProofAt(w, t))
    && w.hist.made.Keys == w.hist.born.Keys
  }

  ghost predicate Inv(w: World) {
    && Core(w)
    && (forall id: SessionId {:trigger SessionAt(w, id)} :: SessionAt(w, id))
    && (forall id: string {:trigger CodeAt(w, id)} :: CodeAt(w, id))
  }

  // ----- preservation -----

  /** The past is never rewritten. */
  ghost predicate Extends(h: History, h': History) {
    && (forall t :: t in h.logins ==> t in h'.logins && h'.logins[t] == h.logins[t])
    && (forall c :: c in h.issues ==> c in h'.issues && h'.issues[c] == h.issues[c])
    && (forall t :: t in h.looks ==> t in h'.looks && h'.looks[t] == h.looks[t])
    && (forall t :: t in h.openedAt ==> t in h'.openedAt && h'.openedAt[t] == h.openedAt[t])
    && (forall t :: t in h.proofs ==> t in h'.proofs && h'.proofs[t] == h.proofs[t])
    && (forall id :: id in h.made ==> id in h'.made && h'.made[id] == h.made[id])
    && (forall id :: id in h.born ==> id in h'.born && h'.born[id] == h.born[id])
  }

  ghost predicate Goes(w: World, w': World) {
    Extends(w.hist, w'.hist) && w.now <= w'.now && w'.config == w.config
  }

  predicate IsQuiet(ev: Event) {
    ev.Tick? || ev.Enrol? || ev.Confirm? || ev.DeleteMethod? || ev.SetBackups? || ev.EndSession?
  }

  /** Events that touch neither requests nor history. */
  lemma QuietKeeps(w: World, ev: Event)
    requires Core(w) && Enabled(w, ev) && IsQuiet(ev)
    ensures Core(Apply(w, ev)) && Goes(w, Apply(w, ev))
  {
    var w' := Apply(w, ev);
    assert w'.hist == w.hist && w'.calls == w.calls && w'.config == w.config && w.now <= w'.now;
    hide Apply, Enabled;
    forall t: Tid ensures CallAt(w', t) { assert CallAt(w, t); }
    forall t: Tid ensures ProofAt(w', t) { assert ProofAt(w, t); }
    forall c: ChallengeId ensures IssueAt(w', c) { assert IssueAt(w, c); }
  }

  lemma SignInKeeps(w: World, tid: Tid, user: UserId, via: Via)
    requires Core(w) && Enabled(w, SignIn(tid, user, via))
    ensures Core(Apply(w, SignIn(tid, user, via))) && Goes(w, Apply(w, SignIn(tid, user, via)))
  {
    hide FirstOccurrences, CopiesSession;
    var w' := Apply(w, SignIn(tid, user, via));
    assert CallAt(w, tid);
    forall t: Tid ensures CallAt(w', t) { assert CallAt(w, t); }
    forall t: Tid ensures ProofAt(w', t) { assert ProofAt(w, t); }
    forall c: ChallengeId ensures IssueAt(w', c) { assert IssueAt(w, c); }
  }

  lemma ListKeeps(w: World, tid: Tid, kinds: seq<Kind>, types: seq<Kind>)
    requires Core(w) && Enabled(w, ListMethods(tid, kinds, types))
    ensures Core(Apply(w, ListMethods(tid, kinds, types))) && Goes(w, Apply(w, ListMethods(tid, kinds, types)))
  {
    hide FirstOccurrences, CopiesSession;
    var w' := Apply(w, ListMethods(tid, kinds, types));
    assert CallAt(w, tid);
    OccurrencesEmpty(kinds, types);
    forall t: Tid ensures CallAt(w', t) { assert CallAt(w, t); }
    forall t: Tid ensures ProofAt(w', t) { assert ProofAt(w, t); }
    forall c: ChallengeId ensures IssueAt(w', c) { assert IssueAt(w, c); }
  }

  /** A request that does not move keeps its facts as the history grows. */
  lemma OtherCall(w: World, w': World, t: Tid)
    requires CallAt(w, t) && Goes(w, w') && (t in w'.calls <==> t in w.calls) &&
             (t in w.calls ==> w'.calls[t] == w.calls[t])
    requires t in w'.hist.logins ==> t in w.hist.logins
    requires t in w'.hist.looks ==> t in w.hist.looks
    requires t in w'.hist.openedAt ==> t in w.hist.openedAt
    requires t in w'.hist.proofs ==> t in w.hist.proofs
    ensures CallAt(w', t)
  {}

  lemma OtherProof(w: World, w': World, t: Tid)
    requires ProofAt(w, t) && Goes(w, w') && (t in w'.hist.proofs ==> t in w.hist.proofs)
    ensures ProofAt(w', t)
  {}

  lemma OtherIssue(w: World, w': World, c: ChallengeId)
    requires IssueAt(w, c) && Goes(w, w') && (c in w'.hist.issues ==> c in w.hist.issues)
    ensures IssueAt(w', c)
  {}

  lemma CountStep(w: World, w': World, tid: Tid, c: ChallengeId)
    requires CallAt(w, tid) && tid in w.calls && w.calls[tid].Listed? && c !in w.hist.issues
    requires var call := w.calls[tid];
             var hasBackup := call.user in w.backups && w.backups[call.user] > 0;
             w' == if Challenges(call.via, ComputeStatus(call.types, hasBackup, w.config.force)) then
                     w.(calls := w.calls[tid := Over],
                        hist := w.hist.(issues := w.hist.issues[c := Issue(tid, call.user, w.now, Expires(w.now))]))
                   else w.(calls := w.calls[tid := Passed(call.user, call.via)])
    ensures Goes(w, w') && CallAt(w', tid) && IssueAt(w', c)
    ensures w'.hist == w.hist.(issues := w'.hist.issues) && w'.calls == w.calls[tid := w'.calls[tid]]
    ensures w'.hist.issues == w.hist.issues ||
            (c in w'.hist.issues && w'.hist.issues == w.hist.issues[c := w'.hist.issues[c]])
  {
    hide Expires, ComputeStatus;
  }

  lemma CountKeeps(w: World, tid: Tid, c: ChallengeId)
    requires Core(w) && Enabled(w, CountBackups(tid, c))
    ensures Core(Apply(w, CountBackups(tid, c))) && Goes(w, Apply(w, CountBackups(tid, c)))
  {
    hide Goes, CallAt, ProofAt, IssueAt, ComputeStatus, Challenges, Expires;
    var w' := Apply(w, CountBackups(tid, c));
    assert CallAt(w, tid);
    CountStep(w, w', tid, c);
    forall t: Tid ensures CallAt(w', t) { assert CallAt(w, t); if t != tid { OtherCall(w, w', t); } }
    forall t: Tid ensures ProofAt(w', t) { assert ProofAt(w, t); OtherProof(w, w', t); }
    forall d: ChallengeId ensures IssueAt(w', d) { assert IssueAt(w, d); if d != c { OtherIssue(w, w', d); } }
  }

  lemma OpenStep(w: World, w': World, tid: Tid, c: ChallengeId)
    requires CallAt(w, tid) && IssueAt(w, c) && c in w.hist.issues && tid !in w.calls
    requires w' == if Readable(w.hist.issues[c].expires, w.now) then
                     w.(calls := w.calls[tid := Answering(c, w.hist.issues[c].user)],
                        hist := w.hist.(openedAt := w.hist.openedAt[tid := w.now]))
                   else w.(calls := w.calls[tid := Over])
    ensures Goes(w, w') && CallAt(w', tid)
    ensures w'.hist == w.hist.(openedAt := w'.hist.openedAt) && w'.calls == w.calls[tid := w'.calls[tid]]
    ensures forall t :: t != tid && t in w'.hist.openedAt ==> t in w.hist.openedAt
  {
    ReadableWindow(w.hist.issues[c].at, w.now);
    hide Expires, Readable;
  }

  lemma OpenKeeps(w: World, tid: Tid, c: ChallengeId)
    requires Core(w) && Enabled(w, OpenChallenge(tid, c))
    ensures Core(Apply(w, OpenChallenge(tid, c))) && Goes(w, Apply(w, OpenChallenge(tid, c)))
  {
    hide Goes, CallAt, ProofAt, IssueAt, Readable;
    var w' := Apply(w, OpenChallenge(tid, c));
    assert CallAt(w, tid) && IssueAt(w, c);
    OpenStep(w, w', tid, c);
    forall t: Tid ensures CallAt(w', t) { assert CallAt(w, t); if t != tid { OtherCall(w, w', t); } }
    forall t: Tid ensures ProofAt(w', t) { assert ProofAt(w, t); OtherProof(w, w', t); }
    forall d: ChallengeId ensures IssueAt(w', d) { assert IssueAt(w, d); OtherIssue(w, w', d); }
  }

  lemma CheckKeeps(w: World, tid: Tid, factor: Factor, good: bool)
    requires Core(w) && Enabled(w, CheckFactor(tid, factor, good))
    ensures Core(Apply(w, CheckFactor(tid, factor, good))) && Goes(w, Apply(w, CheckFactor(tid, factor, good)))
  {
    hide FirstOccurrences, CopiesSession;
    var w' := Apply(w, CheckFactor(tid, factor, good));
    assert CallAt(w, tid);
    forall t: Tid ensures CallAt(w', t) { assert CallAt(w, t); }
    forall t: Tid ensures ProofAt(w', t) { assert ProofAt(w, t); }
    forall c: ChallengeId ensures IssueAt(w', c) { assert IssueAt(w, c); }
  }

  lemma CreateKeeps(w: World, tid: Tid, id: SessionId)
    requires Core(w) && Enabled(w, CreateSession(tid, id))
    ensures Core(Apply(w, CreateSession(tid, id))) && Goes(w, Apply(w, CreateSession(tid, id)))
  {
    hide FirstOccurrences, CopiesSession;
    var w' := Apply(w, CreateSession(tid, id));
    assert CallAt(w, tid);
    forall t: Tid ensures CallAt(w', t) { assert CallAt(w, t); }
    forall t: Tid ensures ProofAt(w', t) { assert ProofAt(w, t); }
    forall c: ChallengeId ensures IssueAt(w', c) { assert IssueAt(w, c); }
  }

  lemma CutKeeps(w: World, id: string, session: SessionId, code: OidcStore.Code)
    requires Core(w) && Enabled(w, CutCode(id, session, code))
    ensures Core(Apply(w, CutCode(id, session, code))) && Goes(w, Apply(w, CutCode(id, session, code)))
  {
    hide FirstOccurrences, CopiesSession;
    var w' := Apply(w, CutCode(id, session, code));
    forall t: Tid ensures CallAt(w', t) { assert CallAt(w, t); }
    forall t: Tid ensures ProofAt(w', t) { assert ProofAt(w, t); }
    forall c: ChallengeId ensures IssueAt(w', c) { assert IssueAt(w, c); }
  }

  lemma CoreKeeps(w: World, ev: Event)
    requires Core(w) && Enabled(w, ev)
    ensures Core(Apply(w, ev)) && Goes(w, Apply(w, ev))
  {
    hide Core, Enabled, Apply, Goes;
    match ev
    case SignIn(tid, user, via) => SignInKeeps(w, tid, user, via);
    case ListMethods(tid, kinds, types) => ListKeeps(w, tid, kinds, types);
    case CountBackups(tid, c) => CountKeeps(w, tid, c);
    case OpenChallenge(tid, c) => OpenKeeps(w, tid, c);
    case CheckFactor(tid, factor, good) => CheckKeeps(w, tid, factor, good);
    case CreateSession(tid, id) => CreateKeeps(w, tid, id);
    case CutCode(id, session, code) => CutKeeps(w, id, session, code);
    case _ => QuietKeeps(w, ev);
  }

  lemma OriginStays(w: World, w': World, id: SessionId, s: Session)
    requires Origin(w, id, s) && Goes(w, w')
    ensures Origin(w', id, s)
  {}

  lemma KeepsSession(w: World, ev: Event, id: SessionId)
    requires Inv(w) && Enabled(w, ev)
    ensures SessionAt(Apply(w, ev), id)
  {
    CoreKeeps(w, ev);
    if ev.CreateSession? && ev.session == id {
      NewSession(w, ev.tid, id);
    } else {
      hide Extends, Origin, FirstOccurrences, CopiesSession, Core, ComputeStatus, Usable;
      var w' := Apply(w, ev);
      assert SessionAt(w, id);
      if id in w'.sessions {
        assert w'.sessions[id] == w.sessions[id];
        OriginStays(w, w', id, w.sessions[id]);
      }
    }
  }

  lemma NewSession(w: World, tid: Tid, id: SessionId)
    requires Core(w) && Enabled(w, CreateSession(tid, id))
    ensures SessionAt(Apply(w, CreateSession(tid, id)), id)
  {
    assert CallAt(w, tid) && ProofAt(w, tid);
  }

  lemma NewCode(w: World, id: string, session: SessionId, code: OidcStore.Code)
    requires Inv(w) && Enabled(w, CutCode(id, session, code))
    ensures CodeAt(Apply(w, CutCode(id, session, code)), id)
  {
    CoreKeeps(w, CutCode(id, session, code));
    hide Extends, Origin, CopiesSession, Core;
    var w' := Apply(w, CutCode(id, session, code));
    assert SessionAt(w, session);
    OriginStays(w, w', session, w.sessions[session]);
  }

  lemma KeepsCode(w: World, ev: Event, id: string)
    requires Inv(w) && Enabled(w, ev)
    ensures CodeAt(Apply(w, ev), id)
  {
    if ev.CutCode? && ev.id == id {
      NewCode(w, id, ev.session, ev.code);
    } else {
      OldCode(w, ev, id);
    }
  }

  lemma OldCode(w: World, ev: Event, id: string)
    requires Inv(w) && Enabled(w, ev)
    requires id in Apply(w, ev).codes ==> id in w.codes && Apply(w, ev).codes[id] == w.codes[id]
    requires id in w.hist.codes ==> id in Apply(w, ev).hist.codes && Apply(w, ev).hist.codes[id] == w.hist.codes[id]
    ensures CodeAt(Apply(w, ev), id)
  {
    CoreKeeps(w, ev);
    hide Extends, Origin, CopiesSession, Core, Apply, Enabled;
    if id in Apply(w, ev).codes {
      assert CodeAt(w, id);
      var s: Session :| Origin(w, w.hist.codes[id], s) && CopiesSession(s, w.hist.codes[id], w.codes[id]);
      OriginStays(w, Apply(w, ev), w.hist.codes[id], s);
    }
  }

  lemma Keeps(w: World, ev: Event)
    requires Inv(w) && Enabled(w, ev)
    ensures Inv(Apply(w, ev))
  {
    hide Apply, Enabled, Core, SessionAt, CodeAt;
    CoreKeeps(w, ev);
    forall id: SessionId ensures SessionAt(Apply(w, ev), id) { KeepsSession(w, ev, id); }
    forall id: string ensures CodeAt(Apply(w, ev), id) { KeepsCode(w, ev, id); }
  }

  lemma {:induction false} RunKeeps(w: World, evs: seq<Event>)
    requires Inv(w) && ValidRun(w, evs)
    ensures Inv(Run(w, evs))
    decreases |evs|
  {
    hide Inv, Apply, Enabled;
    if evs != [] {
      Keeps(w, evs[0]);
      RunKeeps(Apply(w, evs[0]), evs[1..]);
    }
  }
}
