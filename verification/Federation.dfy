/** Accounts and upstream identities: LinkOrCreate of internal/auth/federation/service.go and the unlink handler of
    internal/api/admin/federation.go, over the users, user_identities and user_credentials tables. */
module Federation {
  import opened Common

  type UserId = nat
  type LinkId = nat

  // ----- e-mail addresses -----

  predicate Space(c: char) {
    c == ' ' || c == '\t' || c == '\n' || c == '\r' || c == 11 as char || c == 12 as char
  }

  function TrimSpace(s: string): string
    decreases |s|
  {
    if s != "" && Space(s[0]) then TrimSpace(s[1..])
    else if s != "" && Space(s[|s| - 1]) then TrimSpace(s[..|s| - 1])
    else s
  }

  function EmailPtr(s: string): Option<string> {
    var t := TrimSpace(Lower(s));
    if t == "" then None else Some(t)
  }

  /** Tab, line feed, vertical tab, form feed, carriage return and space. */
  predicate White(c: char) { c as int == 32 || 9 <= c as int <= 13 }

  predicate Blank(s: string) { forall i :: 0 <= i < |s| ==> White(s[i]) }

  predicate Trimmed(s: string) { s == "" || (!White(s[0]) && !White(s[|s| - 1])) }

  lemma BlankAround(c: char, s: string)
    requires White(c) && Blank(s)
    ensures Blank([c] + s) && Blank(s + [c]) && Blank("")
  {}

  /** Trimming takes blanks off both ends, and all of them. */
  lemma {:induction false} TrimSpaceMeans(s: string) returns (i: nat, j: nat)
    ensures i <= j <= |s| && TrimSpace(s) == s[i..j] && Blank(s[..i]) && Blank(s[j..]) && Trimmed(s[i..j])
    decreases |s|
  {
    if s != "" && Space(s[0]) {
      var a, b := TrimSpaceMeans(s[1..]);
      i, j := a + 1, b + 1;
      assert White(s[0]);
      hide Blank, White, Trimmed;
      BlankAround(s[0], s[1..][..a]);
      assert s[i..j] == s[1..][a..b] && s[j..] == s[1..][b..];
      assert s[..i] == [s[0]] + s[1..][..a];
    } else if s != "" && Space(s[|s| - 1]) {
      var n := |s| - 1;
      var a, b := TrimSpaceMeans(s[..n]);
      i, j := a, b;
      assert White(s[n]);
      hide Blank, White, Trimmed;
      BlankAround(s[n], s[..n][b..]);
      assert s[i..j] == s[..n][a..b] && s[..i] == s[..n][..a];
      assert s[j..] == s[..n][b..] + [s[n]];
    } else {
      i, j := 0, |s|;
      assert s[i..j] == s;
    }
  }

  /** The address as it is stored: in lower case and trimmed, and none at all when nothing is left. */
  lemma EmailPtrMeans(s: string)
    ensures EmailPtr(s).Some? ==> EmailPtr(s).value != "" && Trimmed(EmailPtr(s).value)
    ensures Trimmed(Lower(s)) ==> EmailPtr(s) == if s == "" then None else Some(Lower(s))
    ensures EmailPtr(s).None? <==> Blank(Lower(s))
  {
    var i, j := TrimSpaceMeans(Lower(s));
    var t := Lower(s);
    if EmailPtr(s).None? {
      assert t == t[..i] + t[j..];
      forall k | 0 <= k < |t| ensures White(t[k]) { assert k < i || (t[j..])[k - j] == t[k]; }
    } else {
      assert t[i..j][0] == t[i];
    }
  }

  // ----- tables -----

  datatype User = User(email: Option<string>, deleted: bool)
  datatype Ident = Ident(link: LinkId, user: UserId, email: Option<string>)
  datatype Key = Key(provider: string, sub: string)

  /** user_identities is unique on (provider, sub), so it is a map from that pair. */
  datatype Db = Db(users: map<UserId, User>, idents: map<Key, Ident>, passwords: set<UserId>)

  predicate Live(db: Db, u: UserId) { u in db.users && !db.users[u].deleted }

  predicate HasEmail(db: Db, u: UserId, email: string) {
    Live(db, u) && db.users[u].email.Some? && Lower(db.users[u].email.value) == Lower(email)
  }

  /** A row that is not deleted, whose address is this one but for letter case. */
  predicate OwnsAddress(db: Db, u: UserId, email: string) {
    && u in db.users && db.users[u].deleted == false && db.users[u].email != None
    && |db.users[u].email.value| == |email|
    && forall i :: 0 <= i < |email| ==> LowerChar(db.users[u].email.value[i]) == LowerChar(email[i])
  }

  ghost predicate Taken(db: Db, email: string) { exists u :: u in db.users && HasEmail(db, u, email) }

  lemma HasEmailMeans(db: Db, u: UserId, email: string)
    ensures HasEmail(db, u, email) <==> OwnsAddress(db, u, email)
  {
    if OwnsAddress(db, u, email) {
      assert Lower(db.users[u].email.value) == Lower(email);
    } else if HasEmail(db, u, email) {
      forall i | 0 <= i < |email| ensures LowerChar(db.users[u].email.value[i]) == LowerChar(email[i]) {
        assert Lower(db.users[u].email.value)[i] == Lower(email)[i];
      }
    }
  }

  /** What the schema enforces, and that ids are row ids. */
  ghost predicate Valid(db: Db) {
    && (forall u, v, e :: u in db.users && v in db.users && HasEmail(db, u, e) && HasEmail(db, v, e) ==> u == v)
    && (forall k :: k in db.idents ==> db.idents[k].user in db.users)
    && (forall j, k :: j in db.idents && k in db.idents && db.idents[j].link == db.idents[k].link ==> j == k)
    && (forall u :: u in db.passwords ==> u in db.users)
  }

  ghost function ByEmail(db: Db, email: string): (r: Option<UserId>)
    ensures r.Some? ==> r.value in db.users && HasEmail(db, r.value, email)
    ensures r.Some? <==> Taken(db, email)
  {
    if Taken(db, email) then var u :| u in db.users && HasEmail(db, u, email); Some(u) else None
  }

  /** The users_email_active_uq index refuses a second live account with one address. */
  ghost function CreateUser(db: Db, id: UserId, email: Option<string>): (Db, bool) {
    if email.Some? && Taken(db, email.value) then (db, false)
    else (db.(users := db.users[id := User(email, false)]), true)
  }

  function CreateIdentity(db: Db, key: Key, row: Ident): (Db, bool) {
    if key in db.idents then (db, false) else (db.(idents := db.idents[key := row]), true)
  }

  // ----- LinkOrCreate -----

  datatype Identity = Identity(sub: string, email: string, verified: bool)
  datatype Outcome = LoggedIn(user: UserId, isNew: bool) | CreateUserFailed | CreateIdentityFailed

  /** A linked identity whose account is not deleted. */
  predicate Known(db: Db, key: Key) { key in db.idents && Live(db, db.idents[key].user) }

  ghost function Link(db: Db, provider: string, who: Identity, newUser: UserId, newLink: LinkId): (Db, Outcome) {
    var key := Key(provider, who.sub);
    var cached := EmailPtr(who.email);
    if Known(db, key) then
      (db.(idents := db.idents[key := db.idents[key].(email := cached)]), LoggedIn(db.idents[key].user, false))
    else if who.email != "" && who.verified && Taken(db, who.email) then
      var u := ByEmail(db, who.email).value;
      (CreateIdentity(db, key, Ident(newLink, u, cached)).0, LoggedIn(u, false))
    else
      var email := if who.email != "" && !who.verified && Taken(db, who.email) then "" else who.email;
      var (db1, made) := CreateUser(db, newUser, EmailPtr(email));
      if !made then (db, CreateUserFailed)
      else
        var (db2, linked) := CreateIdentity(db1, key, Ident(newLink, newUser, cached));
        if !linked then (db1, CreateIdentityFailed) else (db2, LoggedIn(newUser, true))
  }

  // ----- unlink -----

  ghost predicate OtherLink(db: Db, user: UserId, link: LinkId) {
    exists k :: k in db.idents && db.idents[k].user == user && db.idents[k].link != link
  }

  datatype Unlinked = Gone | NotFound | WouldLockOut

  /** The first statements of the handler: they only read. */
  ghost function UnlinkCheck(db: Db, user: UserId, link: LinkId): Unlinked {
    if !exists k :: k in db.idents && db.idents[k].link == link && db.idents[k].user == user then NotFound
    else if user !in db.passwords && !OtherLink(db, user, link) then WouldLockOut
    else Gone
  }

  function DeleteIdentity(db: Db, link: LinkId): Db {
    db.(idents := map k | k in db.idents && db.idents[k].link != link :: db.idents[k])
  }

  ghost function Unlink(db: Db, user: UserId, link: LinkId): (Db, Unlinked) {
    var c := UnlinkCheck(db, user, link);
    (if c == Gone then DeleteIdentity(db, link) else db, c)
  }

  class Service {
    var db: Db

    method GetUserByEmail(email: string) returns (r: Option<UserId>)
      requires Valid(db)
      ensures r == ByEmail(db, email)
      ensures r.Some? ==> OwnsAddress(db, r.value, email)
      ensures r.None? ==> forall u :: u in db.users ==> !OwnsAddress(db, u, email)
    {
      forall u ensures HasEmail(db, u, email) <==> OwnsAddress(db, u, email) { HasEmailMeans(db, u, email); }
      if u: UserId :| u in db.users && HasEmail(db, u, email) { return Some(u); }
      r := None;
    }

    method InsertUser(id: UserId, email: Option<string>) returns (ok: bool)
      requires Valid(db)
      modifies this
      ensures (db, ok) == CreateUser(old(db), id, email)
    {
      if email.Some? {
        var clash := GetUserByEmail(email.value);
        if clash.Some? { return false; }
      }
      db := db.(users := db.users[id := User(email, false)]);
      ok := true;
    }

    method InsertIdentity(key: Key, row: Ident) returns (ok: bool)
      modifies this
      ensures (db, ok) == CreateIdentity(old(db), key, row)
    {
      if key in db.idents { return false; }
      db := db.(idents := db.idents[key := row]);
      ok := true;
    }

    method LinkOrCreate(provider: string, who: Identity, newUser: UserId, newLink: LinkId) returns (r: Outcome)
      requires Valid(db)
      modifies this
      ensures (db, r) == Link(old(db), provider, who, newUser, newLink)
    {
      hide Valid, EmailPtr, Lower;
      var key := Key(provider, who.sub);
      if key in db.idents && Live(db, db.idents[key].user) {
        var user := db.idents[key].user;
        db := db.(idents := db.idents[key := db.idents[key].(email := EmailPtr(who.email))]);
        return LoggedIn(user, false);
      }
      if who.email != "" && who.verified {
        var existing := GetUserByEmail(who.email);
        if existing.Some? {
          var linked := InsertIdentity(key, Ident(newLink, existing.value, EmailPtr(who.email)));
          return LoggedIn(existing.value, false);
        }
      }
      var newEmail := who.email;
      if newEmail != "" && !who.verified {
        var clash := GetUserByEmail(newEmail);
        if clash.Some? { newEmail := ""; }
      }
      var made := InsertUser(newUser, EmailPtr(newEmail));
      if !made { return CreateUserFailed; }
      var linked := InsertIdentity(key, Ident(newLink, newUser, EmailPtr(who.email)));
      if !linked { return CreateIdentityFailed; }
      r := LoggedIn(newUser, true);
    }

    /** `mine` is what ListUserIdentities returns for the user. */
    method UnlinkUserFederation(user: UserId, link: LinkId, mine: seq<Ident>) returns (r: Unlinked)
      requires Valid(db)
      requires forall row :: row in mine <==> exists k :: k in db.idents && db.idents[k] == row && row.user == user
      modifies this
      ensures (db, r) == Unlink(old(db), user, link)
    {
      if !(exists k :: k in db.idents && db.idents[k].link == link && db.idents[k].user == user) { return NotFound; }
      if user !in db.passwords {
        var remaining := 0;
        for i := 0 to |mine|
          invariant remaining >= 0
          invariant remaining > 0 <==> exists j :: 0 <= j < i && mine[j].link != link
        {
          if mine[i].link != link { remaining := remaining + 1; }
        }
        if remaining == 0 {
          forall k | k in db.idents && db.idents[k].user == user
            ensures db.idents[k].link == link
          {
            assert db.idents[k] in mine;
          }
          return WouldLockOut;
        }
        var j :| 0 <= j < |mine| && mine[j].link != link;
        assert mine[j] in mine;
      }
      db := DeleteIdentity(db, link);
      r := Gone;
    }
  }

  // ----- one step -----

  /** The unique index fires exactly for an identity not known here whose address is free as it was sent and taken
      once trimmed; never for an address already trimmed and in lower case. */
  lemma ConstraintFiresIff(db: Db, provider: string, who: Identity, newUser: UserId, newLink: LinkId)
    requires Valid(db)
    ensures Link(db, provider, who, newUser, newLink).1 == CreateUserFailed <==>
              && !Known(db, Key(provider, who.sub)) && !Taken(db, who.email)
              && EmailPtr(who.email).Some? && Taken(db, EmailPtr(who.email).value)
    ensures EmailPtr(who.email) == Some(who.email) || who.email == "" ==>
              Link(db, provider, who, newUser, newLink).1 != CreateUserFailed
  {
    hide Taken, Lower, TrimSpace;
    EmptyEmail();
  }

  lemma EmptyEmail()
    ensures EmailPtr("") == None
  {
    assert Lower("") == "";
  }

  /** Who is let in: the owner of a known identity whatever its address says; otherwise an existing account only when
      the provider verified an address that is its own, letter case aside; otherwise the new account. */
  lemma WhoIsLetIn(db: Db, provider: string, who: Identity, newUser: UserId, newLink: LinkId, u: UserId)
    requires Valid(db) && newUser !in db.users
    ensures Link(db, provider, who, newUser, newLink).1 == LoggedIn(u, false) <==>
              var key := Key(provider, who.sub);
              if Known(db, key) then u == db.idents[key].user
              else who.email != "" && who.verified && HasEmail(db, u, who.email)
    ensures Link(db, provider, who, newUser, newLink).1 == LoggedIn(u, true) ==> u == newUser
  {
    hide Lower, EmailPtr;
  }

  /** What is written: a known identity gets its cached address refreshed; otherwise whoever is let in has the identity
      from now on, unless the row of a deleted account holds it; and the only new account is the one answered, or left
      behind.  Its address is the one sent, or none when that is taken and was not verified. */
  lemma LinkWrites(db: Db, provider: string, who: Identity, newUser: UserId, newLink: LinkId)
    requires Valid(db) && newUser !in db.users
    ensures var (db', r) := Link(db, provider, who, newUser, newLink);
            var key := Key(provider, who.sub);
            var blocked := key in db.idents && !Live(db, db.idents[key].user);
            && (r.LoggedIn? ==>
                  (key in db'.idents && db'.idents[key].user == r.user && Live(db', r.user) <==> !blocked))
            && db'.idents == (if key in db.idents && !blocked then
                                db.idents[key := Ident(db.idents[key].link, db.idents[key].user, EmailPtr(who.email))]
                              else if r.LoggedIn? && !blocked then
                                db.idents[key := Ident(newLink, r.user, EmailPtr(who.email))]
                              else db.idents)
            && db'.users == (if r == LoggedIn(newUser, true) || r == CreateIdentityFailed then
                               db.users[newUser :=
                                 User(EmailPtr(if Taken(db, who.email) then "" else who.email), false)]
                             else db.users)
            && db'.passwords == db.passwords
  {
    hide Lower, EmailPtr, Valid;
    assert ByEmail(db, who.email).Some? ==> ByEmail(db, who.email).value in db.users;
    if who.email == "" { BlankAddress(db); }
  }

  lemma BlankAddress(db: Db)
    ensures EmailPtr("") == None
  {
    EmptyEmail();
  }

  predicate CanSignIn(db: Db, u: UserId) {
    Live(db, u) && (u in db.passwords || exists k :: k in db.idents && db.idents[k].user == u)
  }

  /** An identity left behind by a deleted account blocks its (provider, sub): exactly then a new account is created
      and cannot be linked, and it stays with no way to sign in. */
  lemma OrphanIff(db: Db, provider: string, who: Identity, newUser: UserId, newLink: LinkId)
    requires Valid(db) && newUser !in db.users
    ensures var (db', r) := Link(db, provider, who, newUser, newLink);
            && (r == CreateIdentityFailed <==>
                  && Key(provider, who.sub) in db.idents && !Live(db, db.idents[Key(provider, who.sub)].user)
                  && (who.verified ==> who.email == "" || !Taken(db, who.email))
                  && (EmailPtr(who.email).Some? && Taken(db, EmailPtr(who.email).value) ==> Taken(db, who.email)))
            && (r == CreateIdentityFailed ==> Live(db', newUser) && !CanSignIn(db', newUser))
  {
    hide Lower, Taken, EmailPtr;
    ConstraintFiresIff(db, provider, who, newUser, newLink);
    var (db', r) := Link(db, provider, who, newUser, newLink);
    if r == CreateIdentityFailed { assert db'.idents == db.idents && db'.passwords == db.passwords; }
  }

  lemma AddingUser(db: Db, id: UserId, email: Option<string>)
    requires Valid(db) && id !in db.users
    ensures Valid(CreateUser(db, id, email).0)
  {
    hide Lower;
    var db' := CreateUser(db, id, email).0;
    forall u, e | u in db.users
      ensures HasEmail(db', u, e) <==> HasEmail(db, u, e)
      ensures HasEmail(db', u, e) && HasEmail(db', id, e) ==> u == id
    {
      assert email.Some? && HasEmail(db, u, email.value) ==> Taken(db, email.value);
    }
  }

  /** Changes to the identity table alone. */
  lemma SettingIdent(db: Db, key: Key, row: Ident)
    requires Valid(db) && row.user in db.users
    requires forall k :: k in db.idents && k != key ==> db.idents[k].link != row.link
    ensures Valid(db.(idents := db.idents[key := row]))
  {
    hide Lower;
    var db' := db.(idents := db.idents[key := row]);
    assert forall u, e :: HasEmail(db', u, e) <==> HasEmail(db, u, e);
  }

  /** Live addresses stay unique, and the tables stay well formed. */
  lemma LinkKeepsValid(db: Db, provider: string, who: Identity, newUser: UserId, newLink: LinkId)
    requires Valid(db) && newUser !in db.users && forall k :: k in db.idents ==> db.idents[k].link != newLink
    ensures Valid(Link(db, provider, who, newUser, newLink).0)
  {
    hide Valid, Lower, EmailPtr, HasEmail, Taken;
    var key, cached := Key(provider, who.sub), EmailPtr(who.email);
    if Known(db, key) {
      KnownRow(db, key);
      SettingIdent(db, key, db.idents[key].(email := cached));
    } else if who.email != "" && who.verified && Taken(db, who.email) {
      SettingIdent(db, key, Ident(newLink, ByEmail(db, who.email).value, cached));
    } else {
      var email := if who.email != "" && !who.verified && Taken(db, who.email) then "" else who.email;
      AddingUser(db, newUser, EmailPtr(email));
      var db1 := CreateUser(db, newUser, EmailPtr(email)).0;
      if newUser in db1.users { SettingIdent(db1, key, Ident(newLink, newUser, cached)); }
    }
  }

  lemma KnownRow(db: Db, key: Key)
    requires Valid(db) && key in db.idents
    ensures db.idents[key].user in db.users
    ensures forall k :: k in db.idents && k != key ==> db.idents[k].link != db.idents[key].link
  {}

  /** The answer of the unlink handler and what it deletes, case by case. */
  lemma UnlinkOutcome(db: Db, user: UserId, link: LinkId)
    requires Valid(db)
    ensures var (db', r) := Unlink(db, user, link);
            var mine := exists k :: k in db.idents && db.idents[k].link == link && db.idents[k].user == user;
            var last := user !in db.passwords &&
                        forall k :: k in db.idents && db.idents[k].user == user ==> db.idents[k].link == link;
            && r == (if !mine then NotFound else if last then WouldLockOut else Gone)
            && db'.users == db.users && db'.passwords == db.passwords
            && (forall k :: k in db'.idents ==> k in db.idents && db'.idents[k] == db.idents[k])
            && (forall k :: k in db.idents ==> (k !in db'.idents <==> mine && !last && db.idents[k].link == link))
  {
    hide Valid;
  }

  lemma UnlinkKeepsValid(db: Db, user: UserId, link: LinkId)
    requires Valid(db)
    ensures Valid(Unlink(db, user, link).0)
  {
    hide Lower;
    var db' := Unlink(db, user, link).0;
    assert db'.users == db.users;
    assert forall u, e :: HasEmail(db', u, e) <==> HasEmail(db, u, e);
  }

  // ----- every run, one request after another -----

  datatype Event =
    | SignIn(provider: string, who: Identity, newUser: UserId, newLink: LinkId)
    | Remove(user: UserId, link: LinkId)
    | SetPassword(user: UserId)
    | DeleteUser(user: UserId)

  ghost predicate Enabled(db: Db, ev: Event) {
    match ev
    case SignIn(_, _, newUser, newLink) =>
      newUser !in db.users && forall k :: k in db.idents ==> db.idents[k].link != newLink
    case SetPassword(user) => user in db.users
    case DeleteUser(user) => user in db.users
    case Remove(_, _) => true
  }

  ghost function Apply(db: Db, ev: Event): Db
    requires Enabled(db, ev)
  {
    match ev
    case SignIn(provider, who, newUser, newLink) => Link(db, provider, who, newUser, newLink).0
    case Remove(user, link) => Unlink(db, user, link).0
    case SetPassword(user) => db.(passwords := db.passwords + {user})
    case DeleteUser(user) => db.(users := db.users[user := db.users[user].(deleted := true)])
  }

  ghost predicate ValidRun(db: Db, evs: seq<Event>)
    decreases |evs|
  {
    evs == [] || (Enabled(db, evs[0]) && ValidRun(Apply(db, evs[0]), evs[1..]))
  }

  ghost function Run(db: Db, evs: seq<Event>): Db
    requires ValidRun(db, evs)
    decreases |evs|
  {
    if evs == [] then db else Run(Apply(db, evs[0]), evs[1..])
  }

  lemma Keeps(db: Db, ev: Event)
    requires Valid(db) && Enabled(db, ev)
    ensures Valid(Apply(db, ev))
  {
    hide Lower;
    match ev
    case SignIn(provider, who, newUser, newLink) => LinkKeepsValid(db, provider, who, newUser, newLink);
    case Remove(user, link) => UnlinkKeepsValid(db, user, link);
    case SetPassword(user) => assert forall u, e :: HasEmail(Apply(db, ev), u, e) <==> HasEmail(db, u, e);
    case DeleteUser(user) => assert forall u, e :: HasEmail(Apply(db, ev), u, e) ==> HasEmail(db, u, e);
  }

  lemma {:induction false} RunKeepsValid(db: Db, evs: seq<Event>)
    requires Valid(db) && ValidRun(db, evs)
    ensures Valid(Run(db, evs))
    decreases |evs|
  {
    if evs != [] {
      Keeps(db, evs[0]);
      RunKeepsValid(Apply(db, evs[0]), evs[1..]);
    }
  }

  /** Once linked, a (provider, sub) keeps letting the same account in, through any requests that neither unlink it nor
      delete the account, and whatever address it later shows. */
  lemma {:induction false} SameAccount(db: Db, evs: seq<Event>, key: Key, email: string, verified: bool,
                                       newUser: UserId, newLink: LinkId)
    requires Valid(db) && ValidRun(db, evs) && Known(db, key)
    requires DeleteUser(db.idents[key].user) !in evs && Remove(db.idents[key].user, db.idents[key].link) !in evs
    ensures var db' := Run(db, evs);
            && Known(db', key) && db'.idents[key].user == db.idents[key].user &&
                db'.idents[key].link == db.idents[key].link
            && Link(db', key.provider, Identity(key.sub, email, verified), newUser, newLink).1 ==
                LoggedIn(db.idents[key].user, false)
    decreases |evs|
  {
    hide Lower, EmailPtr, Taken;
    if evs != [] {
      var db' := Apply(db, evs[0]);
      Keeps(db, evs[0]);
      assert Known(db', key) && db'.idents[key].user == db.idents[key].user &&
          db'.idents[key].link == db.idents[key].link;
      SameAccount(db', evs[1..], key, email, verified, newUser, newLink);
    }
  }

  /** A sign-in that lets somebody in, by a verified address or as a new account, is remembered: through any requests
      that neither unlink the pair nor delete the account, whatever address it later shows leads to the same account,
      unless the row of a deleted account held the pair. */
  lemma LinkedForGood(db: Db, provider: string, who: Identity, newUser: UserId, newLink: LinkId, evs: seq<Event>,
                      email: string, verified: bool, newUser': UserId, newLink': LinkId)
    requires Valid(db) && Enabled(db, SignIn(provider, who, newUser, newLink))
    requires var key := Key(provider, who.sub); key in db.idents ==> Live(db, db.idents[key].user)
    requires var (db', r) := Link(db, provider, who, newUser, newLink);
             && r.LoggedIn? && ValidRun(db', evs) && DeleteUser(r.user) !in evs
             && forall link :: Remove(r.user, link) !in evs
    ensures var (db', r) := Link(db, provider, who, newUser, newLink);
            Link(Run(db', evs), provider, Identity(who.sub, email, verified), newUser', newLink').1 ==
              LoggedIn(r.user, false)
  {
    hide Lower, EmailPtr, Taken, Link, Valid;
    LinkWrites(db, provider, who, newUser, newLink);
    LinkKeepsValid(db, provider, who, newUser, newLink);
    var db' := Link(db, provider, who, newUser, newLink).0;
    SameAccount(db', evs, Key(provider, who.sub), email, verified, newUser', newLink');
  }

  /** Nobody but deletion takes away an account's last way in. */
  lemma StillSignsIn(db: Db, ev: Event, u: UserId)
    requires Valid(db) && Enabled(db, ev) && CanSignIn(db, u) && ev != DeleteUser(u)
    ensures CanSignIn(Apply(db, ev), u)
  {
    hide Lower, EmailPtr, Taken;
    var db' := Apply(db, ev);
    if u !in db.passwords {
      var k :| k in db.idents && db.idents[k].user == u;
      if ev.Remove? && db'.idents != db.idents {
        var gone :| gone in db.idents && db.idents[gone].link == ev.link && db.idents[gone].user == ev.user;
        if db.idents[k].link == ev.link {
          assert gone == k && ev.user == u;
          var other :| other in db.idents && db.idents[other].user == u && db.idents[other].link != ev.link;
          assert other in db'.idents && db'.idents[other].user == u;
        } else {
          assert k in db'.idents;
        }
      } else {
        assert k in db'.idents && db'.idents[k].user == u;
      }
    }
  }

  lemma {:induction false} NeverLockedOut(db: Db, evs: seq<Event>, u: UserId)
    requires Valid(db) && ValidRun(db, evs) && CanSignIn(db, u) && DeleteUser(u) !in evs
    ensures CanSignIn(Run(db, evs), u)
    decreases |evs|
  {
    if evs != [] {
      StillSignsIn(db, evs[0], u);
      Keeps(db, evs[0]);
      NeverLockedOut(Apply(db, evs[0]), evs[1..], u);
    }
  }

  ghost predicate Healthy(db: Db) {
    && (forall u :: u in db.users ==> CanSignIn(db, u))
    && (forall k :: k in db.idents ==> Live(db, db.idents[k].user))
  }

  predicate Plain(ev: Event) {
    !ev.DeleteUser? && (ev.SignIn? ==> ev.who.email == "" || EmailPtr(ev.who.email) == Some(ev.who.email))
  }

  ghost predicate AllLetIn(db: Db, evs: seq<Event>)
    requires ValidRun(db, evs)
    decreases |evs|
  {
    evs != [] ==>
      && (evs[0].SignIn? ==> Link(db, evs[0].provider, evs[0].who, evs[0].newUser, evs[0].newLink).1.LoggedIn?)
      && AllLetIn(Apply(db, evs[0]), evs[1..])
  }

  lemma HealthyStep(db: Db, ev: Event)
    requires Valid(db) && Healthy(db) && Enabled(db, ev) && Plain(ev)
    ensures Healthy(Apply(db, ev))
    ensures ev.SignIn? ==> Link(db, ev.provider, ev.who, ev.newUser, ev.newLink).1.LoggedIn?
  {
    var db' := Apply(db, ev);
    if ev.SignIn? {
      ConstraintFiresIff(db, ev.provider, ev.who, ev.newUser, ev.newLink);
      OrphanIff(db, ev.provider, ev.who, ev.newUser, ev.newLink);
      NewUserSignsIn(db, ev.provider, ev.who, ev.newUser, ev.newLink);
    }
    hide Lower, EmailPtr, Taken;
    forall u | u in db'.users
      ensures CanSignIn(db', u)
    {
      if u in db.users { StillSignsIn(db, ev, u); }
    }
  }

  lemma NewUserSignsIn(db: Db, provider: string, who: Identity, newUser: UserId, newLink: LinkId)
    requires Valid(db) && newUser !in db.users && Link(db, provider, who, newUser, newLink).1.LoggedIn?
    ensures var db' := Link(db, provider, who, newUser, newLink).0;
            var key := Key(provider, who.sub);
            newUser in db'.users ==> key in db'.idents && db'.idents[key].user == newUser && CanSignIn(db', newUser)
  {
    hide Lower, EmailPtr, Taken;
  }

  /** Main result: while no account is deleted and providers send trimmed lower-case addresses, every sign-in succeeds
      without ever meeting the unique index, every account keeps a way in, and live addresses stay unique. */
  lemma {:induction false} EverySignInSucceeds(db: Db, evs: seq<Event>)
    requires Valid(db) && Healthy(db) && ValidRun(db, evs) && forall ev :: ev in evs ==> Plain(ev)
    ensures Valid(Run(db, evs)) && Healthy(Run(db, evs)) && AllLetIn(db, evs)
    decreases |evs|
  {
    hide Lower, EmailPtr, Taken, Link;
    if evs != [] {
      Keeps(db, evs[0]);
      HealthyStep(db, evs[0]);
      EverySignInSucceeds(Apply(db, evs[0]), evs[1..]);
    }
  }

  function DeleteAll(db: Db, links: seq<LinkId>): Db
    decreases |links|
  {
    if links == [] then db else DeleteAll(DeleteIdentity(db, links[0]), links[1..])
  }

  lemma {:induction false} DeletesThese(db: Db, links: seq<LinkId>, k: Key)
    ensures var db' := DeleteAll(db, links);
            && db'.users == db.users && db'.passwords == db.passwords
            && (k in db'.idents <==> k in db.idents && db.idents[k].link !in links)
            && (k in db'.idents ==> db'.idents[k] == db.idents[k])
    decreases |links|
  {
    if links != [] { DeletesThese(DeleteIdentity(db, links[0]), links[1..], k); }
  }

  /** The handler reads and then deletes, so any number of requests for one account can all read first and all pass.
      The account can no longer sign in afterwards exactly when it has no password and they take every identity it has
      (or it was deleted); one such request alone never does that. */
  lemma UnlinksRaceIff(db: Db, user: UserId, links: seq<LinkId>)
    requires Valid(db) && forall link :: link in links ==> UnlinkCheck(db, user, link) == Gone
    ensures !CanSignIn(DeleteAll(db, links), user) <==>
              || !Live(db, user)
              || (&& user !in db.passwords
                  && forall k :: k in db.idents && db.idents[k].user == user ==> db.idents[k].link in links)
    ensures Live(db, user) && links != [] && !CanSignIn(DeleteAll(db, links), user) ==>
              exists x, y :: x in links && y in links && x != y
  {
    hide Valid;
    var db' := DeleteAll(db, links);
    forall k: Key
      ensures db'.users == db.users && db'.passwords == db.passwords
      ensures k in db'.idents <==> k in db.idents && db.idents[k].link !in links
      ensures k in db'.idents ==> db'.idents[k] == db.idents[k]
    {
      DeletesThese(db, links, k);
    }
    if Live(db, user) && links != [] && !CanSignIn(db', user) {
      assert UnlinkCheck(db, user, links[0]) == Gone && links[0] in links;
      var other :| other in db.idents && db.idents[other].user == user && db.idents[other].link != links[0];
      assert db.idents[other].link in links;
    }
  }

  /** Two of them suffice: both checks pass and the account is locked out. */
  lemma TwoUnlinksRace(db: Db, user: UserId, a: Key, b: Key)
    requires Valid(db) && user !in db.passwords && a != b && a in db.idents && b in db.idents
    requires forall k :: k in db.idents && db.idents[k].user == user <==> k == a || k == b
    ensures var (x, y) := (db.idents[a].link, db.idents[b].link);
            && UnlinkCheck(db, user, x) == Gone && UnlinkCheck(db, user, y) == Gone
            && !CanSignIn(DeleteAll(db, [x, y]), user)
  {
    var x, y := db.idents[a].link, db.idents[b].link;
    assert db.idents[b].link != x && db.idents[a].link != y;
    assert OtherLink(db, user, x) && OtherLink(db, user, y);
    UnlinksRaceIff(db, user, [x, y]);
  }

  // ----- unlinks, check and delete interleaved -----

  type Tid = nat

  /** A request that has found its link to be the user's, and one that has then passed the check: the other links it
      saw, and the links deleted since. */
  datatype Claim = Claim(user: UserId, link: LinkId)
  datatype Req = Req(user: UserId, link: LinkId, others: set<LinkId>, cut: set<LinkId>)
  datatype Race = Race(db: Db, claims: map<Tid, Claim>, reqs: map<Tid, Req>)
  datatype Act = Find(tid: Tid, user: UserId, link: LinkId) | Look(tid: Tid) | Cut(tid: Tid)

  function OtherLinks(db: Db, user: UserId, link: LinkId): set<LinkId> {
    set k | k in db.idents && db.idents[k].user == user && db.idents[k].link != link :: db.idents[k].link
  }

  predicate CanAct(r: Race, a: Act) {
    match a
    case Find(tid, _, _) => tid !in r.claims
    case Look(tid) => tid in r.claims && tid !in r.reqs
    case Cut(tid) => tid in r.reqs
  }

  ghost function Next(r: Race, a: Act): Race
    requires CanAct(r, a)
  {
    match a
    case Find(tid, user, link) =>
      if exists k :: k in r.db.idents && r.db.idents[k].link == link && r.db.idents[k].user == user then
        r.(claims := r.claims[tid := Claim(user, link)])
      else r
    case Look(tid) =>
      var c := r.claims[tid];
      var others := OtherLinks(r.db, c.user, c.link);
      if c.user !in r.db.passwords && others == {} then r
      else r.(reqs := r.reqs[tid := Req(c.user, c.link, others, {})])
    case Cut(tid) =>
      var link := r.reqs[tid].link;
      r.(db := DeleteIdentity(r.db, link),
         reqs := map t | t in r.reqs && t != tid :: r.reqs[t].(cut := r.reqs[t].cut + {link}))
  }

  /** With nothing in between the two reads are the handler's check. */
  lemma FindAndLook(r: Race, tid: Tid, user: UserId, link: LinkId)
    requires tid !in r.claims && tid !in r.reqs
    ensures var r1 := Next(r, Find(tid, user, link));
            if tid !in r1.claims then UnlinkCheck(r.db, user, link) == NotFound
            else tid in Next(r1, Look(tid)).reqs <==> UnlinkCheck(r.db, user, link) == Gone
  {
    if OtherLink(r.db, user, link) {
      var k :| k in r.db.idents && r.db.idents[k].user == user && r.db.idents[k].link != link;
      assert r.db.idents[k].link in OtherLinks(r.db, user, link);
    }
  }

  ghost predicate ValidRace(r: Race, acts: seq<Act>)
    decreases |acts|
  {
    acts == [] || (CanAct(r, acts[0]) && ValidRace(Next(r, acts[0]), acts[1..]))
  }

  ghost function After(r: Race, acts: seq<Act>): Race
    requires ValidRace(r, acts)
    decreases |acts|
  {
    if acts == [] then r else After(Next(r, acts[0]), acts[1..])
  }

  ghost predicate Owns(db: Db, user: UserId, link: LinkId) {
    forall k :: k in db.idents && db.idents[k].link == link ==> db.idents[k].user == user
  }

  ghost predicate ReqAt(r: Race, t: Tid) {
    && (t in r.claims ==> Owns(r.db, r.claims[t].user, r.claims[t].link))
    && (t in r.reqs ==>
      var q := r.reqs[t];
      && Owns(r.db, q.user, q.link)
      && OtherLinks(r.db, q.user, q.link) == q.others - q.cut
      && (q.user in r.db.passwords || q.others != {}))
  }

  ghost predicate RaceInv(r: Race) { Valid(r.db) && forall t: Tid {:trigger ReqAt(r, t)} :: ReqAt(r, t) }

  lemma RaceKeeps(r: Race, a: Act)
    requires RaceInv(r) && CanAct(r, a)
    ensures RaceInv(Next(r, a))
  {
    var r' := Next(r, a);
    if a.Cut? {
      DeleteKeepsValid(r.db, r.reqs[a.tid].link);
      hide Valid;
      forall t: Tid
        ensures ReqAt(r', t)
      {
        assert ReqAt(r, t);
        if t in r'.reqs { OneLess(r.db, r.reqs[t].user, r.reqs[t].link, r.reqs[a.tid].link); }
      }
    } else if a.Look? {
      hide Valid;
      var c := r.claims[a.tid];
      assert ReqAt(r, a.tid) && OtherLinks(r.db, c.user, c.link) - {} == OtherLinks(r.db, c.user, c.link);
      forall t: Tid ensures ReqAt(r', t) { assert ReqAt(r, t); }
    } else {
      FindKeeps(r, a);
    }
  }

  lemma FindKeeps(r: Race, a: Act)
    requires RaceInv(r) && CanAct(r, a) && a.Find?
    ensures RaceInv(Next(r, a))
  {
    var r' := Next(r, a);
    assert r'.db == r.db && r'.reqs == r.reqs;
    if r' != r { OneOwner(r.db, a.user, a.link); }
    hide Valid;
    forall t: Tid ensures ReqAt(r', t) { assert ReqAt(r, t); }
  }

  lemma OneOwner(db: Db, user: UserId, link: LinkId)
    requires Valid(db) && exists k :: k in db.idents && db.idents[k].link == link && db.idents[k].user == user
    ensures Owns(db, user, link)
  {
    hide HasEmail;
  }

  lemma OneLess(db: Db, user: UserId, link: LinkId, gone: LinkId)
    ensures OtherLinks(DeleteIdentity(db, gone), user, link) == OtherLinks(db, user, link) - {gone}
  {
    var db' := DeleteIdentity(db, gone);
    forall l | l in OtherLinks(db, user, link) && l != gone
      ensures l in OtherLinks(db', user, link)
    {
      var k :| k in db.idents && db.idents[k].user == user && db.idents[k].link == l && l != link;
      assert k in db'.idents;
    }
  }

  lemma DeleteKeepsValid(db: Db, link: LinkId)
    requires Valid(db)
    ensures Valid(DeleteIdentity(db, link))
  {
    hide Lower;
    var db' := DeleteIdentity(db, link);
    assert forall u, e :: HasEmail(db', u, e) <==> HasEmail(db, u, e);
  }

  /** The delete of request `t` comes when every other link its check saw has been deleted since. */
  predicate LastCut(r: Race, a: Act, user: UserId) {
    a.Cut? && a.tid in r.reqs && r.reqs[a.tid].user == user && r.reqs[a.tid].others <= r.reqs[a.tid].cut
  }

  /** One delete: it takes the last way in exactly then, which needs another request's delete since its check. */
  lemma CutLocksOutIff(r: Race, a: Act, user: UserId)
    requires RaceInv(r) && CanAct(r, a) && CanSignIn(r.db, user)
    ensures !CanSignIn(Next(r, a).db, user) <==> user !in r.db.passwords && LastCut(r, a, user)
    ensures user !in r.db.passwords && LastCut(r, a, user) ==> r.reqs[a.tid].cut != {}
  {
    hide Valid;
    if a.Cut? {
      assert ReqAt(r, a.tid);
      var q, db' := r.reqs[a.tid], Next(r, a).db;
      if user !in r.db.passwords {
        if q.user != user {
          var k :| k in r.db.idents && r.db.idents[k].user == user;
          assert k in db'.idents;
        } else if !(q.others <= q.cut) {
          var link :| link in q.others && link !in q.cut;
          assert link in OtherLinks(r.db, user, q.link);
          var k :| k in r.db.idents && r.db.idents[k].user == user && r.db.idents[k].link == link && link != q.link;
          assert k in db'.idents;
        } else {
          assert OtherLinks(r.db, user, q.link) == {};
          forall k | k in r.db.idents && r.db.idents[k].user == user && r.db.idents[k].link != q.link
            ensures r.db.idents[k].link in OtherLinks(r.db, user, q.link)
          {}
        }
      }
    }
  }

  ghost predicate SomeLastCut(r: Race, acts: seq<Act>, user: UserId)
    requires ValidRace(r, acts)
    decreases |acts|
  {
    acts != [] && (LastCut(r, acts[0], user) || SomeLastCut(Next(r, acts[0]), acts[1..], user))
  }

  lemma {:induction false} StaysOut(r: Race, acts: seq<Act>, user: UserId)
    requires ValidRace(r, acts) && !CanSignIn(r.db, user)
    ensures !CanSignIn(After(r, acts).db, user)
    decreases |acts|
  {
    if acts != [] {
      var r' := Next(r, acts[0]);
      assert forall k :: k in r'.db.idents ==> k in r.db.idents && r'.db.idents[k] == r.db.idents[k];
      StaysOut(r', acts[1..], user);
    }
  }

  lemma SameUsers(r: Race, a: Act)
    requires CanAct(r, a)
    ensures Next(r, a).db.users == r.db.users && Next(r, a).db.passwords == r.db.passwords
  {}

  /** Main result on unlinks, for every interleaving of checks and deletes of any requests: an account that can sign in
      at the start no longer can at the end exactly when it has no password and some delete came after all the other
      links its check saw had been deleted. */
  lemma {:induction false} LockedOutIff(r: Race, acts: seq<Act>, user: UserId)
    requires RaceInv(r) && ValidRace(r, acts) && CanSignIn(r.db, user)
    ensures !CanSignIn(After(r, acts).db, user) <==> user !in r.db.passwords && SomeLastCut(r, acts, user)
    decreases |acts|
  {
    hide RaceInv, Next, LastCut, CanAct;
    if acts != [] {
      var r' := Next(r, acts[0]);
      RaceKeeps(r, acts[0]);
      CutLocksOutIff(r, acts[0], user);
      SameUsers(r, acts[0]);
      if CanSignIn(r'.db, user) {
        LockedOutIff(r', acts[1..], user);
      } else {
        StaysOut(r', acts[1..], user);
      }
    }
  }
}
