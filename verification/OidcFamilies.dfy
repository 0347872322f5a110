/** What follows for every run of module OidcWorld: credentials are used once, refresh
    tokens form chains that each start at one code, and tokens carry no more than the
    credential they came from. */
module OidcFamilies {
  import opened Common
  import opened OidcStore
  import opened OidcService
  import opened OidcWorld

  // ----- used at most once, in any run -----

  /** The credential that event `ev` uses up in world `w`, if any: a code it redeems or
      a refresh token it rotates. */
  ghost function Spends(w: World, ev: Event): Option<Source> {
    if !ev.Advance? || ev.tid !in w.calls then None
    else
      var call := w.calls[ev.tid];
      var next := Step(w.db, call, ev.env).1;
      if call.ExchangeStart? && next.ExchangeConsumed? then Some(FromCode(call.code))
      else if call.RefreshRotate? && next.IssueAccess? then Some(FromRefresh(call.token))
      else None
  }

  ghost predicate SpentBy(h: History, source: Source) {
    exists t :: t in h.spent && h.spent[t].source == source
  }

  lemma SpendRecorded(w: World, ev: Event)
    requires Inv(w) && Enabled(w, ev) && Spends(w, ev).Some?
    ensures !SpentBy(w.hist, Spends(w, ev).value) && SpentBy(Apply(w, ev).hist, Spends(w, ev).value)
  {
    var source := Spends(w, ev).value;
    assert CallAt(w, ev.tid);
    forall t | t in w.hist.spent
      ensures w.hist.spent[t].source != source
    {
      assert SpentAt(w, t);
    }
    assert Apply(w, ev).hist.spent[ev.tid].source == source;
  }

  lemma SpendNeverChanges(w: World, ev: Event, t: Tid)
    requires Inv(w) && Enabled(w, ev) && t in w.hist.spent
    ensures t in Apply(w, ev).hist.spent && Apply(w, ev).hist.spent[t] == w.hist.spent[t]
  {
    if ev.Advance? {
      AdvanceSpends(w, ev.tid, ev.env, t);
    } else {
      OthersSpendNothing(w, ev);
    }
  }

  lemma AdvanceSpends(w: World, tid: Tid, env: Env, t: Tid)
    requires Inv(w) && Enabled(w, Advance(tid, env)) && t in w.hist.spent
    ensures var h := Apply(w, Advance(tid, env)).hist; t in h.spent && h.spent[t] == w.hist.spent[t]
  {
    hide Inv, Step, Record, RowsAt, DbEvolves;
    SteppedTables(w, tid, env);
    assert Apply(w, Advance(tid, env)) == Stepped(w, tid, env);
  }

  lemma OthersSpendNothing(w: World, ev: Event)
    requires Enabled(w, ev) && !ev.Advance?
    ensures Apply(w, ev).hist.spent == w.hist.spent
  {
    hide Enabled, Step, Record;
  }

  lemma {:induction false} SpentStaysSpent(w: World, evs: seq<Event>, source: Source)
    requires Inv(w) && ValidRun(w, evs) && SpentBy(w.hist, source)
    ensures SpentBy(Run(w, evs).hist, source)
    decreases |evs|
  {
    if evs != [] {
      var w' := Apply(w, evs[0]);
      Keeps(w, evs[0]);
      var t :| t in w.hist.spent && w.hist.spent[t].source == source;
      SpendNeverChanges(w, evs[0], t);
      SpentStaysSpent(w', evs[1..], source);
    }
  }

  /** Main result: once some event has redeemed a code or rotated a refresh token, no
      later event of the run does so again, however the callers interleave in between. */
  lemma SpentOnceInRun(w: World, first: Event, between: seq<Event>, second: Event)
    requires Inv(w) && Enabled(w, first) && ValidRun(Apply(w, first), between)
    requires Enabled(Run(Apply(w, first), between), second)
    requires Spends(w, first).Some?
    ensures Spends(Run(Apply(w, first), between), second) != Spends(w, first)
  {
    var after := Apply(w, first);
    var later := Run(after, between);
    var source := Spends(w, first).value;
    SpendRecorded(w, first);
    Keeps(w, first);
    SpentStaysSpent(after, between, source);
    RunKeeps(after, between);
    if Spends(later, second) == Some(source) { SpendRecorded(later, second); }
  }

  /** A code is only ever redeemed strictly before its expiry. */
  lemma RedeemedInTime(w: World, t: Tid)
    requires Reachable(w) && t in w.hist.spent && w.hist.spent[t].source.FromCode?
    ensures w.hist.spent[t].source.id in w.hist.codes
    ensures w.hist.spent[t].at < w.hist.codes[w.hist.spent[t].source.id].expiresAt
  {
    ReachableInv(w);
    assert SpentAt(w, t);
  }

  // ----- families of refresh tokens -----

  /** Main result: at most one successor. */
  lemma AtMostOneSuccessor(w: World, x: string, y: string)
    requires Reachable(w) && x in w.hist.refresh && y in w.hist.refresh
    requires w.hist.refresh[x].row.previous.Some?
    requires w.hist.refresh[x].row.previous == w.hist.refresh[y].row.previous
    ensures x == y
  {
    ReachableInv(w);
    assert MintAt(w, x) && MintAt(w, y);
  }

  /** Distinct families start at distinct codes. */
  lemma OneFamilyPerCode(w: World, x: string, y: string)
    requires Reachable(w) && x in w.hist.refresh && y in w.hist.refresh
    requires w.hist.refresh[x].row.previous.None? && w.hist.refresh[y].row.previous.None?
    ensures w.hist.refresh[x].caller in w.hist.spent && w.hist.refresh[y].caller in w.hist.spent
    ensures var sx, sy := w.hist.spent[w.hist.refresh[x].caller].source, w.hist.spent[w.hist.refresh[y].caller].source;
            sx.FromCode? && sy.FromCode? && (sx == sy ==> x == y)
  {
    ReachableInv(w);
    assert MintAt(w, x) && MintAt(w, y);
  }

  /** Root first, each token issued against the one before it. */
  ghost predicate Chain(h: History, c: seq<string>) {
    && 0 < |c| && (forall i :: 0 <= i < |c| ==> c[i] in h.refresh)
    && h.refresh[c[0]].row.previous.None?
    && (forall i :: 0 < i < |c| ==> h.refresh[c[i]].row.previous == Some(c[i - 1]))
  }

  lemma {:induction false} ChainTo(w: World, x: string) returns (c: seq<string>)
    requires Reachable(w) && x in w.hist.refresh
    ensures Chain(w.hist, c) && c[|c| - 1] == x
    decreases w.hist.refresh[x].order
  {
    ReachableInv(w);
    assert MintAt(w, x);
    var m := w.hist.refresh[x];
    if m.row.previous.None? {
      c := [x];
    } else {
      c := ChainTo(w, m.row.previous.value);
      c := c + [x];
    }
  }

  /** Two chains from one root never fork: the shorter is a prefix of the longer. */
  lemma {:induction false} ChainsNest(w: World, c: seq<string>, d: seq<string>, n: nat)
    requires Reachable(w) && Chain(w.hist, c) && Chain(w.hist, d) && c[0] == d[0]
    requires n <= |c| && n <= |d|
    ensures c[..n] == d[..n]
  {
    if n > 1 {
      ChainsNest(w, c, d, n - 1);
      assert c[n - 2] == c[..n - 1][n - 2] == d[..n - 1][n - 2] == d[n - 2];
      AtMostOneSuccessor(w, c[n - 1], d[n - 1]);
      assert c[..n] == c[..n - 1] + [c[n - 1]] && d[..n] == d[..n - 1] + [d[n - 1]];
    }
  }

  lemma InnerIsRotated(w: World, c: seq<string>, i: nat)
    requires Reachable(w) && Chain(w.hist, c) && i + 1 < |c|
    ensures SpentBy(w.hist, FromRefresh(c[i]))
    ensures c[i] in w.db.refresh ==> w.db.refresh[c[i]].rotatedAt.Some?
  {
    ReachableInv(w);
    assert MintAt(w, c[i + 1]);
    var t := w.hist.refresh[c[i + 1]].caller;
    assert SpentAt(w, t);
  }

  /** Main result: a family is a chain with at most one un-rotated member. */
  lemma OneLiveMember(w: World, c: seq<string>, d: seq<string>)
    requires Reachable(w) && Chain(w.hist, c) && Chain(w.hist, d) && c[0] == d[0]
    requires var x, y := c[|c| - 1], d[|d| - 1];
             && x in w.db.refresh && w.db.refresh[x].rotatedAt.None?
             && y in w.db.refresh && w.db.refresh[y].rotatedAt.None?
    ensures c == d
  {
    if |c| < |d| {
      ChainsNest(w, c, d, |c|);
      assert d[|c| - 1] == d[..|c|][|c| - 1] == c[|c| - 1];
      InnerIsRotated(w, d, |c| - 1);
    } else if |d| < |c| {
      ChainsNest(w, c, d, |d|);
      assert c[|d| - 1] == c[..|d|][|d| - 1] == d[|d| - 1];
      InnerIsRotated(w, c, |d| - 1);
    } else {
      ChainsNest(w, c, d, |c|);
      assert c == c[..|c|] && d == d[..|c|];
    }
  }

  /** Main result: along a family client and user never change, scopes only shrink, and
      the session is the root's until the session row is deleted. */
  lemma {:induction false} FamilyCarries(w: World, c: seq<string>, i: nat, j: nat)
    requires Reachable(w) && Chain(w.hist, c) && i <= j < |c|
    ensures var a, b := w.hist.refresh[c[i]].row, w.hist.refresh[c[j]].row;
            && b.client == a.client && b.user == a.user && Within(b.scopes, a.scopes)
            && (b.session == a.session || b.session.None?)
    decreases j - i
  {
    if i < j {
      FamilyCarries(w, c, i, j - 1);
      ReachableInv(w);
      assert MintAt(w, c[j]);
    }
  }

  /** What a successor carries: the scopes of its predecessor, or just those its request asked for. */
  lemma SuccessorScopes(w: World, x: string)
    requires Reachable(w) && x in w.hist.refresh && w.hist.refresh[x].row.previous.Some?
    ensures var m := w.hist.refresh[x];
            && m.row.previous.value in w.hist.refresh && m.caller in w.hist.begun
            && var p, b := w.hist.refresh[m.row.previous.value].row, w.hist.begun[m.caller];
            && b.RefreshStart? && b.token == m.row.previous.value && b.client.id == p.client
            && m.row.scopes == (if |b.wanted| == 0 then p.scopes else b.wanted)
            && forall i :: 0 <= i < |b.wanted| ==> b.wanted[i] in p.scopes
  {
    ReachableInv(w);
    assert MintAt(w, x);
  }

  /** The root of a family carries exactly what its code carried, and that code was
      redeemed by its own client with the right redirect and verifier. */
  lemma RootFromCode(w: World, c: seq<string>)
    requires Reachable(w) && Chain(w.hist, c)
    ensures var m := w.hist.refresh[c[0]];
            && m.caller in w.hist.spent && m.caller in w.hist.begun
            && var source := w.hist.spent[m.caller].source;
            && source.FromCode? && source.id in w.hist.codes
            && var code := w.hist.codes[source.id];
            && m.row.client == code.client && m.row.user == code.user
            && m.row.session == Some(code.session) && m.row.scopes == code.scopes
            && var b := w.hist.begun[m.caller];
            && b.ExchangeStart? && b.code == source.id
            && b.client.id == code.client && b.redirect == code.redirect
            && (if code.challenge.Some? then b.verifier != "" && S256(b.verifier) == code.challenge.value
                else !b.client.requirePkce && !b.client.isPublic)
  {
    ReachableInv(w);
    assert MintAt(w, c[0]);
  }

  /** Main result: every access token a user holds traces to exactly one spent credential:
      a code redeemed with matching client, redirect and PKCE, or a rotated refresh token. */
  lemma AccessTokenOrigin(w: World, id: string)
    requires Reachable(w) && id in w.db.access && w.db.access[id].user.Some?
    ensures id in w.hist.access
    ensures var row := w.db.access[id];
            var t := w.hist.access[id].caller;
            && t in w.hist.spent && t in w.hist.begun
            && match w.hist.spent[t].source
               case FromCode(c) =>
                 && c in w.hist.codes && w.hist.begun[t].ExchangeStart? && w.hist.begun[t].code == c
                 && var b := w.hist.begun[t];
                 && b.client.id == w.hist.codes[c].client && b.redirect == w.hist.codes[c].redirect
                 && (if w.hist.codes[c].challenge.Some? then
                       b.verifier != "" && S256(b.verifier) == w.hist.codes[c].challenge.value
                     else !b.client.requirePkce && !b.client.isPublic)
                 && row.client == w.hist.codes[c].client && row.user == Some(w.hist.codes[c].user)
                 && row.scopes == w.hist.codes[c].scopes
                 && (row.session == Some(w.hist.codes[c].session) || row.session.None?)
               case FromRefresh(p) =>
                 && p in w.hist.refresh
                 && row.client == w.hist.refresh[p].row.client && row.user == Some(w.hist.refresh[p].row.user)
                 && w.hist.begun[t].RefreshStart? && w.hist.begun[t].token == p
                 && row.scopes == (if |w.hist.begun[t].wanted| == 0 then w.hist.refresh[p].row.scopes
                                   else w.hist.begun[t].wanted)
                 && Within(row.scopes, w.hist.refresh[p].row.scopes)
                 && (row.session == w.hist.refresh[p].row.session || row.session.None?)
  {
    ReachableInv(w);
    assert RowsAt(w.db, w.hist, id);
    assert AccessAt(w, id);
  }

  /** Main result: one access token per credential, so every token set belongs to one code redeemed or one refresh
      token rotated, and to no other token set. */
  lemma OneAccessTokenPerCredential(w: World, x: string, y: string)
    requires Reachable(w) && x in w.hist.access && y in w.hist.access
    ensures w.hist.access[x].caller in w.hist.spent && w.hist.access[y].caller in w.hist.spent
    ensures w.hist.spent[w.hist.access[x].caller].source == w.hist.spent[w.hist.access[y].caller].source ==> x == y
  {
    ReachableInv(w);
    assert AccessAt(w, x) && AccessAt(w, y);
  }

  /** An id_token saying acr "1" was minted for a code of that user that said so; a refresh never says it. */
  lemma StrongIdTokenFromStrongCode(w: World, t: Tid)
    requires Reachable(w) && t in w.hist.idTokens && w.hist.idTokens[t].acr != "0"
    ensures t in w.hist.spent && w.hist.spent[t].source.FromCode?
    ensures var c := w.hist.spent[t].source.id;
            c in w.hist.codes && w.hist.codes[c].acr == w.hist.idTokens[t].acr &&
                w.hist.codes[c].user == w.hist.idTokens[t].user &&
                w.hist.codes[c].authTime == w.hist.idTokens[t].authTime
  {
    ReachableInv(w);
    assert IdTokenAt(w.hist, t);
  }

  /** What every id_token of every run says: after an exchange the user, acr and auth_time of the code, after a refresh
      always acr "0" and the birth of the refresh token that was used up. */
  lemma IdTokenSays(w: World, t: Tid)
    requires Reachable(w) && t in w.hist.idTokens
    ensures t in w.hist.spent
    ensures var it := w.hist.idTokens[t];
            match w.hist.spent[t].source
            case FromCode(c) =>
              && c in w.hist.codes && it.user == w.hist.codes[c].user
              && it.acr == w.hist.codes[c].acr && it.authTime == w.hist.codes[c].authTime
            case FromRefresh(p) =>
              && p in w.hist.refresh && it.user == w.hist.refresh[p].row.user
              && it.acr == "0" && it.authTime == w.hist.refresh[p].row.createdAt
  {
    ReachableInv(w);
    assert IdTokenAt(w.hist, t);
  }
}
