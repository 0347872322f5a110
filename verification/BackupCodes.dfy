/** One-time backup codes: internal/auth/mfa/backup.go over the statements of
    internal/store/postgres/mfa.go. */
module BackupCodes {
  import opened Common

  const SET_SIZE: nat := 10

  // ----- what counts as the same code -----

  predicate Separator(c: char) { c == ' ' || c == '-' || c == '\t' }

  function Upper(c: char): char { if 'a' <= c <= 'z' then c - 32 as char else c }

  function Normalize(s: string): string
    decreases |s|
  {
    if s == [] then ""
    else if Separator(s[0]) then Normalize(s[1..])
    else [Upper(s[0])] + Normalize(s[1..])
  }

  method NormalizeCode(s: string) returns (b: string)
    ensures b == Normalize(s)
  {
    b := "";
    var i := 0;
    while i < |s|
      invariant 0 <= i <= |s|
      invariant b == Normalize(s[..i])
    {
      var r := s[i];
      NormalizeConcat(s[..i], [r]);
      assert s[..i + 1] == s[..i] + [r] && Normalize([r][1..]) == "";
      if r == ' ' || r == '-' || r == '\t' {
      } else if 'a' <= r <= 'z' {
        b := b + [r - 32 as char];
      } else {
        b := b + [r];
      }
      i := i + 1;
    }
    assert s[..i] == s;
  }

  /** What normalising does to each character: space, dash and tab go, ASCII letters are raised, all others stay. */
  lemma NormalizeMeans(a: string, c: char, b: string)
    ensures Normalize("") == ""
    ensures Normalize(a + [c] + b) ==
            Normalize(a) + (if c == ' ' || c == '-' || c == '\t' then ""
                            else if 'a' <= c <= 'z' then [c - 32 as char]
                            else [c]) + Normalize(b)
  {
    assert Normalize("") == "";
    NormalizeOne(c);
    hide Normalize;
    NormalizeAround(a, [c], b);
  }

  /** One keystroke that a person copying a code may add, leave out or type in the other case. */
  predicate Slip(s: string, t: string) {
    exists i :: 0 <= i < |s| && SlipAt(s, t, i)
  }

  predicate SlipAt(s: string, t: string, i: nat)
    requires i < |s|
  {
    || (Separator(s[i]) && t == s[..i] + s[i + 1..])
    || ('a' <= s[i] <= 'z' && t == s[i := s[i] - 32 as char])
  }

  ghost predicate Path(p: seq<string>) {
    forall k :: 0 <= k < |p| - 1 ==> Linked(p, k)
  }

  ghost predicate Linked(p: seq<string>, k: nat)
    requires k + 1 < |p|
  {
    Slip(p[k], p[k + 1]) || Slip(p[k + 1], p[k])
  }

  ghost predicate Variants(s: string, t: string) {
    exists p: seq<string> :: p != [] && p[0] == s && p[|p| - 1] == t && Path(p)
  }

  lemma {:induction false} NormalizeConcat(s: string, t: string)
    ensures Normalize(s + t) == Normalize(s) + Normalize(t)
    decreases |s|
  {
    if s == [] {
      assert s + t == t;
    } else {
      assert (s + t)[1..] == s[1..] + t;
      NormalizeConcat(s[1..], t);
    }
  }

  lemma NormalizeAround(a: string, m: string, b: string)
    ensures Normalize(a + m + b) == Normalize(a) + Normalize(m) + Normalize(b)
  {
    NormalizeConcat(a + m, b);
    NormalizeConcat(a, m);
  }

  lemma NormalizeOne(c: char)
    ensures Normalize([c]) == if Separator(c) then "" else [Upper(c)]
  {
    assert [c][1..] == "";
  }

  lemma Splits(s: string, i: nat, u: char)
    requires i < |s|
    ensures s == s[..i] + [s[i]] + s[i + 1..]
    ensures s[i := u] == s[..i] + [u] + s[i + 1..]
  {}

  lemma SlipKeepsNormal(s: string, t: string)
    requires Slip(s, t)
    ensures Normalize(s) == Normalize(t)
  {
    var i :| 0 <= i < |s| && SlipAt(s, t, i);
    var a, b, c, u := s[..i], s[i + 1..], s[i], Upper(s[i]);
    Splits(s, i, u);
    NormalizeOne(c);
    NormalizeOne(u);
    assert !Separator(c) ==> t == s[i := u] && Upper(u) == u && !Separator(u);
    hide Normalize, Upper, Separator;
    NormalizeAround(a, [c], b);
    if Separator(c) { NormalizeConcat(a, b); } else { NormalizeAround(a, [u], b); }
  }

  lemma {:induction false} PathKeepsNormal(p: seq<string>)
    requires p != [] && Path(p)
    ensures Normalize(p[0]) == Normalize(p[|p| - 1])
    decreases |p|
  {
    if |p| > 1 {
      assert Linked(p, 0);
      if Slip(p[0], p[1]) { SlipKeepsNormal(p[0], p[1]); } else { SlipKeepsNormal(p[1], p[0]); }
      forall k | 0 <= k < |p[1..]| - 1
        ensures Linked(p[1..], k)
      {
        assert Linked(p, k + 1);
      }
      PathKeepsNormal(p[1..]);
    }
  }

  /** Slips further on are slips of the longer text. */
  lemma SlipAfter(c: char, s: string, t: string)
    requires Slip(s, t)
    ensures Slip([c] + s, [c] + t)
  {
    var i :| 0 <= i < |s| && SlipAt(s, t, i);
    var s', t' := [c] + s, [c] + t;
    assert s'[i + 1] == s[i];
    if Separator(s[i]) && t == s[..i] + s[i + 1..] {
      assert s'[..i + 1] == [c] + s[..i] && s'[i + 2..] == s[i + 1..];
    } else {
      assert t' == s'[i + 1 := s[i] - 32 as char];
    }
    assert SlipAt(s', t', i + 1);
  }

  lemma Join(p: seq<string>, q: seq<string>) returns (r: seq<string>)
    requires p != [] && q != [] && p[|p| - 1] == q[0] && Path(p) && Path(q)
    ensures r != [] && r[0] == p[0] && r[|r| - 1] == q[|q| - 1] && Path(r)
  {
    r := p + q[1..];
    forall k | 0 <= k < |r| - 1
      ensures Linked(r, k)
    {
      if k < |p| - 1 {
        assert Linked(p, k) && r[k] == p[k] && r[k + 1] == p[k + 1];
      } else {
        var m := k - |p| + 1;
        assert Linked(q, m) && r[k] == q[m] && r[k + 1] == q[m + 1];
      }
    }
  }

  lemma Prefixed(c: char, q: seq<string>) returns (p: seq<string>)
    requires q != [] && Path(q)
    ensures |p| == |q| && Path(p) && p[0] == [c] + q[0] && p[|p| - 1] == [c] + q[|q| - 1]
  {
    p := seq(|q|, k requires 0 <= k < |q| => [c] + q[k]);
    forall k | 0 <= k < |p| - 1
      ensures Linked(p, k)
    {
      assert Linked(q, k);
      if Slip(q[k], q[k + 1]) { SlipAfter(c, q[k], q[k + 1]); } else { SlipAfter(c, q[k + 1], q[k]); }
    }
  }

  /** Undoing the slips one by one ends at the normal form. */
  lemma {:induction false} PathToNormal(s: string) returns (p: seq<string>)
    ensures p != [] && p[0] == s && p[|p| - 1] == Normalize(s) && Path(p)
    decreases |s|
  {
    if s == [] {
      p := [s];
    } else {
      var q := PathToNormal(s[1..]);
      var c := s[0];
      p := Prefixed(c, q);
      var last, n := p[|p| - 1], Normalize(s[1..]);
      if Separator(c) || 'a' <= c <= 'z' {
        Splits(last, 0, Upper(c));
        assert last[1..] == n;
        assert SlipAt(last, Normalize(s), 0);
        assert Linked([last, Normalize(s)], 0);
        p := Join(p, [last, Normalize(s)]);
      }
      assert [c] + s[1..] == s;
    }
  }

  lemma Reversed(p: seq<string>) returns (r: seq<string>)
    requires p != [] && Path(p)
    ensures r != [] && r[0] == p[|p| - 1] && r[|r| - 1] == p[0] && Path(r)
  {
    r := seq(|p|, k requires 0 <= k < |p| => p[|p| - 1 - k]);
    forall k | 0 <= k < |r| - 1
      ensures Linked(r, k)
    {
      assert Linked(p, |p| - 2 - k);
    }
  }

  /** Main result: two texts hash alike exactly when one turns into the other by separators and letter case. */
  lemma NormalFormMeansVariants(s: string, t: string)
    ensures Normalize(s) == Normalize(t) <==> Variants(s, t)
  {
    if Variants(s, t) {
      var p :| p != [] && p[0] == s && p[|p| - 1] == t && Path(p);
      PathKeepsNormal(p);
    }
    if Normalize(s) == Normalize(t) {
      var p := PathToNormal(s);
      var q := PathToNormal(t);
      var r := Reversed(q);
      var whole := Join(p, r);
    }
  }

  // ----- the table and its statements -----

  type RowId = nat
  type UserId = nat

  /** Hashing is ideal: a stored hash matches exactly the text it was made from, a malformed one nothing. */
  datatype Hash = Of(text: string) | Malformed
  datatype Row = Row(user: UserId, hash: Hash, used: bool)
  type Table = map<RowId, Row>

  predicate Unused(t: Table, user: UserId, id: RowId) { id in t && t[id].user == user && !t[id].used }

  function OfUser(t: Table, user: UserId): set<RowId> { set id | id in t && t[id].user == user }

  /** The rows a SELECT without ORDER BY may return. */
  ghost predicate Lists(t: Table, user: UserId, ids: seq<RowId>) {
    && (forall id :: id in ids <==> Unused(t, user, id))
    && (forall i, j :: 0 <= i < j < |ids| ==> ids[i] != ids[j])
  }

  function MarkUsed(t: Table, id: RowId): (Table, bool) {
    if id in t && !t[id].used then (t[id := t[id].(used := true)], true) else (t, false)
  }

  function Insert(t: Table, user: UserId, ids: seq<RowId>, hashes: seq<Hash>): Table
    requires |ids| == |hashes|
    decreases |ids|
  {
    if ids == [] then t
    else
      var n := |ids| - 1;
      Insert(t, user, ids[..n], hashes[..n])[ids[n] := Row(user, hashes[n], false)]
  }

  lemma {:induction false} Inserted(t: Table, user: UserId, ids: seq<RowId>, hashes: seq<Hash>)
    requires |ids| == |hashes| && forall i, j :: 0 <= i < j < |ids| ==> ids[i] != ids[j]
    ensures var t' := Insert(t, user, ids, hashes);
            && (forall i :: 0 <= i < |ids| ==> ids[i] in t' && t'[ids[i]] == Row(user, hashes[i], false))
            && (forall id :: id !in ids ==> (id in t' <==> id in t) && (id in t ==> t'[id] == t[id]))
    decreases |ids|
  {
    if ids != [] {
      var n := |ids| - 1;
      Inserted(t, user, ids[..n], hashes[..n]);
      assert forall id :: id in ids <==> id in ids[..n] || id == ids[n];
    }
  }

  predicate Matches(t: Table, user: UserId, code: string, id: RowId) {
    Unused(t, user, id) && t[id].hash == Of(Normalize(code))
  }

  class Service {
    var rows: Table

    method ReplaceBackupCodes(user: UserId, ids: seq<RowId>, hashes: seq<Hash>)
      requires |ids| == |hashes|
      modifies this
      ensures rows == Insert(old(rows) - OfUser(old(rows), user), user, ids, hashes)
      ensures (forall i, j :: 0 <= i < j < |ids| ==> ids[i] != ids[j])
              && (forall id :: id in ids ==> id !in old(rows)) ==>
                && (forall i :: 0 <= i < |ids| ==> ids[i] in rows && rows[ids[i]] == Row(user, hashes[i], false))
                && (forall id :: id !in ids ==>
                      (id in rows <==> id in old(rows) && old(rows)[id].user != user)
                      && (id in rows ==> rows[id] == old(rows)[id]))
    {
      rows := rows - OfUser(rows, user);
      ghost var base := rows;
      var i := 0;
      while i < |hashes|
        invariant 0 <= i <= |hashes|
        invariant rows == Insert(base, user, ids[..i], hashes[..i])
      {
        assert ids[..i + 1][..i] == ids[..i] && hashes[..i + 1][..i] == hashes[..i];
        rows := rows[ids[i] := Row(user, hashes[i], false)];
        i := i + 1;
      }
      assert ids[..i] == ids && hashes[..i] == hashes;
      if forall i, j :: 0 <= i < j < |ids| ==> ids[i] != ids[j] { Inserted(base, user, ids, hashes); }
    }

    method ListUnusedBackupCodes(user: UserId) returns (ids: seq<RowId>)
      ensures Lists(rows, user, ids)
    {
      ids := [];
      var rest := set id | id in rows && Unused(rows, user, id);
      ghost var all := rest;
      while rest != {}
        invariant rest <= all
        invariant forall id :: id in ids <==> id in all - rest
        invariant forall i, j :: 0 <= i < j < |ids| ==> ids[i] != ids[j]
        decreases |rest|
      {
        var id :| id in rest;
        rest := rest - {id};
        ids := ids + [id];
      }
    }

    method MarkBackupCodeUsed(id: RowId) returns (ok: bool)
      modifies this
      ensures (rows, ok) == MarkUsed(old(rows), id)
      ensures ok <==> id in old(rows) && !old(rows)[id].used
      ensures rows == if ok then old(rows)[id := Row(old(rows)[id].user, old(rows)[id].hash, true)] else old(rows)
    {
      if id !in rows || rows[id].used { return false; }
      rows := rows[id := rows[id].(used := true)];
      ok := true;
    }

    /** Alone, a code is accepted exactly when it normalises to an unused code of the user, and uses one up. */
    method VerifyBackupCode(user: UserId, code: string) returns (ok: bool)
      modifies this
      ensures ok <==> Normalize(code) != "" && exists id :: Matches(old(rows), user, code, id)
      ensures !ok ==> rows == old(rows)
      ensures ok ==> exists id :: Matches(old(rows), user, code, id) && rows == MarkUsed(old(rows), id).0
      ensures ok ==>
                exists id ::
                  && id in old(rows) && old(rows)[id] == Row(user, Of(Normalize(code)), false)
                  && rows == old(rows)[id := Row(user, Of(Normalize(code)), true)]
    {
      var candidate := NormalizeCode(code);
      if candidate == "" { return false; }
      var ids := ListUnusedBackupCodes(user);
      var i := 0;
      while i < |ids|
        invariant 0 <= i <= |ids| && rows == old(rows)
        invariant forall k :: 0 <= k < i ==> !Matches(rows, user, code, ids[k])
      {
        var id := ids[i];
        assert id in ids;
        if rows[id].hash == Of(candidate) {
          assert Matches(old(rows), user, code, id);
          ok := MarkBackupCodeUsed(id);
          return ok;
        }
        i := i + 1;
      }
      ok := false;
    }
  }

  // ----- many callers at once -----

  type Tid = nat

  /** A verification between its statements, and a generation whose DELETE has run and which has not
      committed: it holds row locks on what that statement saw. */
  datatype Verify = Asked(user: UserId, code: string) | Found(user: UserId, code: string, row: RowId) | Over(ok: bool)
  datatype Generate = Generate(user: UserId, doomed: set<RowId>)
  datatype Accepted = Accepted(call: Tid, user: UserId, code: string, row: RowId)
  datatype Issued = Issued(maker: Tid, user: UserId, hash: Hash)

  /** `sets`, `issued` and `accepted` are history: what each committed generation inserted, and every acceptance. */
  datatype World = World(rows: Table, calls: map<Tid, Verify>, open: map<Tid, Generate>,
                         sets: map<Tid, seq<RowId>>, issued: map<RowId, Issued>, accepted: seq<Accepted>)

  datatype Event =
    | Ask(tid: Tid, user: UserId, code: string)
    | List(tid: Tid, ids: seq<RowId>)
    | Mark(tid: Tid)
    | Delete(tid: Tid, user: UserId)
    | Commit(tid: Tid, ids: seq<RowId>, hashes: seq<Hash>)
    | Rollback(tid: Tid)

  ghost predicate Enabled(w: World, ev: Event) {
    match ev
    case Ask(tid, _, _) => tid !in w.calls
    case List(tid, ids) => tid in w.calls && w.calls[tid].Asked? && Lists(w.rows, w.calls[tid].user, ids)
    case Mark(tid) =>
      && tid in w.calls && w.calls[tid].Found?
      && forall g :: g in w.open ==> w.calls[tid].row !in w.open[g].doomed    // else it waits for the lock
    case Delete(tid, _) => tid !in w.open && tid !in w.sets
    case Commit(tid, ids, hashes) =>
      && tid in w.open && |ids| == |hashes| == SET_SIZE
      && (forall i :: 0 <= i < |ids| ==> ids[i] !in w.issued)
      && (forall i, j :: 0 <= i < j < |ids| ==> ids[i] != ids[j])
    case Rollback(tid) => tid in w.open
  }

  /** The first listed row that the candidate matches. */
  function First(t: Table, ids: seq<RowId>, candidate: string): Option<RowId>
    decreases |ids|
  {
    if ids == [] then None
    else if ids[0] in t && t[ids[0]].hash == Of(candidate) then Some(ids[0])
    else First(t, ids[1..], candidate)
  }

  function Listed(w: World, tid: Tid, ids: seq<RowId>): Verify
    requires tid in w.calls && w.calls[tid].Asked?
  {
    var c := w.calls[tid];
    var hit := First(w.rows, ids, Normalize(c.code));
    if Normalize(c.code) == "" || hit.None? then Over(false) else Found(c.user, c.code, hit.value)
  }

  function Record(issued: map<RowId, Issued>, maker: Tid, user: UserId, ids: seq<RowId>,
                  hashes: seq<Hash>): map<RowId, Issued>
    requires |ids| == |hashes|
  {
    issued + map id | id in ids :: Issued(maker, user, hashes[Index(ids, id)])
  }

  function Index(ids: seq<RowId>, id: RowId): (i: nat)
    requires id in ids
    ensures i < |ids| && ids[i] == id
    decreases |ids|
  {
    if ids[0] == id then 0 else 1 + Index(ids[1..], id)
  }

  function Apply(w: World, ev: Event): World
    requires Enabled(w, ev)
  {
    match ev
    case Ask(tid, user, code) => w.(calls := w.calls[tid := Asked(user, code)])
    case List(tid, ids) => w.(calls := w.calls[tid := Listed(w, tid, ids)])
    case Mark(tid) =>
      var c := w.calls[tid];
      var (rows, ok) := MarkUsed(w.rows, c.row);
      w.(rows := rows, calls := w.calls[tid := Over(ok)],
         accepted := if ok then w.accepted + [Accepted(tid, c.user, c.code, c.row)] else w.accepted)
    case Delete(tid, user) => w.(open := w.open[tid := Generate(user, OfUser(w.rows, user))])
    case Commit(tid, ids, hashes) =>
      var g := w.open[tid];
      w.(rows := Insert(w.rows - g.doomed, g.user, ids, hashes), open := w.open - {tid},
         sets := w.sets[tid := ids], issued := Record(w.issued, tid, g.user, ids, hashes))
    case Rollback(tid) => w.(open := w.open - {tid})
  }

  ghost predicate ValidRun(w: World, evs: seq<Event>)
    decreases |evs|
  {
    evs == [] || (Enabled(w, evs[0]) && ValidRun(Apply(w, evs[0]), evs[1..]))
  }

  ghost function Run(w: World, evs: seq<Event>): World
    requires ValidRun(w, evs)
    decreases |evs|
  {
    if evs == [] then w else Run(Apply(w, evs[0]), evs[1..])
  }

  const EMPTY: World := World(map[], map[], map[], map[], map[], [])

  // ----- what every step keeps -----

  ghost predicate RowAt(w: World, id: RowId) {
    id in w.rows ==>
      && id in w.issued && w.rows[id].user == w.issued[id].user && w.rows[id].hash == w.issued[id].hash
  }

  ghost predicate IssuedAt(w: World, id: RowId) {
    id in w.issued ==> w.issued[id].maker in w.sets && id in w.sets[w.issued[id].maker]
  }

  ghost predicate SetAt(w: World, g: Tid) {
    g in w.sets ==>
      && |w.sets[g]| == SET_SIZE
      && forall id :: id in w.sets[g] ==> id in w.issued && w.issued[id].maker == g
  }

  ghost predicate GoodMatch(w: World, user: UserId, code: string, id: RowId) {
    id in w.issued && w.issued[id].user == user && w.issued[id].hash == Of(Normalize(code)) && Normalize(code) != ""
  }

  ghost predicate CallAt(w: World, tid: Tid) {
    tid in w.calls && w.calls[tid].Found? ==> GoodMatch(w, w.calls[tid].user, w.calls[tid].code, w.calls[tid].row)
  }

  ghost predicate AcceptedAt(w: World, k: nat) {
    k < |w.accepted| ==>
      var a := w.accepted[k];
      && GoodMatch(w, a.user, a.code, a.row)
      && (a.row in w.rows ==> w.rows[a.row].used)
  }

  ghost predicate OpenAt(w: World, g: Tid) {
    g in w.open ==> g !in w.sets && forall id :: id in w.open[g].doomed ==>
          id in w.issued && w.issued[id].user == w.open[g].user
  }

  ghost predicate Inv(w: World) {
    && (forall id: RowId {:trigger RowAt(w, id)} :: RowAt(w, id))
    && (forall id: RowId {:trigger IssuedAt(w, id)} :: IssuedAt(w, id))
    && (forall g: Tid {:trigger SetAt(w, g)} :: SetAt(w, g))
    && (forall g: Tid {:trigger OpenAt(w, g)} :: OpenAt(w, g))
    && (forall tid: Tid {:trigger CallAt(w, tid)} :: CallAt(w, tid))
    && (forall k: nat {:trigger AcceptedAt(w, k)} :: AcceptedAt(w, k))
    && (forall i, j :: 0 <= i < j < |w.accepted| ==> w.accepted[i].row != w.accepted[j].row)
  }

  lemma {:induction false} FirstIsListed(t: Table, ids: seq<RowId>, candidate: string)
    ensures var r := First(t, ids, candidate);
            r.Some? ==> r.value in ids && r.value in t && t[r.value].hash == Of(candidate)
    decreases |ids|
  {
    if ids != [] { FirstIsListed(t, ids[1..], candidate); }
  }

  lemma KeepsList(w: World, tid: Tid, ids: seq<RowId>)
    requires Inv(w) && Enabled(w, List(tid, ids))
    ensures Inv(Apply(w, List(tid, ids)))
  {
    var w' := Apply(w, List(tid, ids));
    var c := w.calls[tid];
    FirstIsListed(w.rows, ids, Normalize(c.code));
    forall id: RowId ensures RowAt(w', id) && IssuedAt(w', id) { assert RowAt(w, id) && IssuedAt(w, id); }
    forall g: Tid ensures SetAt(w', g) && OpenAt(w', g) { assert SetAt(w, g) && OpenAt(w, g); }
    forall k: nat ensures AcceptedAt(w', k) { assert AcceptedAt(w, k); }
    forall t: Tid
      ensures CallAt(w', t)
    {
      assert CallAt(w, t);
      if t == tid && w'.calls[t].Found? {
        var row := w'.calls[t].row;
        assert Unused(w.rows, c.user, row) && RowAt(w, row);
      }
    }
  }

  lemma KeepsMark(w: World, tid: Tid)
    requires Inv(w) && Enabled(w, Mark(tid))
    ensures Inv(Apply(w, Mark(tid)))
  {
    var w' := Apply(w, Mark(tid));
    forall id: RowId ensures RowAt(w', id) && IssuedAt(w', id) { assert RowAt(w, id) && IssuedAt(w, id); }
    forall g: Tid ensures SetAt(w', g) && OpenAt(w', g) { assert SetAt(w, g) && OpenAt(w, g); }
    forall t: Tid ensures CallAt(w', t) { assert CallAt(w, t); }
    assert CallAt(w, tid);
    forall k: nat
      ensures AcceptedAt(w', k)
    {
      if k < |w.accepted| { assert AcceptedAt(w, k); }
    }
    if |w'.accepted| > |w.accepted| {
      forall i | 0 <= i < |w.accepted|
        ensures w.accepted[i].row != w.calls[tid].row
      {
        assert AcceptedAt(w, i);
      }
    }
  }

  /** What a commit does to the row `id`. */
  lemma Committed(w: World, tid: Tid, ids: seq<RowId>, hashes: seq<Hash>, id: RowId)
    requires Enabled(w, Commit(tid, ids, hashes))
    ensures var w', g := Apply(w, Commit(tid, ids, hashes)), w.open[tid];
            if id in ids then
              var h := hashes[Index(ids, id)];
              && id in w'.rows && w'.rows[id] == Row(g.user, h, false)
              && id in w'.issued && w'.issued[id] == Issued(tid, g.user, h)
            else
              && (id in w'.rows <==> id in w.rows && id !in g.doomed)
              && (id in w'.rows ==> w'.rows[id] == w.rows[id])
              && (id in w'.issued <==> id in w.issued)
              && (id in w'.issued ==> w'.issued[id] == w.issued[id])
  {
    var g := w.open[tid];
    Inserted(w.rows - g.doomed, g.user, ids, hashes);
    if id in ids { assert ids[Index(ids, id)] == id; }
  }

  lemma KeepsCommit(w: World, tid: Tid, ids: seq<RowId>, hashes: seq<Hash>)
    requires Inv(w) && Enabled(w, Commit(tid, ids, hashes))
    ensures Inv(Apply(w, Commit(tid, ids, hashes)))
  {
    var w' := Apply(w, Commit(tid, ids, hashes));
    assert OpenAt(w, tid);
    forall id: RowId
      ensures RowAt(w', id) && IssuedAt(w', id) && (id in w.issued ==> id in w'.issued && w'.issued[id] == w.issued[id])
    {
      assert RowAt(w, id) && IssuedAt(w, id);
      Committed(w, tid, ids, hashes, id);
      if id in ids { assert ids[Index(ids, id)] == id; }
    }
    KeepsCommitRest(w, tid, ids, hashes);
  }

  lemma KeepsCommitRest(w: World, tid: Tid, ids: seq<RowId>, hashes: seq<Hash>)
    requires Inv(w) && Enabled(w, Commit(tid, ids, hashes))
    ensures var w' := Apply(w, Commit(tid, ids, hashes));
            && (forall g: Tid {:trigger SetAt(w', g)} :: SetAt(w', g))
            && (forall g: Tid {:trigger OpenAt(w', g)} :: OpenAt(w', g))
            && (forall t: Tid {:trigger CallAt(w', t)} :: CallAt(w', t))
            && (forall k: nat {:trigger AcceptedAt(w', k)} :: AcceptedAt(w', k))
  {
    var w' := Apply(w, Commit(tid, ids, hashes));
    forall g: Tid
      ensures SetAt(w', g) && OpenAt(w', g)
    {
      assert SetAt(w, g) && OpenAt(w, g);
      if g in w'.sets {
        forall id | id in w'.sets[g]
          ensures id in w'.issued && w'.issued[id].maker == g
        {
          Committed(w, tid, ids, hashes, id);
        }
      }
      if g in w'.open {
        forall id | id in w'.open[g].doomed ensures id in w'.issued && w'.issued[id].user == w'.open[g].user {
          Committed(w, tid, ids, hashes, id);
        }
      }
    }
    forall t: Tid
      ensures CallAt(w', t)
    {
      assert CallAt(w, t);
      if t in w.calls && w.calls[t].Found? { Committed(w, tid, ids, hashes, w.calls[t].row); }
    }
    forall k: nat
      ensures AcceptedAt(w', k)
    {
      assert AcceptedAt(w, k);
      if k < |w.accepted| { Committed(w, tid, ids, hashes, w.accepted[k].row); }
    }
  }

  lemma KeepsOther(w: World, ev: Event)
    requires Inv(w) && Enabled(w, ev) && (ev.Ask? || ev.Delete? || ev.Rollback?)
    ensures Inv(Apply(w, ev))
  {
    var w' := Apply(w, ev);
    forall id: RowId ensures RowAt(w', id) && IssuedAt(w', id) { assert RowAt(w, id) && IssuedAt(w, id); }
    forall g: Tid
      ensures SetAt(w', g) && OpenAt(w', g)
    {
      assert SetAt(w, g) && OpenAt(w, g);
      if ev.Delete? && g == ev.tid {
        forall id | id in w'.open[g].doomed
          ensures id in w.issued && w.issued[id].user == ev.user
        {
          assert RowAt(w, id);
        }
      }
    }
    forall t: Tid ensures CallAt(w', t) { assert CallAt(w, t); }
    forall k: nat ensures AcceptedAt(w', k) { assert AcceptedAt(w, k); }
  }

  lemma Keeps(w: World, ev: Event)
    requires Inv(w) && Enabled(w, ev)
    ensures Inv(Apply(w, ev))
  {
    match ev
    case List(tid, ids) => KeepsList(w, tid, ids);
    case Mark(tid) => KeepsMark(w, tid);
    case Commit(tid, ids, hashes) => KeepsCommit(w, tid, ids, hashes);
    case _ => KeepsOther(w, ev);
  }

  lemma {:induction false} RunKeeps(w: World, evs: seq<Event>)
    requires Inv(w) && ValidRun(w, evs)
    ensures Inv(Run(w, evs))
    decreases |evs|
  {
    if evs != [] {
      Keeps(w, evs[0]);
      RunKeeps(Apply(w, evs[0]), evs[1..]);
    }
  }

  // ----- a lone request is a run -----

  lemma {:induction false} FirstIff(t: Table, ids: seq<RowId>, candidate: string)
    ensures First(t, ids, candidate).Some? <==> exists id :: id in ids && id in t && t[id].hash == Of(candidate)
    decreases |ids|
  {
    if ids != [] {
      FirstIff(t, ids[1..], candidate);
      assert forall id :: id in ids <==> id == ids[0] || id in ids[1..];
    }
  }

  /** A verification with nobody else about accepts, as VerifyBackupCode does, exactly a code that normalises to one of
      the user's unused ones, and uses up just that row. */
  lemma VerifyIsARun(w: World, tid: Tid, user: UserId, code: string, ids: seq<RowId>)
    requires tid !in w.calls && w.open == map[] && Lists(w.rows, user, ids)
    ensures Enabled(w, Ask(tid, user, code)) && Enabled(Apply(w, Ask(tid, user, code)), List(tid, ids))
    ensures var w' := Apply(Apply(w, Ask(tid, user, code)), List(tid, ids));
            var hash := Of(Normalize(code));
            if Normalize(code) != "" && exists id :: id in w.rows && w.rows[id] == Row(user, hash, false) then
              && Enabled(w', Mark(tid))
              && var done := Apply(w', Mark(tid));
                 && done.calls[tid] == Over(true)
                 && exists id ::
                      && id in w.rows && w.rows[id] == Row(user, hash, false)
                      && done.rows == w.rows[id := Row(user, hash, true)]
                      && done.accepted == w.accepted + [Accepted(tid, user, code, id)]
            else w'.calls[tid] == Over(false) && w'.rows == w.rows && w'.accepted == w.accepted
  {
    FirstIff(w.rows, ids, Normalize(code));
    FirstIsListed(w.rows, ids, Normalize(code));
    forall id: RowId | id in w.rows && w.rows[id] == Row(user, Of(Normalize(code)), false) ensures id in ids {
      assert Unused(w.rows, user, id);
    }
    forall id | id in ids && w.rows[id].hash == Of(Normalize(code))
      ensures w.rows[id] == Row(user, Of(Normalize(code)), false)
    {
      assert Unused(w.rows, user, id);
    }
  }

  /** A generation with no other statement in between leaves, as ReplaceBackupCodes does, exactly its own ten rows for
      the user and everybody else's as they were. */
  lemma ReplaceIsARun(w: World, g: Tid, user: UserId, ids: seq<RowId>, hashes: seq<Hash>)
    requires g !in w.open && g !in w.sets && |ids| == |hashes| == 10
    requires forall i :: 0 <= i < |ids| ==> ids[i] !in w.issued
    requires forall i, j :: 0 <= i < j < |ids| ==> ids[i] != ids[j]
    ensures Enabled(w, Delete(g, user)) && Enabled(Apply(w, Delete(g, user)), Commit(g, ids, hashes))
    ensures var rows := Apply(Apply(w, Delete(g, user)), Commit(g, ids, hashes)).rows;
            && (forall i :: 0 <= i < |ids| ==> ids[i] in rows && rows[ids[i]] == Row(user, hashes[i], false))
            && (forall id :: id !in ids ==>
                  (id in rows <==> id in w.rows && w.rows[id].user != user)
                  && (id in rows ==> rows[id] == w.rows[id]))
  {
    Inserted(w.rows - OfUser(w.rows, user), user, ids, hashes);
  }

  // ----- main results -----

  /** Over every run no row is accepted twice, and each acceptance was of a code issued to that user. */
  lemma AcceptedOnce(evs: seq<Event>)
    requires ValidRun(EMPTY, evs)
    ensures var w := Run(EMPTY, evs);
            && (forall i, j :: 0 <= i < j < |w.accepted| ==> w.accepted[i].row != w.accepted[j].row)
            && (forall k :: 0 <= k < |w.accepted| ==>
                  GoodMatch(w, w.accepted[k].user, w.accepted[k].code, w.accepted[k].row))
  {
    RunKeeps(EMPTY, evs);
    var w := Run(EMPTY, evs);
    forall k | 0 <= k < |w.accepted|
      ensures GoodMatch(w, w.accepted[k].user, w.accepted[k].code, w.accepted[k].row)
    {
      assert AcceptedAt(w, k);
    }
  }

  /** The acceptances, out of the first `n`, of rows that generation `g` inserted. */
  function Uses(w: World, g: Tid, n: nat): (s: set<RowId>)
    requires n <= |w.accepted|
  {
    set k | 0 <= k < n && w.accepted[k].row in w.issued && w.issued[w.accepted[k].row].maker == g :: w.accepted[k].row
  }

  function CountUses(w: World, g: Tid, n: nat): nat
    requires n <= |w.accepted|
  {
    if n == 0 then 0
    else
      var row := w.accepted[n - 1].row;
      CountUses(w, g, n - 1) + (if row in w.issued && w.issued[row].maker == g then 1 else 0)
  }

  lemma {:induction false} UsesAreDistinct(w: World, g: Tid, n: nat)
    requires n <= |w.accepted|
    requires forall i, j :: 0 <= i < j < |w.accepted| ==> w.accepted[i].row != w.accepted[j].row
    ensures CountUses(w, g, n) == |Uses(w, g, n)|
  {
    if n > 0 {
      UsesAreDistinct(w, g, n - 1);
      var row := w.accepted[n - 1].row;
      assert row !in Uses(w, g, n - 1);
      if row in w.issued && w.issued[row].maker == g {
        assert Uses(w, g, n) == Uses(w, g, n - 1) + {row};
      } else {
        assert Uses(w, g, n) == Uses(w, g, n - 1);
      }
    }
  }

  lemma {:induction false} FewElements(s: set<RowId>, ids: seq<RowId>)
    requires forall id :: id in s ==> id in ids
    ensures |s| <= |ids|
    decreases |ids|
  {
    if ids == [] {
      assert s == {};
    } else {
      FewElements(s - {ids[0]}, ids[1..]);
    }
  }

  /** Over every run a generation's codes are accepted at most ten times in all. */
  lemma AtMostTenPerSet(evs: seq<Event>, g: Tid)
    requires ValidRun(EMPTY, evs)
    ensures var w := Run(EMPTY, evs); CountUses(w, g, |w.accepted|) <= 10
  {
    RunKeeps(EMPTY, evs);
    var w := Run(EMPTY, evs);
    var n := |w.accepted|;
    UsesAreDistinct(w, g, n);
    assert SetAt(w, g);
    forall id | id in Uses(w, g, n)
      ensures g in w.sets && id in w.sets[g]
    {
      assert IssuedAt(w, id);
    }
    if g in w.sets {
      FewElements(Uses(w, g, n), w.sets[g]);
    } else {
      assert Uses(w, g, n) == {};
    }
  }

  /** Row `id` is locked by generation `g`, or gone. */
  ghost predicate Barred(w: World, g: Tid, id: RowId) {
    id in w.issued && (id !in w.rows || (g in w.open && id in w.open[g].doomed))
  }

  /** Main result: from the moment a generation's DELETE has seen a row, and unless it rolls back, that row is
      never accepted again, by calls already under way or by later ones. */
  lemma {:induction false} ReplacedNeverAccepted(w: World, g: Tid, id: RowId, evs: seq<Event>)
    requires Inv(w) && Barred(w, g, id) && ValidRun(w, evs) && Rollback(g) !in evs
    ensures Barred(Run(w, evs), g, id)
    ensures |w.accepted| <= |Run(w, evs).accepted|
    ensures forall k :: |w.accepted| <= k < |Run(w, evs).accepted| ==> Run(w, evs).accepted[k].row != id
    decreases |evs|
  {
    if evs != [] {
      var ev := evs[0];
      var w' := Apply(w, ev);
      Keeps(w, ev);
      BarredStep(w, g, id, ev);
      ReplacedNeverAccepted(w', g, id, evs[1..]);
      AcceptedGrows(w', evs[1..]);
    }
  }

  lemma BarredStep(w: World, g: Tid, id: RowId, ev: Event)
    requires Inv(w) && Barred(w, g, id) && Enabled(w, ev) && ev != Rollback(g)
    ensures Barred(Apply(w, ev), g, id)
    ensures w.accepted <= Apply(w, ev).accepted
    ensures forall k :: |w.accepted| <= k < |Apply(w, ev).accepted| ==> Apply(w, ev).accepted[k].row != id
  {
    if ev.Commit? { Committed(w, ev.tid, ev.ids, ev.hashes, id); }
  }

  lemma {:induction false} AcceptedGrows(w: World, evs: seq<Event>)
    requires ValidRun(w, evs)
    ensures w.accepted <= Run(w, evs).accepted
    decreases |evs|
  {
    if evs != [] { AcceptedGrows(Apply(w, evs[0]), evs[1..]); }
  }

  // ----- how many codes are live -----

  /** What the generations did so far: those under way, `late` when another one for the user committed since their
      DELETE, and the users whose last commit was a late one. */
  datatype Pending = Pending(user: UserId, late: bool)
  datatype Trace = Trace(open: map<Tid, Pending>, two: set<UserId>)

  function Note(t: Trace, ev: Event): Trace {
    match ev
    case Delete(tid, user) => t.(open := t.open[tid := Pending(user, false)])
    case Commit(tid, _, _) =>
      if tid in t.open then
        var p := t.open[tid];
        Trace(map g | g in t.open && g != tid :: Pending(t.open[g].user, t.open[g].late || t.open[g].user == p.user),
              if p.late then t.two + {p.user} else t.two - {p.user})
      else t
    case Rollback(tid) => t.(open := t.open - {tid})
    case _ => t
  }

  /** A function of the events alone; no table is looked at. */
  function Track(t: Trace, evs: seq<Event>): Trace
    decreases |evs|
  {
    if evs == [] then t else Track(Note(t, evs[0]), evs[1..])
  }

  ghost predicate SameMaker(w: World, user: UserId, a: RowId, b: RowId) {
    a in OfUser(w.rows, user) && b in OfUser(w.rows, user) ==>
      a in w.issued && b in w.issued && w.issued[a].maker == w.issued[b].maker
  }

  /** The user's rows were all made by one generation. */
  ghost predicate OneSet(w: World, user: UserId) {
    forall a: RowId, b: RowId {:trigger SameMaker(w, user, a, b)} :: SameMaker(w, user, a, b)
  }

  ghost predicate PendAt(w: World, t: Trace, g: Tid) {
    && (g in t.open <==> g in w.open)
    && (g in w.open ==>
          && t.open[g].user == w.open[g].user
          && (t.open[g].late <==> !(OfUser(w.rows, w.open[g].user) <= w.open[g].doomed)))
  }

  ghost predicate UserAt(w: World, t: Trace, user: UserId) {
    if user in t.two then |OfUser(w.rows, user)| > SET_SIZE else OneSet(w, user)
  }

  ghost predicate Follows(w: World, t: Trace) {
    && (forall g: Tid {:trigger PendAt(w, t, g)} :: PendAt(w, t, g))
    && (forall user: UserId {:trigger UserAt(w, t, user)} :: UserAt(w, t, user))
  }

  /** A commit leaves the rows of other users alone. */
  lemma OthersUntouched(w: World, tid: Tid, ids: seq<RowId>, hashes: seq<Hash>, user: UserId)
    requires Inv(w) && Enabled(w, Commit(tid, ids, hashes)) && user != w.open[tid].user
    ensures OfUser(Apply(w, Commit(tid, ids, hashes)).rows, user) == OfUser(w.rows, user)
  {
    hide Apply;
    forall id: RowId
      ensures id in OfUser(Apply(w, Commit(tid, ids, hashes)).rows, user) <==> id in OfUser(w.rows, user)
    {
      Committed(w, tid, ids, hashes, id);
      assert RowAt(w, id) && OpenAt(w, tid);
      if id in ids { assert ids[Index(ids, id)] == id; }
    }
  }

  /** It leaves its own rows, and those its DELETE has not seen. */
  lemma OwnRows(w: World, tid: Tid, ids: seq<RowId>, hashes: seq<Hash>, id: RowId)
    requires Enabled(w, Commit(tid, ids, hashes))
    ensures var user := w.open[tid].user;
            id in OfUser(Apply(w, Commit(tid, ids, hashes)).rows, user) <==>
            id in ids || (id in OfUser(w.rows, user) && id !in w.open[tid].doomed)
  {
    hide Apply;
    Committed(w, tid, ids, hashes, id);
  }

  lemma CommitPend(w: World, t: Trace, tid: Tid, ids: seq<RowId>, hashes: seq<Hash>, g: Tid)
    requires Inv(w) && Enabled(w, Commit(tid, ids, hashes)) && PendAt(w, t, g) && PendAt(w, t, tid)
    ensures PendAt(Apply(w, Commit(tid, ids, hashes)), Note(t, Commit(tid, ids, hashes)), g)
  {
    var w' := Apply(w, Commit(tid, ids, hashes));
    if g in w'.open {
      assert w'.open[g] == w.open[g];
      if w.open[g].user == w.open[tid].user {
        assert OpenAt(w, g);
        OwnRows(w, tid, ids, hashes, ids[0]);
        assert ids[0] in OfUser(w'.rows, w.open[g].user) && ids[0] !in w.open[g].doomed;
      } else {
        OthersUntouched(w, tid, ids, hashes, w.open[g].user);
      }
    }
  }

  function Members(ids: seq<RowId>): set<RowId> { set id | id in ids }

  lemma {:induction false} Distinct(ids: seq<RowId>)
    requires forall i, j :: 0 <= i < j < |ids| ==> ids[i] != ids[j]
    ensures |Members(ids)| == |ids|
    decreases |ids|
  {
    if ids != [] {
      Distinct(ids[1..]);
      assert Members(ids) == Members(ids[1..]) + {ids[0]};
    }
  }

  lemma MoreElements(s: set<RowId>, t: set<RowId>, x: RowId)
    requires t <= s && x in s && x !in t
    ensures |s| > |t|
  {
    Subset(t + {x}, s);
  }

  lemma {:induction false} Subset(t: set<RowId>, s: set<RowId>)
    requires t <= s
    ensures |t| <= |s|
  {
    if t != {} {
      var x :| x in t;
      Subset(t - {x}, s - {x});
    }
  }

  lemma OwnSet(w: World, tid: Tid, ids: seq<RowId>, hashes: seq<Hash>)
    requires Enabled(w, Commit(tid, ids, hashes)) && OfUser(w.rows, w.open[tid].user) <= w.open[tid].doomed
    ensures OneSet(Apply(w, Commit(tid, ids, hashes)), w.open[tid].user)
  {
    hide Apply, OfUser;
    var w' := Apply(w, Commit(tid, ids, hashes));
    var user := w.open[tid].user;
    forall a: RowId, b: RowId
      ensures SameMaker(w', user, a, b)
    {
      OwnRows(w, tid, ids, hashes, a);
      OwnRows(w, tid, ids, hashes, b);
      Committed(w, tid, ids, hashes, a);
      Committed(w, tid, ids, hashes, b);
    }
  }

  lemma TwoSets(w: World, tid: Tid, ids: seq<RowId>, hashes: seq<Hash>, stray: RowId)
    requires Inv(w) && Enabled(w, Commit(tid, ids, hashes))
    requires stray in OfUser(w.rows, w.open[tid].user) && stray !in w.open[tid].doomed
    ensures |OfUser(Apply(w, Commit(tid, ids, hashes)).rows, w.open[tid].user)| > SET_SIZE
  {
    hide Apply;
    var mine := OfUser(Apply(w, Commit(tid, ids, hashes)).rows, w.open[tid].user);
    forall id: RowId ensures id in ids || id == stray ==> id in mine { OwnRows(w, tid, ids, hashes, id); }
    assert RowAt(w, stray);
    Distinct(ids);
    MoreElements(mine, Members(ids), stray);
  }

  /** The user of a committing generation: one set, or more than ten rows when the commit was late. */
  lemma CommitUser(w: World, t: Trace, tid: Tid, ids: seq<RowId>, hashes: seq<Hash>)
    requires Inv(w) && Enabled(w, Commit(tid, ids, hashes)) && PendAt(w, t, tid)
    ensures UserAt(Apply(w, Commit(tid, ids, hashes)), Note(t, Commit(tid, ids, hashes)), w.open[tid].user)
  {
    hide Inv, Apply, OneSet, OfUser;
    if t.open[tid].late {
      var stray :| stray in OfUser(w.rows, w.open[tid].user) && stray !in w.open[tid].doomed;
      TwoSets(w, tid, ids, hashes, stray);
    } else {
      OwnSet(w, tid, ids, hashes);
    }
  }

  lemma CommitFollows(w: World, t: Trace, tid: Tid, ids: seq<RowId>, hashes: seq<Hash>)
    requires Inv(w) && Follows(w, t) && Enabled(w, Commit(tid, ids, hashes))
    ensures Follows(Apply(w, Commit(tid, ids, hashes)), Note(t, Commit(tid, ids, hashes)))
  {
    var ev := Commit(tid, ids, hashes);
    var w', t' := Apply(w, ev), Note(t, ev);
    assert PendAt(w, t, tid);
    forall g: Tid
      ensures PendAt(w', t', g)
    {
      assert PendAt(w, t, g);
      CommitPend(w, t, tid, ids, hashes, g);
    }
    forall user: UserId
      ensures UserAt(w', t', user)
    {
      assert UserAt(w, t, user);
      if user == w.open[tid].user {
        CommitUser(w, t, tid, ids, hashes);
      } else {
        OtherUser(w, t, tid, ids, hashes, user);
      }
    }
  }

  lemma OtherUser(w: World, t: Trace, tid: Tid, ids: seq<RowId>, hashes: seq<Hash>, user: UserId)
    requires Inv(w) && Enabled(w, Commit(tid, ids, hashes)) && user != w.open[tid].user
    requires PendAt(w, t, tid) && UserAt(w, t, user)
    ensures UserAt(Apply(w, Commit(tid, ids, hashes)), Note(t, Commit(tid, ids, hashes)), user)
  {
    var w' := Apply(w, Commit(tid, ids, hashes));
    OthersUntouched(w, tid, ids, hashes, user);
    if user !in t.two {
      forall a: RowId, b: RowId
        ensures SameMaker(w', user, a, b)
      {
        assert SameMaker(w, user, a, b) && RowAt(w, a) && RowAt(w, b);
        Committed(w, tid, ids, hashes, a);
        Committed(w, tid, ids, hashes, b);
      }
    }
  }

  lemma OtherFollows(w: World, t: Trace, ev: Event)
    requires Follows(w, t) && Enabled(w, ev) && !ev.Commit?
    ensures Follows(Apply(w, ev), Note(t, ev))
  {
    var w', t' := Apply(w, ev), Note(t, ev);
    forall u: UserId ensures OfUser(w'.rows, u) == OfUser(w.rows, u) {}
    forall g: Tid ensures PendAt(w', t', g) { assert PendAt(w, t, g); }
    forall user: UserId
      ensures UserAt(w', t', user)
    {
      assert UserAt(w, t, user);
      if user !in t.two {
        forall a: RowId, b: RowId ensures SameMaker(w', user, a, b) { assert SameMaker(w, user, a, b); }
      }
    }
  }

  lemma {:induction false} RunFollows(w: World, t: Trace, evs: seq<Event>)
    requires Inv(w) && Follows(w, t) && ValidRun(w, evs)
    ensures Inv(Run(w, evs)) && Follows(Run(w, evs), Track(t, evs))
    decreases |evs|
  {
    if evs != [] {
      var ev := evs[0];
      Keeps(w, ev);
      if ev.Commit? { CommitFollows(w, t, ev.tid, ev.ids, ev.hashes); } else { OtherFollows(w, t, ev); }
      RunFollows(Apply(w, ev), Note(t, ev), evs[1..]);
    }
  }

  lemma OneSetIsTen(w: World, user: UserId)
    requires Inv(w) && OneSet(w, user)
    ensures |OfUser(w.rows, user)| <= SET_SIZE
  {
    var mine := OfUser(w.rows, user);
    if mine != {} {
      var a :| a in mine;
      assert RowAt(w, a) && IssuedAt(w, a) && SetAt(w, w.issued[a].maker);
      forall b | b in mine
        ensures b in w.sets[w.issued[a].maker]
      {
        assert SameMaker(w, user, a, b) && IssuedAt(w, b);
      }
      FewElements(mine, w.sets[w.issued[a].maker]);
    }
  }

  /** Main result, after every run and for every user: the rows are those of one generation, and ten at most, exactly
      when no other generation for the user committed between the DELETE and the commit of the last one. */
  lemma OneLiveSetIff(evs: seq<Event>, user: UserId)
    requires ValidRun(EMPTY, evs)
    ensures var w, late := Run(EMPTY, evs), user in Track(Trace(map[], {}), evs).two;
            && (OneSet(w, user) <==> !late)
            && (|OfUser(w.rows, user)| <= 10 <==> !late)
  {
    var t := Trace(map[], {});
    forall g: Tid ensures PendAt(EMPTY, t, g) {}
    forall u: UserId
      ensures UserAt(EMPTY, t, u)
    {
      forall a: RowId, b: RowId ensures SameMaker(EMPTY, u, a, b) {}
    }
    RunFollows(EMPTY, t, evs);
    var w := Run(EMPTY, evs);
    assert UserAt(w, Track(t, evs), user);
    if OneSet(w, user) { OneSetIsTen(w, user); }
  }

  function Ten(from: RowId): seq<RowId> { seq(SET_SIZE, i => from + i) }

  lemma InTen(from: RowId, id: RowId)
    ensures id in Ten(from) <==> from <= id < from + SET_SIZE
  {
    if from <= id < from + SET_SIZE { assert Ten(from)[id - from] == id; }
  }

  lemma CommitTen(w: World, tid: Tid, from: RowId, hashes: seq<Hash>)
    requires tid in w.open && w.open[tid].doomed == {} && |hashes| == SET_SIZE
    requires forall id :: from <= id < from + SET_SIZE ==> id !in w.issued
    ensures Enabled(w, Commit(tid, Ten(from), hashes))
    ensures var w' := Apply(w, Commit(tid, Ten(from), hashes));
            && w'.open == w.open - {tid}
            && (forall id :: from <= id < from + SET_SIZE ==> Unused(w'.rows, w.open[tid].user, id))
            && (forall id :: id in w.rows && !(from <= id < from + SET_SIZE) ==>
                id in w'.rows && w'.rows[id] == w.rows[id])
            && (forall id :: id in w'.issued ==> from <= id < from + SET_SIZE || id in w.issued)
  {
    hide Insert, Record;
    forall id: RowId ensures id in Ten(from) <==> from <= id < from + SET_SIZE { InTen(from, id); }
    forall i | 0 <= i < SET_SIZE ensures Ten(from)[i] !in w.issued { assert Ten(from)[i] == from + i; }
    forall id: RowId
      ensures from <= id < from + SET_SIZE ==>
                Unused(Apply(w, Commit(tid, Ten(from), hashes)).rows, w.open[tid].user, id)
    {
      Committed(w, tid, Ten(from), hashes, id);
    }
    forall id: RowId | id in w.rows && !(from <= id < from + SET_SIZE)
      ensures var t := Apply(w, Commit(tid, Ten(from), hashes)).rows; id in t && t[id] == w.rows[id]
    {
      Committed(w, tid, Ten(from), hashes, id);
    }
    forall id | id in Apply(w, Commit(tid, Ten(from), hashes)).issued
      ensures from <= id < from + SET_SIZE || id in w.issued
    {
      Committed(w, tid, Ten(from), hashes, id);
    }
  }

  lemma BothLive(w: World, user: UserId, hashes: seq<Hash>, g: Tid, h: Tid, a: RowId, b: RowId)
    requires |hashes| == SET_SIZE && a + SET_SIZE <= b && g != h && w.issued == map[]
    requires w.open == map[g := Generate(user, {}), h := Generate(user, {})]
    ensures Enabled(w, Commit(g, Ten(a), hashes))
    ensures Enabled(Apply(w, Commit(g, Ten(a), hashes)), Commit(h, Ten(b), hashes))
    ensures forall id :: a <= id < a + SET_SIZE || b <= id < b + SET_SIZE ==>
              Unused(Apply(Apply(w, Commit(g, Ten(a), hashes)), Commit(h, Ten(b), hashes)).rows, user, id)
  {
    CommitTen(w, g, a, hashes);
    var w' := Apply(w, Commit(g, Ten(a), hashes));
    assert w'.open[h] == w.open[h];
    CommitTen(w', h, b, hashes);
    KeptAndAdded(w'.rows, Apply(w', Commit(h, Ten(b), hashes)).rows, user, a, b);
  }

  lemma KeptAndAdded(t: Table, t': Table, user: UserId, a: RowId, b: RowId)
    requires a + SET_SIZE <= b
    requires forall id :: a <= id < a + SET_SIZE ==> Unused(t, user, id)
    requires forall id :: b <= id < b + SET_SIZE ==> Unused(t', user, id)
    requires forall id :: id in t && !(b <= id < b + SET_SIZE) ==> id in t' && t'[id] == t[id]
    ensures forall id :: a <= id < a + SET_SIZE || b <= id < b + SET_SIZE ==> Unused(t', user, id)
  {
    forall id: RowId | a <= id < a + SET_SIZE
      ensures Unused(t', user, id)
    {
      assert Unused(t, user, id);
    }
  }

  /** Two generations that overlap both commit: each DELETE missed the other's rows, so twenty codes are live. */
  lemma OverlapLeavesTwoSets(user: UserId, hashes: seq<Hash>, g: Tid, h: Tid, a: RowId, b: RowId)
    requires |hashes| == SET_SIZE && a + SET_SIZE <= b && g != h
    ensures var evs := [Delete(g, user), Delete(h, user), Commit(g, Ten(a), hashes), Commit(h, Ten(b), hashes)];
            && ValidRun(EMPTY, evs)
            && forall id :: a <= id < a + SET_SIZE || b <= id < b + SET_SIZE ==> Unused(Run(EMPTY, evs).rows, user, id)
  {
    assert OfUser(EMPTY.rows, user) == {};
    BothLive(Apply(Apply(EMPTY, Delete(g, user)), Delete(h, user)), user, hashes, g, h, a, b);
    RunFour(EMPTY, Delete(g, user), Delete(h, user), Commit(g, Ten(a), hashes), Commit(h, Ten(b), hashes));
  }

  lemma RunCons(w: World, ev: Event, evs: seq<Event>)
    requires Enabled(w, ev) && ValidRun(Apply(w, ev), evs)
    ensures ValidRun(w, [ev] + evs) && Run(w, [ev] + evs) == Run(Apply(w, ev), evs)
  {
    assert ([ev] + evs)[1..] == evs;
  }

  lemma RunFour(w: World, a: Event, b: Event, c: Event, d: Event)
    requires Enabled(w, a) && Enabled(Apply(w, a), b) && Enabled(Apply(Apply(w, a), b), c)
    requires Enabled(Apply(Apply(Apply(w, a), b), c), d)
    ensures ValidRun(w, [a, b, c, d])
    ensures Run(w, [a, b, c, d]) == Apply(Apply(Apply(Apply(w, a), b), c), d)
  {
    var x := Apply(w, a);
    var y := Apply(x, b);
    var z := Apply(y, c);
    RunCons(z, d, []);
    RunCons(y, c, [d] + []);
    RunCons(x, b, [c] + ([d] + []));
    RunCons(w, a, [b] + ([c] + ([d] + [])));
    assert [a] + ([b] + ([c] + ([d] + []))) == [a, b, c, d];
  }
}
