/** Statements put together at run time: the WHERE and SET builders of internal/store/postgres/admin.go and
    audit.go, as conditions over numbered placeholders beside the argument list they are sent with. */
module SqlBuilders {
  import opened Common
  import Patterns

  datatype Value =
    | Null
    | Text(text: string)
    | Flag(flag: bool)
    | Moment(at: int)
    | Uuid(id: nat)
    | Texts(items: seq<string>)
    | Number(n: int)

  type Row = map<string, Value>

  function Col(row: Row, name: string): Value { if name in row then row[name] else Null }

  // ----- conditions -----

  /** `$i` is the i-th argument, counted from one. */
  datatype Cond =
    | True
    | IsNull(col: string)
    | Eq(col: string, ph: nat)
    | ILike(col: string, ph: nat)
    | AtLeast(col: string, ph: nat)
    | AtMost(col: string, ph: nat)
    | AnyOf(conds: seq<Cond>)

  datatype Truth = Yes | No | Unknown

  function Of(b: bool): Truth { if b then Yes else No }

  /** SQL's three-valued OR. */
  function Or(a: Truth, b: Truth): Truth {
    if a.Yes? || b.Yes? then Yes else if a.Unknown? || b.Unknown? then Unknown else No
  }

  function Arg(args: seq<Value>, ph: nat): Value { if 1 <= ph <= |args| then args[ph - 1] else Null }

  function Matches(pattern: string, text: string): bool {
    Patterns.Like(Lower(pattern), Lower(text))
  }

  function Eval(c: Cond, args: seq<Value>, row: Row): Truth
    decreases c
  {
    match c
    case True => Yes
    case IsNull(col) => Of(Col(row, col) == Null)
    case Eq(col, ph) =>
      if Col(row, col) == Null || Arg(args, ph) == Null then Unknown else Of(Col(row, col) == Arg(args, ph))
    case ILike(col, ph) =>
      if Col(row, col).Text? && Arg(args, ph).Text? then Of(Matches(Arg(args, ph).text, Col(row, col).text))
      else Unknown
    case AtLeast(col, ph) =>
      if Col(row, col).Moment? && Arg(args, ph).Moment? then Of(Col(row, col).at >= Arg(args, ph).at) else Unknown
    case AtMost(col, ph) =>
      if Col(row, col).Moment? && Arg(args, ph).Moment? then Of(Col(row, col).at <= Arg(args, ph).at) else Unknown
    case AnyOf(conds) => EvalAny(conds, args, row)
  }

  function EvalAny(conds: seq<Cond>, args: seq<Value>, row: Row): Truth
    decreases conds
  {
    if conds == [] then No else Or(Eval(conds[0], args, row), EvalAny(conds[1..], args, row))
  }

  /** A row is selected when every conjunct is true, neither false nor unknown. */
  predicate Selected(where: seq<Cond>, args: seq<Value>, row: Row) {
    forall i :: 0 <= i < |where| ==> Eval(where[i], args, row) == Yes
  }

  /** Every placeholder of a condition is bound by the first n arguments. */
  predicate Bound(c: Cond, n: nat)
    decreases c
  {
    match c
    case True => true
    case IsNull(_) => true
    case Eq(_, ph) => 1 <= ph <= n
    case ILike(_, ph) => 1 <= ph <= n
    case AtLeast(_, ph) => 1 <= ph <= n
    case AtMost(_, ph) => 1 <= ph <= n
    case AnyOf(conds) => forall i :: 0 <= i < |conds| ==> Bound(conds[i], n)
  }

  predicate AllBound(where: seq<Cond>, n: nat) { forall i :: 0 <= i < |where| ==> Bound(where[i], n) }

  /** Arguments appended later do not change what an earlier condition means. */
  lemma {:induction false} LaterArgs(c: Cond, args: seq<Value>, more: seq<Value>, row: Row)
    requires Bound(c, |args|)
    ensures Eval(c, args + more, row) == Eval(c, args, row) && Bound(c, |args + more|)
    decreases c
  {
    if c.AnyOf? { LaterAny(c.conds, args, more, row); }
  }

  lemma {:induction false} LaterAny(conds: seq<Cond>, args: seq<Value>, more: seq<Value>, row: Row)
    requires forall i :: 0 <= i < |conds| ==> Bound(conds[i], |args|)
    ensures EvalAny(conds, args + more, row) == EvalAny(conds, args, row)
    ensures forall i :: 0 <= i < |conds| ==> Bound(conds[i], |args + more|)
    decreases conds
  {
    if conds != [] {
      LaterArgs(conds[0], args, more, row);
      LaterAny(conds[1..], args, more, row);
      assert forall i :: 0 < i < |conds| ==> conds[i] == conds[1..][i - 1];
    }
  }

  ghost predicate Means(where: seq<Cond>, args: seq<Value>, spec: Row -> bool) {
    AllBound(where, |args|) && forall row: Row :: Selected(where, args, row) <==> spec(row)
  }

  /** The step of every builder: args = append(args, v); where = append(where, c), where c may use the argument just
      pushed.  `next` is what the longer WHERE is to mean. */
  method Push(where: seq<Cond>, args: seq<Value>, v: Value, c: Cond, ghost spec: Row -> bool, ghost next: Row -> bool)
    returns (where': seq<Cond>, args': seq<Value>)
    requires Means(where, args, spec) && Bound(c, |args| + 1)
    requires forall row: Row :: next(row) <==> spec(row) && Eval(c, args + [v], row) == Yes
    ensures where' == where + [c] && args' == args + [v]
    ensures Means(where', args', next)
  {
    where', args' := where + [c], args + [v];
    forall row: Row
      ensures Selected(where', args', row) <==> next(row)
    {
      Earlier(where, args, [v], row);
      assert where'[|where|] == c;
      assert forall i :: 0 <= i < |where| ==> where'[i] == where[i];
    }
    Earlier(where, args, [v], map[]);
    assert forall i :: 0 <= i < |where'| ==> where'[i] == if i < |where| then where[i] else c;
  }

  lemma Earlier(where: seq<Cond>, args: seq<Value>, more: seq<Value>, row: Row)
    requires AllBound(where, |args|)
    ensures forall i :: 0 <= i < |where| ==> Eval(where[i], args + more, row) == Eval(where[i], args, row)
    ensures AllBound(where, |args + more|)
  {
    forall i | 0 <= i < |where|
      ensures Eval(where[i], args + more, row) == Eval(where[i], args, row) && Bound(where[i], |args + more|)
    {
      LaterArgs(where[i], args, more, row);
    }
  }

  lemma MoreArgs(where: seq<Cond>, args: seq<Value>, more: seq<Value>, spec: Row -> bool)
    requires Means(where, args, spec)
    ensures Means(where, args + more, spec)
  {
    Earlier(where, args, more, map[]);
    forall row: Row ensures Selected(where, args + more, row) <==> spec(row) { Earlier(where, args, more, row); }
  }

  // ----- ListUsers -----

  datatype UserFilter = UserFilter(search: string, status: string, limit: int, offset: int)

  predicate Hit(row: Row, col: string, pattern: string) { Col(row, col).Text? && Matches(pattern, Col(row, col).text) }

  /** What the filter asks for, in its own terms. */
  predicate WantedUser(f: UserFilter, row: Row) {
    && Col(row, "deleted_at") == Null
    && (f.search != "" ==>
          var p := "%" + f.search + "%";
          Hit(row, "email", p) || Hit(row, "username", p) || Hit(row, "display_name", p))
    && (f.status != "" ==> Col(row, "status") == Text(f.status))
  }

  function PageSize(asked: int, cap: int, fallback: int): int { if asked <= 0 || asked > cap then fallback else asked }

  function WantsUser(f: UserFilter): Row -> bool { row => WantedUser(f, row) }

  method BuildListUsers(f: UserFilter) returns (where: seq<Cond>, args: seq<Value>, limitAt: nat, offsetAt: nat)
    ensures Means(where, args, WantsUser(f))
    ensures limitAt == |args| - 1 >= 1 && offsetAt == |args|
    ensures Arg(args, limitAt) == Number(if 1 <= f.limit <= 200 then f.limit else 50) &&
            Arg(args, offsetAt) == Number(if f.offset < 0 then 0 else f.offset)
    ensures AllBound(where, |args| - 2)
  {
    where, args := [IsNull("deleted_at")], [];
    ghost var g := f.(search := "", status := "");
    forall row: Row
      ensures Selected(where, args, row) <==> WantsUser(g)(row)
    {
      assert where[0] == IsNull("deleted_at");
    }
    assert Means(where, args, WantsUser(g));
    hide Means, Hit;
    if f.search != "" {
      var p := "%" + f.search + "%";
      var i := |args| + 1;
      var c := AnyOf([ILike("email", i), ILike("username", i), ILike("display_name", i)]);
      forall row: Row
        ensures WantedUser(g.(search := f.search), row) <==> WantedUser(g, row) && Eval(c, args + [Text(p)], row) == Yes
      {
        SearchClause(args, p, row);
      }
      where, args := Push(where, args, Text(p), c, WantsUser(g), WantsUser(g.(search := f.search)));
      g := g.(search := f.search);
    }
    assert Means(where, args, WantsUser(g));
    if f.status != "" {
      where, args := Push(where, args, Text(f.status), Eq("status", |args| + 1), WantsUser(g),
                          WantsUser(g.(status := f.status)));
      g := g.(status := f.status);
    }
    assert g == f;
    limitAt, offsetAt := |args| + 1, |args| + 2;
    ghost var before := args;
    args := args + [Number(PageSize(f.limit, 200, 50)), Number(if f.offset < 0 then 0 else f.offset)];
    assert args == before + args[|before|..];
    MoreArgs(where, before, args[|before|..], WantsUser(f));
    assert AllBound(where, |before|) by { BoundBy(where, before, WantsUser(f)); }
  }

  lemma BoundBy(where: seq<Cond>, args: seq<Value>, spec: Row -> bool)
    requires Means(where, args, spec)
    ensures AllBound(where, |args|)
  {}

  /** A comparison with the argument just pushed compares with its value. */
  lemma Clause(args: seq<Value>, col: string, v: Value, row: Row)
    requires v != Null
    ensures Eval(Eq(col, |args| + 1), args + [v], row) == Yes <==> Col(row, col) == v
    ensures v.Moment? ==> (Eval(AtLeast(col, |args| + 1), args + [v], row) == Yes <==>
                           Col(row, col).Moment? && Col(row, col).at >= v.at)
    ensures v.Moment? ==> (Eval(AtMost(col, |args| + 1), args + [v], row) == Yes <==>
                           Col(row, col).Moment? && Col(row, col).at <= v.at)
  {
    assert Arg(args + [v], |args| + 1) == v;
  }

  /** The one argument serves all three columns. */
  lemma SearchClause(args: seq<Value>, p: string, row: Row)
    ensures var i := |args| + 1;
            var c := AnyOf([ILike("email", i), ILike("username", i), ILike("display_name", i)]);
            Eval(c, args + [Text(p)], row) == Yes <==>
              Hit(row, "email", p) || Hit(row, "username", p) || Hit(row, "display_name", p)
  {
    hide Matches;
    var i := |args| + 1;
    var a, b, c, more := ILike("email", i), ILike("username", i), ILike("display_name", i), args + [Text(p)];
    assert [a, b, c][1..] == [b, c] && [b, c][1..] == [c] && [c][1..] == [];
    assert EvalAny([c], more, row) == Or(Eval(c, more, row), No);
    assert EvalAny([b, c], more, row) == Or(Eval(b, more, row), EvalAny([c], more, row));
    assert EvalAny([a, b, c], more, row) == Or(Eval(a, more, row), EvalAny([b, c], more, row));
    assert Arg(more, i) == Text(p);
  }

  // ----- ListAuditEvents -----

  /** Absent ids and zero times are None. */
  datatype AuditFilter = AuditFilter(eventType: string, actor: Option<nat>, target: Option<nat>,
                                     since: Option<int>, until: Option<int>, limit: int, offset: int)

  predicate WantedEvent(f: AuditFilter, row: Row) {
    && (f.eventType != "" ==> Col(row, "event_type") == Text(f.eventType))
    && (f.actor.Some? ==> Col(row, "actor_id") == Uuid(f.actor.value))
    && (f.target.Some? ==> Col(row, "target_id") == Uuid(f.target.value))
    && (f.since.Some? ==> Col(row, "created_at").Moment? && Col(row, "created_at").at >= f.since.value)
    && (f.until.Some? ==> Col(row, "created_at").Moment? && Col(row, "created_at").at <= f.until.value)
  }

  function WantsEvent(f: AuditFilter): Row -> bool { row => WantedEvent(f, row) }

  /** What the comparison `c` of a column with `v` asks of the column's value. */
  predicate Fits(c: Cond, value: Value, v: Value) {
    match c
    case AtLeast(_, _) => value.Moment? && v.Moment? && value.at >= v.at
    case AtMost(_, _) => value.Moment? && v.Moment? && value.at <= v.at
    case _ => value == v
  }

  /** Pushing the comparison of one column with `v` takes the filter from `g` to `next`. */
  lemma EventClause(g: AuditFilter, next: AuditFilter, args: seq<Value>, c: Cond, col: string, v: Value)
    requires v != Null && c in [Eq(col, |args| + 1), AtLeast(col, |args| + 1), AtMost(col, |args| + 1)]
    requires !c.Eq? ==> v.Moment?
    requires forall row: Row :: WantedEvent(next, row) <==> WantedEvent(g, row) && Fits(c, Col(row, col), v)
    ensures forall row: Row :: WantsEvent(next)(row) <==> WantsEvent(g)(row) && Eval(c, args + [v], row) == Yes
  {
    hide Eval, Col, WantedEvent;
    forall row: Row
      ensures WantsEvent(next)(row) <==> WantsEvent(g)(row) && Eval(c, args + [v], row) == Yes
    {
      Clause(args, col, v, row);
      assert WantsEvent(next)(row) <==> WantedEvent(next, row);
    }
  }

  /** The first half of the builder: what happened, by whom and to whom. */
  method WhoAndWhat(f: AuditFilter) returns (where: seq<Cond>, args: seq<Value>)
    ensures Means(where, args, WantsEvent(f.(since := None, until := None)))
  {
    where, args := [True], [];
    // the filters that the conditions built so far stand for
    ghost var g3 := f.(since := None, until := None);
    ghost var g2 := g3.(target := None);
    ghost var g1 := g2.(actor := None);
    ghost var g0 := g1.(eventType := "");
    assert Means(where, args, WantsEvent(g0));
    hide Means, Eval, Col, Selected, WantsEvent, AllBound;
    if f.eventType != "" {
      EventClause(g0, g1, args, Eq("event_type", |args| + 1), "event_type", Text(f.eventType));
      where, args := Push(where, args, Text(f.eventType), Eq("event_type", |args| + 1), WantsEvent(g0), WantsEvent(g1));
    } else {
      assert g0 == g1;
    }
    if f.actor.Some? {
      EventClause(g1, g2, args, Eq("actor_id", |args| + 1), "actor_id", Uuid(f.actor.value));
      where, args := Push(where, args, Uuid(f.actor.value), Eq("actor_id", |args| + 1), WantsEvent(g1), WantsEvent(g2));
    } else {
      assert g1 == g2;
    }
    if f.target.Some? {
      EventClause(g2, g3, args, Eq("target_id", |args| + 1), "target_id", Uuid(f.target.value));
      where, args := Push(where, args, Uuid(f.target.value), Eq("target_id", |args| + 1), WantsEvent(g2),
                          WantsEvent(g3));
    } else {
      assert g2 == g3;
    }
  }

  method BuildListAuditEvents(f: AuditFilter) returns (where: seq<Cond>, args: seq<Value>, limitAt: nat, offsetAt: nat)
    ensures Means(where, args, WantsEvent(f))
    ensures limitAt == |args| - 1 >= 1 && offsetAt == |args|
    ensures Arg(args, limitAt) == Number(if 1 <= f.limit <= 500 then f.limit else 100) &&
            Arg(args, offsetAt) == Number(if f.offset < 0 then 0 else f.offset)
  {
    hide Means, Eval, Col, Selected, WantsEvent, AllBound;
    where, args := WhoAndWhat(f);
    ghost var g3 := f.(since := None, until := None);
    ghost var g4 := f.(until := None);
    if f.since.Some? {
      EventClause(g3, g4, args, AtLeast("created_at", |args| + 1), "created_at", Moment(f.since.value));
      where, args := Push(where, args, Moment(f.since.value), AtLeast("created_at", |args| + 1), WantsEvent(g3),
                          WantsEvent(g4));
    } else {
      assert g3 == g4;
    }
    if f.until.Some? {
      EventClause(g4, f, args, AtMost("created_at", |args| + 1), "created_at", Moment(f.until.value));
      where, args := Push(where, args, Moment(f.until.value), AtMost("created_at", |args| + 1), WantsEvent(g4),
                          WantsEvent(f));
    } else {
      assert g4 == f;
    }
    limitAt, offsetAt := |args| + 1, |args| + 2;
    ghost var before := args;
    args := args + [Number(PageSize(f.limit, 500, 100)), Number(if f.offset < 0 then 0 else f.offset)];
    assert args == before + args[|before|..];
    MoreArgs(where, before, args[|before|..], WantsEvent(f));
  }

  // ----- running a page query -----

  function Filter(rows: seq<Row>, where: seq<Cond>, args: seq<Value>): seq<Row>
    decreases |rows|
  {
    if rows == [] then []
    else if Selected(where, args, rows[0]) then [rows[0]] + Filter(rows[1..], where, args)
    else Filter(rows[1..], where, args)
  }

  function Wanted(rows: seq<Row>, spec: Row -> bool): seq<Row>
    decreases |rows|
  {
    if rows == [] then [] else if spec(rows[0]) then [rows[0]] + Wanted(rows[1..], spec) else Wanted(rows[1..], spec)
  }

  lemma {:induction false} FilterIsWanted(rows: seq<Row>, where: seq<Cond>, args: seq<Value>, spec: Row -> bool)
    requires Means(where, args, spec)
    ensures Filter(rows, where, args) == Wanted(rows, spec)
    decreases |rows|
  {
    if rows != [] { FilterIsWanted(rows[1..], where, args, spec); }
  }

  function Slice(rows: seq<Row>, limit: nat, offset: nat): seq<Row> {
    var from := if offset < |rows| then offset else |rows|;
    var to := if from + limit < |rows| then from + limit else |rows|;
    rows[from..to]
  }

  /** `rows` is the table in the order of created_at DESC.  The total comes with each row of the page, from
      count(*) OVER (), so an empty page leaves it at zero. */
  method ListUsers(rows: seq<Row>, f: UserFilter) returns (users: seq<Row>, total: int)
    ensures var wanted := Wanted(rows, WantsUser(f));
            && users ==
                 Slice(wanted, if 1 <= f.limit <= 200 then f.limit else 50, if f.offset < 0 then 0 else f.offset)
            && total == if users == [] then 0 else |wanted|
  {
    var where, args, limitAt, offsetAt := BuildListUsers(f);
    FilterIsWanted(rows, where, args, WantsUser(f));
    var matching := Filter(rows, where, args);
    var page := Slice(matching, Arg(args, limitAt).n, Arg(args, offsetAt).n);
    users, total := [], 0;
    for i := 0 to |page|
      invariant users == page[..i]
      invariant total == if i == 0 then 0 else |matching|
    {
      users, total := users + [page[i]], |matching|;
    }
  }

  method ListAuditEvents(rows: seq<Row>, f: AuditFilter) returns (events: seq<Row>, total: int)
    ensures var wanted := Wanted(rows, WantsEvent(f));
            && events ==
                 Slice(wanted, if 1 <= f.limit <= 500 then f.limit else 100, if f.offset < 0 then 0 else f.offset)
            && total == if events == [] then 0 else |wanted|
  {
    var where, args, limitAt, offsetAt := BuildListAuditEvents(f);
    FilterIsWanted(rows, where, args, WantsEvent(f));
    var matching := Filter(rows, where, args);
    var page := Slice(matching, Arg(args, limitAt).n, Arg(args, offsetAt).n);
    events, total := [], 0;
    for i := 0 to |page|
      invariant events == page[..i]
      invariant total == if i == 0 then 0 else |matching|
    {
      events, total := events + [page[i]], |matching|;
    }
  }

  /** The reported total is the number of wanted rows exactly when there are none or the page is not past the end. */
  lemma TotalIsCountIff(wanted: seq<Row>, size: nat, offset: nat)
    requires size > 0
    ensures var page := Slice(wanted, size, offset);
            (if page == [] then 0 else |wanted|) == |wanted| <==> wanted == [] || offset < |wanted|
  {}

  // ----- searching -----

  predicate At(text: string, i: nat, s: string) { i + |s| <= |text| && text[i..i + |s|] == s }

  ghost predicate Contains(text: string, s: string) { exists i: nat :: At(text, i, s) }

  predicate Plain(s: string) { '%' !in s && '_' !in s && '\\' !in s }

  lemma {:induction false} PlainPrefix(s: string, text: string)
    requires Plain(s)
    ensures Patterns.Like(s + "%", text) <==> |s| <= |text| && text[..|s|] == s
    decreases |s|
  {
    if s == "" {
      Patterns.PercentSkips("", text);
      assert s + "%" == ['%'] + "";
      assert text[|text|..] == "";
    } else {
      assert (s + "%")[1..] == s[1..] + "%" && (s + "%")[0] == s[0];
      if text != "" {
        PlainPrefix(s[1..], text[1..]);
        if |s| <= |text| { assert text[..|s|] == [text[0]] + text[1..][..|s| - 1] && s == [s[0]] + s[1..]; }
      }
    }
  }

  /** A search without LIKE's own characters finds exactly the texts that contain it, letter case aside. */
  lemma PlainSearch(s: string, text: string)
    requires Plain(s)
    ensures Matches("%" + s + "%", text) <==> Contains(Lower(text), Lower(s))
  {
    hide Lower, Patterns.Like;
    var ls, lt := Lower(s), Lower(text);
    LowerPattern(s);
    Patterns.PercentSkips(ls + "%", lt);
    forall k: nat | k <= |lt|
      ensures Patterns.Like(ls + "%", lt[k..]) <==> At(lt, k, ls)
    {
      PlainPrefix(ls, lt[k..]);
      if k + |ls| <= |lt| { assert lt[k..][..|ls|] == lt[k..k + |ls|]; }
    }
  }

  lemma LowerPattern(s: string)
    ensures Lower("%" + s + "%") == ['%'] + (Lower(s) + "%")
    ensures Plain(Lower(s)) <==> Plain(s)
  {
    var ls := Lower(s);
    assert forall i :: 0 <= i < |s| ==> s[i] in s && ls[i] in ls && ls[i] == LowerChar(s[i]);
    assert Lower("%" + s + "%") == ['%'] + (ls + "%");
  }

  /** A text that the pattern `l` followed by '%' accepts, no longer than `l`. */
  function Sample(l: string): string
    decreases |l|
  {
    if l == "" then ""
    else if l[0] == '%' then Sample(l[1..])
    else if l[0] == '_' then "x" + Sample(l[1..])
    else if l[0] != '\\' then [l[0]] + Sample(l[1..])
    else if |l| >= 2 then [l[1]] + Sample(l[2..])
    else "%"
  }

  lemma {:induction false} SampleIsAccepted(l: string)
    ensures Patterns.Like(l + "%", Sample(l))
    decreases |l|
  {
    var p, t := l + "%", Sample(l);
    if l == "" {
      assert p[1..] == "";
    } else if l == "\\" {
      assert p[2..] == "" && t[1..] == "";
    } else {
      var n := if l[0] == '\\' then 2 else 1;
      SampleIsAccepted(l[n..]);
      assert p[n..] == l[n..] + "%" && p[0] == l[0] && (n == 2 ==> p[1] == l[1]);
      if l[0] != '%' { assert t[1..] == Sample(l[n..]); }
    }
  }

  /** It differs from a text with one of LIKE's characters, and is in lower case when that is. */
  lemma {:induction false} SampleDiffers(l: string)
    ensures |Sample(l)| <= |l| && (Sample(l) == l <==> Plain(l))
    ensures forall c :: c in Sample(l) ==> c in l || c == 'x' || c == '%'
    decreases |l|
  {
    if l != "" && l != "\\" {
      var n, t := if l[0] == '\\' then 2 else 1, Sample(l);
      SampleDiffers(l[n..]);
      assert l == l[..n] + l[n..];
      if l[0] != '%' && n == 1 {
        assert t == [t[0]] + Sample(l[1..]) && l == [l[0]] + l[1..];
        assert t == l <==> t[0] == l[0] && t[1..] == l[1..];
      }
    }
  }

  lemma LowerAgain(l: string, t: string)
    requires forall c :: c in t ==> c in Lower(l) || c == 'x' || c == '%'
    ensures Lower(t) == t
  {
    forall i | 0 <= i < |t| ensures LowerChar(t[i]) == t[i] { assert t[i] in t; }
  }

  /** Main result on searching: it means containment, letter case aside and for every text, exactly when the search
      has none of LIKE's own characters. */
  lemma SearchMeansContains(s: string)
    ensures (forall text: string :: Matches("%" + s + "%", text) <==> Contains(Lower(text), Lower(s))) <==> Plain(s)
  {
    if Plain(s) {
      forall text: string ensures Matches("%" + s + "%", text) <==> Contains(Lower(text), Lower(s)) {
        PlainSearch(s, text);
      }
    } else {
      var text := FalseHit(s);
      assert Matches("%" + s + "%", text) && !Contains(Lower(text), Lower(s));
    }
  }

  lemma FalseHit(s: string) returns (text: string)
    requires !Plain(s)
    ensures Matches("%" + s + "%", text) && !Contains(Lower(text), Lower(s))
  {
    var l := Lower(s);
    text := Sample(l);
    LowerPattern(s);
    SampleIsAccepted(l);
    SampleDiffers(l);
    LowerAgain(s, text);
    hide Lower, Patterns.Like, Sample;
    assert text[0..] == text;
    Patterns.PercentSkips(l + "%", text);
    if i: nat :| At(text, i, l) { WholeText(text, i, l); }
  }

  lemma WholeText(text: string, i: nat, l: string)
    requires |text| <= |l| && At(text, i, l)
    ensures text == l
  {
    assert text == text[i..i + |l|];
  }

  // ----- updates -----

  /** One editable field of a patch: None leaves the column alone. */
  datatype Field = Field(col: string, value: Option<Value>)
  datatype Set = Set(col: string, ph: nat)
  type Table = map<Value, Row>

  function Given(fields: seq<Field>): seq<Field>
    decreases |fields|
  {
    if fields == [] then []
    else
      var n := |fields| - 1;
      if fields[n].value.Some? then Given(fields[..n]) + [fields[n]] else Given(fields[..n])
  }

  /** The SET list and the arguments are the given fields, in step. */
  ghost predicate Assigns(sets: seq<Set>, args: seq<Value>, given: seq<Field>) {
    && |sets| == |given| <= |args|
    && forall i :: 0 <= i < |given| ==> sets[i] == Set(given[i].col, i + 1) && given[i].value == Some(args[i])
  }

  function Assign(row: Row, sets: seq<Set>, args: seq<Value>): Row
    decreases |sets|
  {
    if sets == [] then row
    else
      var s := sets[|sets| - 1];
      Assign(row, sets[..|sets| - 1], args)[s.col := Arg(args, s.ph)]
  }

  predicate Live(table: Table, id: Value) { id in table && Col(table[id], "deleted_at") == Null }

  /** UPDATE .. SET .. WHERE id = $n AND deleted_at IS NULL RETURNING .. */
  function Update(table: Table, sets: seq<Set>, args: seq<Value>, idAt: nat): (Table, Option<Row>) {
    var id := Arg(args, idAt);
    if id != Null && Live(table, id) then
      var row := Assign(table[id], sets, args);
      (table[id := row], Some(row))
    else (table, None)
  }

  predicate DistinctCols(fields: seq<Field>) { forall i, j :: 0 <= i < j < |fields| ==> fields[i].col != fields[j].col }

  predicate Touches(fields: seq<Field>, col: string) {
    exists i :: 0 <= i < |fields| && fields[i].col == col && fields[i].value.Some?
  }

  /** What a patch asks of a row: given fields take their value, everything else stays. */
  ghost predicate Patched(was: Row, row: Row, fields: seq<Field>) {
    && (forall i :: 0 <= i < |fields| && fields[i].value.Some? ==>
        fields[i].col in row && row[fields[i].col] == fields[i].value.value)
    && (forall col :: !Touches(fields, col) ==> (col in row <==> col in was) && (col in row ==> row[col] == was[col]))
  }

  lemma {:induction false} GivenAre(fields: seq<Field>)
    ensures forall f :: f in Given(fields) <==> f in fields && f.value.Some?
    ensures forall col :: Touches(Given(fields), col) <==> Touches(fields, col)
    ensures DistinctCols(fields) ==> DistinctCols(Given(fields))
    decreases |fields|
  {
    if fields != [] {
      var n := |fields| - 1;
      GivenAre(fields[..n]);
      assert fields == fields[..n] + [fields[n]];
      forall col
        ensures Touches(Given(fields), col) <==> Touches(fields, col)
      {
        TouchesSnoc(fields[..n], fields[n], col);
        if fields[n].value.Some? { TouchesSnoc(Given(fields[..n]), fields[n], col); }
      }
      if DistinctCols(fields) {
        forall f | f in Given(fields[..n]) ensures f.col != fields[n].col { assert f in fields[..n]; }
      }
    }
  }

  lemma TouchesSnoc(fields: seq<Field>, f: Field, col: string)
    ensures Touches(fields + [f], col) <==> Touches(fields, col) || (f.col == col && f.value.Some?)
  {
    var fs := fields + [f];
    if Touches(fields, col) {
      var i :| 0 <= i < |fields| && fields[i].col == col && fields[i].value.Some?;
      assert fs[i] == fields[i];
    }
    assert fs[|fields|] == f;
  }

  /** Running a SET list that is in step with its arguments patches the row, later arguments notwithstanding. */
  lemma {:induction false} AssignPatches(row: Row, sets: seq<Set>, args: seq<Value>, given: seq<Field>)
    requires Assigns(sets, args, given) && DistinctCols(given)
    ensures Patched(row, Assign(row, sets, args), given)
    decreases |sets|
  {
    if sets != [] {
      var n := |sets| - 1;
      AssignPatches(row, sets[..n], args, given[..n]);
      assert given == given[..n] + [given[n]];
      forall col
        ensures Touches(given, col) <==> Touches(given[..n], col) || (given[n].col == col && given[n].value.Some?)
      {
        TouchesSnoc(given[..n], given[n], col);
      }
      forall i | 0 <= i < n ensures given[i].col != given[n].col && given[..n][i] == given[i] {}
    }
  }

  /** What every update promises: exactly the one live row changes, as the patch says, and is returned; with nothing
      to change the row is only read. */
  ghost predicate Updates(table: Table, id: Value, fields: seq<Field>, table': Table, r: Option<Row>) {
    if !Live(table, id) then table' == table && r == None
    else
      && table'.Keys == table.Keys
      && (forall k :: k in table && k != id ==> table'[k] == table[k])
      && Patched(table[id], table'[id], fields) && r == Some(table'[id])
  }

  class Patch {
    var sets: seq<Set>
    var args: seq<Value>

    constructor ()
      ensures sets == [] && args == []
    {
      sets, args := [], [];
    }

    method Add(col: string, v: Value)
      modifies this
      ensures args == old(args) + [v] && sets == old(sets) + [Set(col, |args|)]
    {
      args := args + [v];
      sets := sets + [Set(col, |args|)];
    }

    /** if p.X != nil { add(col, *p.X) } */
    method AddGiven(col: string, v: Option<Value>, ghost before: seq<Field>)
      requires Assigns(sets, args, Given(before)) && |args| == |sets|
      modifies this
      ensures Assigns(sets, args, Given(before + [Field(col, v)])) && |args| == |sets|
    {
      assert (before + [Field(col, v)])[..|before|] == before;
      if v.Some? { Add(col, v.value); }
    }

    method Run(table: Table, id: Value, ghost fields: seq<Field>) returns (table': Table, r: Option<Row>)
      requires Assigns(sets, args, Given(fields)) && |args| == |sets| && DistinctCols(fields) && id != Null
      modifies this
      ensures Updates(table, id, fields, table', r)
    {
      GivenAre(fields);
      if |sets| == 0 {
        NothingGiven(table, id, fields);
        return table, if Live(table, id) then Some(table[id]) else None;
      }
      args := args + [id];
      assert Assigns(sets, args, Given(fields));
      assert Arg(args, |args|) == id;
      var out := Update(table, sets, args, |args|);
      table', r := out.0, out.1;
      if Live(table, id) {
        AssignPatches(table[id], sets, args, Given(fields));
        PatchedByGiven(table[id], Assign(table[id], sets, args), fields);
      }
    }
  }

  lemma PatchedByGiven(was: Row, row: Row, fields: seq<Field>)
    requires Patched(was, row, Given(fields))
    ensures Patched(was, row, fields)
  {
    GivenAre(fields);
    forall i | 0 <= i < |fields| && fields[i].value.Some?
      ensures fields[i].col in row && row[fields[i].col] == fields[i].value.value
    {
      assert fields[i] in Given(fields);
    }
  }

  lemma NothingGiven(table: Table, id: Value, fields: seq<Field>)
    requires Given(fields) == []
    ensures Live(table, id) ==> Patched(table[id], table[id], fields)
  {
    GivenAre(fields);
    forall i | 0 <= i < |fields|
      ensures fields[i].value.None?
    {
      assert fields[i] in fields && fields[i] !in Given(fields);
    }
  }

  // ----- the three patches -----

  function AsText(v: Option<string>): Option<Value> { if v.Some? then Some(Text(v.value)) else None }
  function AsFlag(v: Option<bool>): Option<Value> { if v.Some? then Some(Flag(v.value)) else None }
  function AsTexts(v: Option<seq<string>>): Option<Value> { if v.Some? then Some(Texts(v.value)) else None }

  /** An empty text is stored as NULL. */
  function AsNullable(v: Option<string>): Option<Value> {
    if v.Some? then Some(if v.value == "" then Null else Text(v.value)) else None
  }

  /** `verifiedAt` is Some(None) for the zero time, which clears the column. */
  datatype UserPatch = UserPatch(id: nat, email: Option<string>, username: Option<string>, displayName: Option<string>,
                                 status: Option<string>, isAdmin: Option<bool>, verifiedAt: Option<Option<int>>)

  function AsMoment(v: Option<Option<int>>): Option<Value> {
    if v.Some? then Some(if v.value.Some? then Moment(v.value.value) else Null) else None
  }

  function UserFields(p: UserPatch): seq<Field> {
    [Field("email", AsText(p.email)), Field("username", AsText(p.username)),
     Field("display_name", AsNullable(p.displayName)), Field("status", AsText(p.status)),
     Field("is_admin", AsFlag(p.isAdmin)), Field("email_verified_at", AsMoment(p.verifiedAt))]
  }

  method UpdateUser(table: Table, p: UserPatch) returns (table': Table, r: Option<Row>)
    ensures Updates(table, Uuid(p.id), UserFields(p), table', r)
  {
    hide Assigns, Given, Updates, Patched;
    ghost var fs := UserFields(p);
    var q := NewPatch();
    q.AddGiven("email", AsText(p.email), fs[..0]);
    assert fs[..0] + [fs[0]] == fs[..1];
    q.AddGiven("username", AsText(p.username), fs[..1]);
    assert fs[..1] + [fs[1]] == fs[..2];
    q.AddGiven("display_name", AsNullable(p.displayName), fs[..2]);
    assert fs[..2] + [fs[2]] == fs[..3];
    q.AddGiven("status", AsText(p.status), fs[..3]);
    assert fs[..3] + [fs[3]] == fs[..4];
    q.AddGiven("is_admin", AsFlag(p.isAdmin), fs[..4]);
    assert fs[..4] + [fs[4]] == fs[..5];
    q.AddGiven("email_verified_at", AsMoment(p.verifiedAt), fs[..5]);
    assert fs[..5] + [fs[5]] == fs;
    table', r := q.Run(table, Uuid(p.id), fs);
  }

  method NewPatch() returns (q: Patch)
    ensures fresh(q) && Assigns(q.sets, q.args, Given([])) && |q.args| == |q.sets|
  {
    q := new Patch();
  }

  datatype ClientPatch = ClientPatch(id: string, name: Option<string>, redirects: Option<seq<string>>,
                                     scopes: Option<seq<string>>, grants: Option<seq<string>>,
                                     requirePkce: Option<bool>, requireConsent: Option<bool>,
                                     enabled: Option<bool>)

  function ClientFields(p: ClientPatch): seq<Field> {
    [Field("name", AsText(p.name)), Field("redirect_uris", AsTexts(p.redirects)),
     Field("allowed_scopes", AsTexts(p.scopes)),
     Field("allowed_grant_types", AsTexts(p.grants)), Field("require_pkce", AsFlag(p.requirePkce)),
     Field("require_consent", AsFlag(p.requireConsent)), Field("enabled", AsFlag(p.enabled))]
  }

  method UpdateOIDCClient(table: Table, p: ClientPatch) returns (table': Table, r: Option<Row>)
    ensures Updates(table, Text(p.id), ClientFields(p), table', r)
  {
    hide Assigns, Given, Updates, Patched;
    ghost var fs := ClientFields(p);
    var q := NewPatch();
    q.AddGiven("name", AsText(p.name), fs[..0]);
    assert fs[..0] + [fs[0]] == fs[..1];
    q.AddGiven("redirect_uris", AsTexts(p.redirects), fs[..1]);
    assert fs[..1] + [fs[1]] == fs[..2];
    q.AddGiven("allowed_scopes", AsTexts(p.scopes), fs[..2]);
    assert fs[..2] + [fs[2]] == fs[..3];
    q.AddGiven("allowed_grant_types", AsTexts(p.grants), fs[..3]);
    assert fs[..3] + [fs[3]] == fs[..4];
    q.AddGiven("require_pkce", AsFlag(p.requirePkce), fs[..4]);
    assert fs[..4] + [fs[4]] == fs[..5];
    q.AddGiven("require_consent", AsFlag(p.requireConsent), fs[..5]);
    assert fs[..5] + [fs[5]] == fs[..6];
    q.AddGiven("enabled", AsFlag(p.enabled), fs[..6]);
    assert fs[..6] + [fs[6]] == fs;
    table', r := q.Run(table, Text(p.id), fs);
  }

  datatype ServicePatch = ServicePatch(id: nat, name: Option<string>, urlPattern: Option<string>,
                                       matchPattern: Option<string>, description: Option<string>,
                                       released: Option<seq<string>>, enabled: Option<bool>)

  function ServiceFields(p: ServicePatch): seq<Field> {
    [Field("name", AsText(p.name)), Field("service_url_pattern", AsText(p.urlPattern)),
     Field("match_pattern", AsText(p.matchPattern)),
     Field("description", AsNullable(p.description)), Field("released_attributes", AsTexts(p.released)),
     Field("enabled", AsFlag(p.enabled))]
  }

  method UpdateCASService(table: Table, p: ServicePatch) returns (table': Table, r: Option<Row>)
    ensures Updates(table, Uuid(p.id), ServiceFields(p), table', r)
  {
    hide Assigns, Given, Updates, Patched;
    ghost var fs := ServiceFields(p);
    var q := NewPatch();
    q.AddGiven("name", AsText(p.name), fs[..0]);
    assert fs[..0] + [fs[0]] == fs[..1];
    q.AddGiven("service_url_pattern", AsText(p.urlPattern), fs[..1]);
    assert fs[..1] + [fs[1]] == fs[..2];
    q.AddGiven("match_pattern", AsText(p.matchPattern), fs[..2]);
    assert fs[..2] + [fs[2]] == fs[..3];
    q.AddGiven("description", AsNullable(p.description), fs[..3]);
    assert fs[..3] + [fs[3]] == fs[..4];
    q.AddGiven("released_attributes", AsTexts(p.released), fs[..4]);
    assert fs[..4] + [fs[4]] == fs[..5];
    q.AddGiven("enabled", AsFlag(p.enabled), fs[..5]);
    assert fs[..5] + [fs[5]] == fs;
    table', r := q.Run(table, Uuid(p.id), fs);
  }

  // ----- the patches, column by column -----

  /** Column `col` of the row takes `value`, or stays as it was. */
  predicate Takes(was: Row, row: Row, col: string, value: Option<Value>) {
    if value.Some? then col in row && row[col] == value.value
    else (col in row <==> col in was) && (col in row ==> row[col] == was[col])
  }

  lemma Columns(table: Table, id: Value, fields: seq<Field>, table': Table, r: Option<Row>)
    requires Updates(table, id, fields, table', r) && Live(table, id) && DistinctCols(fields)
    ensures r == Some(table'[id])
    ensures forall i :: 0 <= i < |fields| ==> Takes(table[id], table'[id], fields[i].col, fields[i].value)
    ensures forall col :: !Touches(fields, col) ==> Takes(table[id], table'[id], col, None)
  {
    forall i | 0 <= i < |fields| ensures Takes(table[id], table'[id], fields[i].col, fields[i].value) {
      assert fields[i].value.None? ==> !Touches(fields, fields[i].col);
    }
  }

  /** Each given text is written as it is, but an empty display name and the zero time as NULL; a column that is not
      given, and any other, stays. */
  lemma UserColumns(table: Table, p: UserPatch, table': Table, r: Option<Row>)
    requires Updates(table, Uuid(p.id), UserFields(p), table', r) && Live(table, Uuid(p.id))
    ensures var was, row := table[Uuid(p.id)], table'[Uuid(p.id)];
            && r == Some(row)
            && Takes(was, row, "email", if p.email.Some? then Some(Text(p.email.value)) else None)
            && Takes(was, row, "username", if p.username.Some? then Some(Text(p.username.value)) else None)
            && (p.displayName.None? ==> Takes(was, row, "display_name", None))
            && (p.displayName == Some("") ==> Takes(was, row, "display_name", Some(Null)))
            && (p.displayName.Some? && p.displayName.value != "" ==>
                  Takes(was, row, "display_name", Some(Text(p.displayName.value))))
            && Takes(was, row, "status", if p.status.Some? then Some(Text(p.status.value)) else None)
            && Takes(was, row, "is_admin", if p.isAdmin.Some? then Some(Flag(p.isAdmin.value)) else None)
            && (p.verifiedAt.None? ==> Takes(was, row, "email_verified_at", None))
            && (p.verifiedAt == Some(None) ==> Takes(was, row, "email_verified_at", Some(Null)))
            && (p.verifiedAt.Some? && p.verifiedAt.value.Some? ==>
                  Takes(was, row, "email_verified_at", Some(Moment(p.verifiedAt.value.value))))
            && var editable := ["email", "username", "display_name", "status", "is_admin", "email_verified_at"];
               forall col :: col !in editable ==> Takes(was, row, col, None)
  {
    var was, row, fields := table[Uuid(p.id)], table'[Uuid(p.id)], UserFields(p);
    Columns(table, Uuid(p.id), fields, table', r);
    hide Updates, Takes, Live;
    assert fields[0].col == "email" && fields[1].col == "username" && fields[2].col == "display_name";
    assert fields[3].col == "status" && fields[4].col == "is_admin" && fields[5].col == "email_verified_at";
    forall col | col !in ["email", "username", "display_name", "status", "is_admin", "email_verified_at"]
      ensures Takes(was, row, col, None)
    {
      assert !Touches(fields, col);
    }
  }

  lemma ClientColumns(table: Table, p: ClientPatch, table': Table, r: Option<Row>)
    requires Updates(table, Text(p.id), ClientFields(p), table', r) && Live(table, Text(p.id))
    ensures var was, row := table[Text(p.id)], table'[Text(p.id)];
            && r == Some(row)
            && Takes(was, row, "name", if p.name.Some? then Some(Text(p.name.value)) else None)
            && Takes(was, row, "redirect_uris", if p.redirects.Some? then Some(Texts(p.redirects.value)) else None)
            && Takes(was, row, "allowed_scopes", if p.scopes.Some? then Some(Texts(p.scopes.value)) else None)
            && Takes(was, row, "allowed_grant_types", if p.grants.Some? then Some(Texts(p.grants.value)) else None)
            && Takes(was, row, "require_pkce", if p.requirePkce.Some? then Some(Flag(p.requirePkce.value)) else None)
            && Takes(was, row, "require_consent",
                     if p.requireConsent.Some? then Some(Flag(p.requireConsent.value)) else None)
            && Takes(was, row, "enabled", if p.enabled.Some? then Some(Flag(p.enabled.value)) else None)
            && var editable := ["name", "redirect_uris", "allowed_scopes", "allowed_grant_types", "require_pkce",
                              "require_consent", "enabled"];
               forall col :: col !in editable ==> Takes(was, row, col, None)
  {
    var was, row, fields := table[Text(p.id)], table'[Text(p.id)], ClientFields(p);
    Columns(table, Text(p.id), fields, table', r);
    hide Updates, Takes, Live;
    assert fields[0].col == "name" && fields[1].col == "redirect_uris" && fields[2].col == "allowed_scopes";
    assert fields[3].col == "allowed_grant_types" && fields[4].col == "require_pkce";
    assert fields[5].col == "require_consent" && fields[6].col == "enabled";
    forall col | col !in ["name", "redirect_uris", "allowed_scopes", "allowed_grant_types", "require_pkce",
                          "require_consent", "enabled"]
      ensures Takes(was, row, col, None)
    {
      assert !Touches(fields, col);
    }
  }

  lemma ServiceColumns(table: Table, p: ServicePatch, table': Table, r: Option<Row>)
    requires Updates(table, Uuid(p.id), ServiceFields(p), table', r) && Live(table, Uuid(p.id))
    ensures var was, row := table[Uuid(p.id)], table'[Uuid(p.id)];
            && r == Some(row)
            && Takes(was, row, "name", if p.name.Some? then Some(Text(p.name.value)) else None)
            && Takes(was, row, "service_url_pattern",
                     if p.urlPattern.Some? then Some(Text(p.urlPattern.value)) else None)
            && Takes(was, row, "match_pattern",
                     if p.matchPattern.Some? then Some(Text(p.matchPattern.value)) else None)
            && (p.description.None? ==> Takes(was, row, "description", None))
            && (p.description == Some("") ==> Takes(was, row, "description", Some(Null)))
            && (p.description.Some? && p.description.value != "" ==>
                  Takes(was, row, "description", Some(Text(p.description.value))))
            && Takes(was, row, "released_attributes", if p.released.Some? then Some(Texts(p.released.value)) else None)
            && Takes(was, row, "enabled", if p.enabled.Some? then Some(Flag(p.enabled.value)) else None)
            && var editable := ["name", "service_url_pattern", "match_pattern", "description", "released_attributes",
                              "enabled"];
               forall col :: col !in editable ==> Takes(was, row, col, None)
  {
    var was, row, fields := table[Uuid(p.id)], table'[Uuid(p.id)], ServiceFields(p);
    Columns(table, Uuid(p.id), fields, table', r);
    hide Updates, Takes, Live;
    assert fields[0].col == "name" && fields[1].col == "service_url_pattern" && fields[2].col == "match_pattern";
    assert fields[3].col == "description" && fields[4].col == "released_attributes" && fields[5].col == "enabled";
    forall col | col !in ["name", "service_url_pattern", "match_pattern", "description", "released_attributes",
                          "enabled"]
      ensures Takes(was, row, col, None)
    {
      assert !Touches(fields, col);
    }
  }
}
