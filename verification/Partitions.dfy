/** Monthly partitions of the audit log: EnsureAuditLogPartitions of internal/store/postgres/audit_partitions.go
    and the pruning command cmd/audit-prune/main.go.  Instants are days since an arbitrary origin plus a
    fraction, so only day numbers matter; a month is its index 12 * year + month - 1. */
module Partitions {
  import opened Common

  // ----- the calendar -----

  predicate Leap(y: int) { y % 4 == 0 && (y % 100 != 0 || y % 400 == 0) }

  function DaysIn(y: int, month: int): int
    requires 1 <= month <= 12
  {
    if month == 2 then (if Leap(y) then 29 else 28)
    else if month in {4, 6, 9, 11} then 30 else 31
  }

  /** Days before 1 January of year y, by the 4, 100 and 400 year cycles. */
  function YearStart(y: int): int { 365 * y + (y - 1) / 4 - (y - 1) / 100 + (y - 1) / 400 }

  function BeforeMonth(y: int, month: int): int
    requires 1 <= month <= 12
  {
    [0, 31, 59, 90, 120, 151, 181, 212, 243, 273, 304, 334][month - 1] + (if month > 2 && Leap(y) then 1 else 0)
  }

  function Year(k: int): int { k / 12 }
  function Month(k: int): int { k % 12 + 1 }

  /** The day number of the first of month k. */
  function Start(k: int): int { YearStart(Year(k)) + BeforeMonth(Year(k), Month(k)) }

  lemma YearLength(y: int)
    ensures YearStart(y + 1) - YearStart(y) == if Leap(y) then 366 else 365
  {
    FloorStep(y, 4);
    FloorStep(y, 100);
    FloorStep(y, 400);
    if y % 400 == 0 { Quotient(y, 100, 4 * (y / 400), 0); }
    if y % 100 == 0 { Quotient(y, 4, 25 * (y / 100), 0); }
  }

  lemma FloorStep(y: int, n: int)
    requires n > 1
    ensures y / n - (y - 1) / n == if y % n == 0 then 1 else 0
  {
    var q, r := y / n, y % n;
    assert y == q * n + r;
    if r == 0 {
      Quotient(y - 1, n, q - 1, n - 1);
    } else {
      Quotient(y - 1, n, q, r - 1);
    }
  }

  lemma BeforeStep(y: int, m: int)
    requires 1 <= m <= 12
    ensures BeforeMonth(y, 1) == 0 && 28 <= DaysIn(y, m) <= 31
    ensures BeforeMonth(y, m) + DaysIn(y, m) == if m < 12 then BeforeMonth(y, m + 1)
                                                else if Leap(y) then 366 else 365
  {}

  /** Consecutive months meet, year ends included, and each is as long as the calendar says. */
  lemma MonthLength(k: int)
    ensures 28 <= Start(k + 1) - Start(k) == DaysIn(Year(k), Month(k)) <= 31
  {
    hide YearStart, BeforeMonth, DaysIn;
    var y, m := Year(k), Month(k);
    YearLength(y);
    BeforeStep(y, m);
    if m == 12 {
      Quotient(k + 1, 12, y + 1, 0);
      BeforeStep(y + 1, 1);
    } else {
      Quotient(k + 1, 12, y, m);
    }
  }

  lemma {:induction false} Later(j: int, k: int)
    requires j <= k
    ensures Start(j) + 28 * (k - j) <= Start(k)
    decreases k - j
  {
    hide Start, Name;
    if j < k {
      Later(j, k - 1);
      MonthLength(k - 1);
    }
  }

  predicate InMonth(day: int, k: int) { Start(k) <= day < Start(k + 1) }

  /** Tiling: a day lies in one of the n months from k on exactly when it lies between their ends. */
  lemma {:induction false} MonthOf(day: int, k: int, n: nat) returns (m: int)
    requires Start(k) <= day < Start(k + n)
    ensures k <= m < k + n && InMonth(day, m)
  {
    hide Start, Name;
    if n > 0 && day < Start(k + n - 1) {
      m := MonthOf(day, k, n - 1);
    } else {
      m := k + n - 1;
    }
  }

  lemma OneMonth(day: int, j: int, k: int)
    requires InMonth(day, j) && InMonth(day, k)
    ensures j == k
  {
    hide Start, Name;
    if j < k { Later(j + 1, k); }
    if k < j { Later(k + 1, j); }
  }

  lemma Tiles(day: int, k: int, n: nat)
    ensures Start(k) <= day < Start(k + n) <==> exists m :: k <= m < k + n && InMonth(day, m)
    ensures forall i, j :: InMonth(day, i) && InMonth(day, j) ==> i == j
  {
    hide Start, Name;
    if Start(k) <= day < Start(k + n) { var m := MonthOf(day, k, n); }
    forall m | k <= m < k + n && InMonth(day, m)
      ensures Start(k) <= day < Start(k + n)
    {
      Later(k, m);
      Later(m + 1, k + n);
    }
    forall i, j | InMonth(day, i) && InMonth(day, j) ensures i == j { OneMonth(day, i, j); }
  }

  // ----- names -----

  function Digit(d: int): char
    requires 0 <= d < 10
  {
    '0' + d as char
  }

  /** %0wd for a number that is not negative: at least w digits. */
  function Padded(n: nat, w: nat): string
    decreases n + w
  {
    if n < 10 && w <= 1 then [Digit(n)]
    else Padded(n / 10, if w > 0 then w - 1 else 0) + [Digit(n % 10)]
  }

  /** %04d: the sign counts towards the width. */
  function YearText(y: int): string { if y >= 0 then Padded(y, 4) else "-" + Padded(-y, 3) }

  const PREFIX: string := "audit_log_"

  function Name(k: int): string { PREFIX + YearText(Year(k)) + "_" + Padded(Month(k), 2) }

  predicate Digits(s: string) { forall i :: 0 <= i < |s| ==> '0' <= s[i] <= '9' }

  function Value(s: string): nat
    requires Digits(s)
    decreases |s|
  {
    if s == "" then 0 else 10 * Value(s[..|s| - 1]) + (s[|s| - 1] - '0') as int
  }

  /** The regular expression ^audit_log_(\d{4})_(\d{2})$, read as a month; 00 and 13 to 99 carry over. */
  function ParseName(s: string): Option<int> {
    if |s| == 17 && s[..10] == PREFIX && Digits(s[10..14]) && s[14] == '_' && Digits(s[15..]) then
      Some(12 * Value(s[10..14]) + Value(s[15..]) - 1)
    else None
  }

  function Pow10(w: nat): nat { if w == 0 then 1 else 10 * Pow10(w - 1) }

  lemma EmptyText()
    ensures Digits("") && Value("") == 0
  {}

  lemma {:induction false} PaddedReads(n: nat, w: nat)
    ensures Digits(Padded(n, w)) && Value(Padded(n, w)) == n
    ensures |Padded(n, w)| >= 1
    decreases n + w
  {
    EmptyText();
    hide Digits, Value;
    if n < 10 && w <= 1 {
      ValueSnoc("", Digit(n));
      assert "" + [Digit(n)] == [Digit(n)];
    } else {
      var w' := if w > 0 then w - 1 else 0;
      PaddedReads(n / 10, w');
      ValueSnoc(Padded(n / 10, w'), Digit(n % 10));
    }
  }

  lemma ValueSnoc(s: string, c: char)
    requires Digits(s) && '0' <= c <= '9'
    ensures Digits(s + [c]) && Value(s + [c]) == 10 * Value(s) + (c - '0') as int
  {
    assert (s + [c])[..|s|] == s;
  }

  lemma {:induction false} PaddedWidth(n: nat, w: nat)
    requires w >= 1
    ensures n < Pow10(w) ==> |Padded(n, w)| == w
    ensures n >= Pow10(w) ==> |Padded(n, w)| > w
    decreases w
  {
    if w > 1 {
      PaddedWidth(n / 10, w - 1);
    } else if n >= 10 {
      PaddedReads(n / 10, 0);
    }
  }

  lemma MonthText(k: int)
    ensures var s := Padded(Month(k), 2); |s| == 2 && Digits(s) && Value(s) == Month(k)
  {
    assert Pow10(2) == 100;
    PaddedReads(Month(k), 2);
    PaddedWidth(Month(k), 2);
  }

  /** The printed name reads back as the same month for the years 0 to 9999, and as no month otherwise. */
  lemma NameRoundTrip(k: int)
    ensures ParseName(Name(k)) == if 0 <= Year(k) <= 9999 then Some(k) else None
  {
    hide Padded, Value;
    var y, m, s := YearText(Year(k)), Padded(Month(k), 2), Name(k);
    MonthText(k);
    assert s[..10] == PREFIX;
    if Year(k) >= 0 {
      assert Pow10(4) == 10000;
      PaddedReads(Year(k), 4);
      PaddedWidth(Year(k), 4);
      if Year(k) <= 9999 { assert s[10..14] == y && s[14] == '_' && s[15..] == m; }
    } else {
      assert s[10] == '-';
      if |s| == 17 { assert s[10..14][0] == '-'; }
    }
  }

  lemma NamesDiffer(j: int, k: int)
    requires Name(j) == Name(k)
    ensures j == k
  {
    MonthText(j);
    MonthText(k);
    var s, y, z := Name(j), YearText(Year(j)), YearText(Year(k));
    assert s[|s| - 2..] == Padded(Month(j), 2) == Padded(Month(k), 2);
    assert s[10..|s| - 3] == y == z;
    YearTextReads(Year(j), Year(k));
  }

  lemma YearTextReads(a: int, b: int)
    requires YearText(a) == YearText(b)
    ensures a == b
  {
    PaddedReads(if a >= 0 then a else -a, if a >= 0 then 4 else 3);
    PaddedReads(if b >= 0 then b else -b, if b >= 0 then 4 else 3);
    if a >= 0 {
      assert '0' <= YearText(a)[0];
    } else {
      assert YearText(a)[0] == '-' && YearText(a)[1..] == Padded(-a, 3);
      if b < 0 { assert YearText(b)[1..] == Padded(-b, 3); }
    }
  }

  // ----- the table -----

  datatype Partition = Partition(from: int, to: int, rows: set<int>)

  /** `strays` is the DEFAULT partition. */
  datatype Log = Log(parts: map<string, Partition>, strays: set<int>)

  predicate Overlaps(p: Partition, from: int, to: int) { p.from < to && from < p.to }

  /** The range meets a partition, or the DEFAULT partition holds a row of it. */
  predicate Blocked(log: Log, from: int, to: int) {
    || (exists n :: n in log.parts && Overlaps(log.parts[n], from, to))
    || (exists d :: d in log.strays && from <= d < to)
  }

  /** CREATE TABLE IF NOT EXISTS name PARTITION OF audit_log: refused when the range meets another
      partition's, or when the DEFAULT partition already holds a row of it. */
  function Create(log: Log, name: string, from: int, to: int): (Log, bool) {
    if name in log.parts then (log, true)
    else if Blocked(log, from, to) then (log, false)
    else (log.(parts := log.parts[name := Partition(from, to, {})]), true)
  }

  function Ensure(log: Log, k: int, n: nat): (Log, bool) {
    if n == 0 then (log, true)
    else
      var (log', ok) := Ensure(log, k, n - 1);
      if !ok then (log', false) else Create(log', Name(k + n - 1), Start(k + n - 1), Start(k + n))
  }

  predicate Doomed(name: string, cutoff: int) { ParseName(name).Some? && ParseName(name).value < cutoff }

  function Prune(log: Log, cutoff: int): Log {
    log.(parts := map name | name in log.parts && !Doomed(name, cutoff) :: log.parts[name])
  }

  /** The listed names to drop, in the order of the list. */
  function ToDrop(names: seq<string>, cutoff: int): seq<string>
    decreases |names|
  {
    if names == [] then []
    else
      var n := |names| - 1;
      if Doomed(names[n], cutoff) then ToDrop(names[..n], cutoff) + [names[n]] else ToDrop(names[..n], cutoff)
  }

  /** One DROP TABLE after another, up to the first that fails. */
  function DropAll(log: Log, list: seq<string>, fails: string -> bool): (Log, bool)
    decreases |list|
  {
    if list == [] then (log, true)
    else if fails(list[0]) then (log, false)
    else DropAll(log.(parts := log.parts - {list[0]}), list[1..], fails)
  }

  function Insert(log: Log, day: int, name: string): Log
    requires name in log.parts
  {
    log.(parts := log.parts[name := log.parts[name].(rows := log.parts[name].rows + {day})])
  }

  class AuditLog {
    var log: Log

    method EnsureAuditLogPartitions(year: int, month: int, months: int) returns (ok: bool)
      requires 1 <= month <= 12
      modifies this
      ensures (log, ok) == Ensure(old(log), 12 * year + month - 1, if months < 0 then 0 else months)
    {
      hide Start, Name;
      var first := 12 * year + month - 1;
      var i := 0;
      while i < months
        invariant 0 <= i <= if months < 0 then 0 else months
        invariant Ensure(old(log), first, i) == (log, true)
        decreases months - i
      {
        var start := first + i;
        var end := start + 1;
        ok := CreatePartition(Name(start), Start(start), Start(end));
        if !ok {
          EnsureStops(old(log), first, i + 1, months);
          return;
        }
        i := i + 1;
      }
      ok := true;
    }

    method CreatePartition(name: string, from: int, to: int) returns (ok: bool)
      modifies this
      ensures (log, ok) == Create(old(log), name, from, to)
    {
      if name in log.parts { return true; }
      if Blocked(log, from, to) { return false; }
      log := log.(parts := log.parts[name := Partition(from, to, {})]);
      ok := true;
    }

    /** `names` is what the catalogue query lists, in its order; `before` is None when it is missing or not YYYY-MM;
        `fails` says which DROP statements fail. */
    method AuditPrune(names: seq<string>, before: Option<int>, dryRun: bool, fails: string -> bool) returns (ok: bool)
      modifies this
      ensures (log, ok) == if before.None? then (old(log), false)
                           else if dryRun then (old(log), true)
                           else DropAll(old(log), ToDrop(names, before.value), fails)
    {
      if before.None? { return false; }
      var cutoff := before.value;
      var toDrop: seq<string> := [];
      for i := 0 to |names|
        invariant toDrop == ToDrop(names[..i], cutoff)
      {
        assert names[..i + 1][..i] == names[..i];
        var m := ParseName(names[i]);
        if m.Some? && m.value < cutoff { toDrop := toDrop + [names[i]]; }
      }
      assert names[..|names|] == names;
      for i := 0 to |toDrop|
        invariant dryRun ==> log == old(log)
        invariant !dryRun ==> DropAll(old(log), toDrop, fails) == DropAll(log, toDrop[i..], fails)
      {
        assert toDrop[i..][0] == toDrop[i] && toDrop[i..][1..] == toDrop[i + 1..];
        if !dryRun {
          if fails(toDrop[i]) { return false; }
          log := log.(parts := log.parts - {toDrop[i]});
        }
      }
      ok := true;
    }
  }

  lemma {:induction false} EnsureStops(log: Log, k: int, i: nat, n: int)
    requires i <= n && !Ensure(log, k, i).1
    ensures Ensure(log, k, n) == Ensure(log, k, i)
    decreases n - i
  {
    hide Start, Name;
    if i < n { EnsureStops(log, k, i, n - 1); }
  }

  // ----- every history of ensure, insert and prune -----

  ghost predicate Monthly(name: string, p: Partition) {
    exists k :: name == Name(k) && p.from == Start(k) && p.to == Start(k + 1)
  }

  ghost predicate PartAt(log: Log, name: string) {
    name in log.parts ==>
      var p := log.parts[name];
      && Monthly(name, p)
      && (forall d :: d in p.rows ==> p.from <= d < p.to)
      && (forall d :: d in log.strays ==> !(p.from <= d < p.to))
  }

  ghost predicate Inv(log: Log) { forall name {:trigger PartAt(log, name)} :: PartAt(log, name) }

  /** A partition named after month k covers month k. */
  lemma NamedRange(log: Log, k: int)
    requires PartAt(log, Name(k)) && Name(k) in log.parts
    ensures log.parts[Name(k)].from == Start(k) && log.parts[Name(k)].to == Start(k + 1)
  {
    hide Start, Name;
    var p := log.parts[Name(k)];
    var j :| Name(k) == Name(j) && p.from == Start(j) && p.to == Start(j + 1);
    NamesDiffer(j, k);
  }

  /** No two partitions share a day. */
  lemma Disjoint(log: Log, a: string, b: string, day: int)
    requires Inv(log) && a in log.parts && b in log.parts
    requires log.parts[a].from <= day < log.parts[a].to && log.parts[b].from <= day < log.parts[b].to
    ensures a == b
  {
    hide Start, Name;
    assert PartAt(log, a) && PartAt(log, b);
    var j :| a == Name(j) && log.parts[a].from == Start(j) && log.parts[a].to == Start(j + 1);
    var k :| b == Name(k) && log.parts[b].from == Start(k) && log.parts[b].to == Start(k + 1);
    OneMonth(day, j, k);
  }

  /** Month k has its partition, from its first day to the next month's. */
  predicate Covers(log: Log, k: int) {
    Name(k) in log.parts && log.parts[Name(k)].from == Start(k) && log.parts[Name(k)].to == Start(k + 1)
  }

  /** A month can be created exactly when no row of it has gone astray. */
  lemma CreateMonth(log: Log, k: int)
    requires Inv(log)
    ensures var (log', ok) := Create(log, Name(k), Start(k), Start(k + 1));
            && Inv(log')
            && (ok <==> forall d :: d in log.strays ==> !InMonth(d, k))
            && (ok ==> Covers(log', k))
            && log'.strays == log.strays
            && (forall name :: name in log.parts ==> name in log'.parts && log'.parts[name] == log.parts[name])
  {
    hide Start, Name;
    MonthLength(k);
    var (log', ok) := Create(log, Name(k), Start(k), Start(k + 1));
    assert PartAt(log, Name(k));
    if Name(k) in log.parts {
      NamedRange(log, k);
    } else {
      forall n | n in log.parts
        ensures !Overlaps(log.parts[n], Start(k), Start(k + 1))
      {
        assert PartAt(log, n);
        NoOverlap(log.parts[n], n, k);
      }
      forall n ensures PartAt(log', n) { assert PartAt(log, n); }
    }
  }

  lemma NoOverlap(p: Partition, name: string, k: int)
    requires Monthly(name, p) && name != Name(k)
    ensures !Overlaps(p, Start(k), Start(k + 1))
  {
    hide Start, Name;
    var j :| name == Name(j) && p.from == Start(j) && p.to == Start(j + 1);
    if j < k { Later(j + 1, k); } else { Later(k + 1, j); }
  }

  /** Main result: ensuring n months succeeds exactly when no row of those months is in the DEFAULT partition;
      then every day of them has its partition.  A missed run is caught up only if nothing strayed meanwhile. */
  lemma {:induction false} EnsureSucceedsIff(log: Log, k: int, n: nat)
    requires Inv(log)
    ensures var (log', ok) := Ensure(log, k, n);
            && Inv(log') && log'.strays == log.strays
            && (ok <==> forall d :: d in log.strays ==> !(Start(k) <= d < Start(k + n)))
            && (forall name :: name in log.parts ==> name in log'.parts && log'.parts[name] == log.parts[name])
            && (ok ==> forall m :: k <= m < k + n ==> Covers(log', m))
    decreases n
  {
    hide Start, Name;
    if n > 0 {
      EnsureSucceedsIff(log, k, n - 1);
      CreateMonth(Ensure(log, k, n - 1).0, k + n - 1);
      if Ensure(log, k, n).1 {
        forall m | k <= m < k + n - 1 ensures Covers(Ensure(log, k, n).0, m) {
          assert Covers(Ensure(log, k, n - 1).0, m);
        }
      }
      Later(k, k + n - 1);
      MonthLength(k + n - 1);
    }
  }

  /** Main result: pruning before a month drops a partition exactly when all of it is before that month and its
      year has four digits; rows from the cutoff on all survive, and so does everything in DEFAULT. */
  lemma PruneIsExact(log: Log, cutoff: int, k: int)
    requires Inv(log) && Name(k) in log.parts
    ensures var log' := Prune(log, cutoff);
            && Inv(log') && log'.strays == log.strays
            && (Name(k) !in log'.parts <==> Start(k + 1) <= Start(cutoff) && 0 <= Year(k) <= 9999)
            && (Name(k) in log'.parts ==> log'.parts[Name(k)] == log.parts[Name(k)])
            && (forall d :: d in log.parts[Name(k)].rows && d >= Start(cutoff) ==> Name(k) in log'.parts)
  {
    hide Start, Name;
    NameRoundTrip(k);
    assert PartAt(log, Name(k));
    NamedRange(log, k);
    if k < cutoff { Later(k + 1, cutoff); } else { Later(cutoff, k); MonthLength(k); }
    PruneKeeps(log, cutoff);
  }

  lemma {:induction false} ToDropAre(names: seq<string>, cutoff: int)
    ensures forall name :: name in ToDrop(names, cutoff) <==> name in names && Doomed(name, cutoff)
    decreases |names|
  {
    hide Doomed;
    if names != [] {
      ToDropAre(names[..|names| - 1], cutoff);
      assert names == names[..|names| - 1] + [names[|names| - 1]];
    }
  }

  lemma {:induction false} Dropped(log: Log, list: seq<string>, fails: string -> bool)
    ensures var (log', ok) := DropAll(log, list, fails);
            && log'.strays == log.strays
            && (ok <==> forall name :: name in list ==> !fails(name))
            && (forall name :: name in log'.parts ==> name in log.parts && log'.parts[name] == log.parts[name])
            && (forall name :: name in log.parts && name !in log'.parts ==> name in list && !fails(name))
            && (ok ==> forall name :: name in list ==> name !in log'.parts)
    decreases |list|
  {
    if list != [] {
      Dropped(log.(parts := log.parts - {list[0]}), list[1..], fails);
      assert list == [list[0]] + list[1..];
    }
  }

  /** A pruning pass does all of its work exactly when none of its DROPs fails; one that stops half-way has dropped
      only what was due, and a later pass can do the rest. */
  lemma PruneOutcome(log: Log, names: seq<string>, cutoff: int, fails: string -> bool)
    requires forall name :: Doomed(name, cutoff) ==> (name in names <==> name in log.parts)
    ensures var (log', ok) := DropAll(log, ToDrop(names, cutoff), fails);
            && (ok <==> forall name :: name in log.parts && Doomed(name, cutoff) ==> !fails(name))
            && (ok ==> log' == Prune(log, cutoff))
            && Prune(log', cutoff) == Prune(log, cutoff)
  {
    hide Doomed;
    var (log', ok) := DropAll(log, ToDrop(names, cutoff), fails);
    ToDropAre(names, cutoff);
    Dropped(log, ToDrop(names, cutoff), fails);
    assert Prune(log', cutoff).parts == Prune(log, cutoff).parts;
    if ok { assert log'.parts == Prune(log, cutoff).parts; }
  }

  lemma PruneKeeps(log: Log, cutoff: int)
    requires Inv(log)
    ensures Inv(Prune(log, cutoff))
  {
    hide Start, Name, ParseName;
    forall n ensures PartAt(Prune(log, cutoff), n) { assert PartAt(log, n); }
  }

  /** A row goes to the one partition that covers its day, or else astray. */
  lemma InsertKeeps(log: Log, day: int, name: string)
    requires Inv(log)
    ensures name in log.parts && log.parts[name].from <= day < log.parts[name].to ==> Inv(Insert(log, day, name))
    ensures (forall n :: n in log.parts ==> !(log.parts[n].from <= day < log.parts[n].to)) ==>
              Inv(log.(strays := log.strays + {day}))
  {
    hide Start, Name;
    if name in log.parts && log.parts[name].from <= day < log.parts[name].to {
      assert PartAt(log, name);
      forall n ensures PartAt(Insert(log, day, name), n) { assert PartAt(log, n); }
    }
    if forall n :: n in log.parts ==> !(log.parts[n].from <= day < log.parts[n].to) {
      forall n ensures PartAt(log.(strays := log.strays + {day}), n) { assert PartAt(log, n); }
    }
  }
}
