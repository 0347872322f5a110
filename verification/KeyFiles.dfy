/** The names cmd/rotate-key/main.go gives to key files: a UTC timestamp laid out as 20060102T150405Z, so that
    the loader's sort by name is a sort by time.  Instants are whole seconds. */
module KeyFiles {
  import opened Common
  import Calendar = Partitions

  // ----- file names sort by time -----

  const DAY: int := 86400

  function FirstInstant(): int { Calendar.Start(0) * DAY }
  function EndOfInstants(): int { Calendar.Start(120000) * DAY }

  /** The years 0 to 9999, which the four-digit layout can print. */
  predicate Printable(t: Time) { FirstInstant() <= t < EndOfInstants() }

  /** The calendar month that holds the instant. */
  ghost function MonthAt(t: Time): (k: int)
    requires Printable(t)
    ensures 0 <= k < 120000 && Calendar.InMonth(t / DAY, k)
  {
    DayInRange(t);
    assert exists m :: 0 <= m < 120000 && Calendar.InMonth(t / DAY, m) by {
      var m := Calendar.MonthOf(t / DAY, 0, 120000);
    }
    var k :| 0 <= k < 120000 && Calendar.InMonth(t / DAY, k);
    k
  }

  lemma DayInRange(t: Time)
    requires Printable(t)
    ensures Calendar.Start(0) <= t / DAY < Calendar.Start(120000)
  {
    hide Calendar.Start;
  }

  function Two(n: nat): string { Calendar.Padded(n, 2) }

  /** 20060102 and 150405. */
  ghost function DateText(t: Time): string
    requires Printable(t)
  {
    var k := MonthAt(t);
    Calendar.YearText(Calendar.Year(k)) + Two(Calendar.Month(k)) + Two(t / DAY - Calendar.Start(k) + 1)
  }

  ghost function ClockText(t: Time): string {
    var s := t % DAY;
    Two(s / 3600) + Two(s / 60 % 60) + Two(s % 60)
  }

  ghost function KeyFile(t: Time): string
    requires Printable(t)
  {
    DateText(t) + "T" + ClockText(t) + "Z-signing.pem"
  }

  /** sort.Strings: byte by byte, a prefix first. */
  predicate Less(s: string, t: string)
    decreases |s|
  {
    if t == "" then false
    else if s == "" then true
    else s[0] < t[0] || (s[0] == t[0] && Less(s[1..], t[1..]))
  }

  lemma {:induction false} LessTotal(s: string, t: string)
    ensures s == t || Less(s, t) || Less(t, s)
    ensures !(Less(s, t) && Less(t, s)) && !Less(s, s)
    decreases |s|
  {
    if s != "" {
      LessTotal(s[1..], s[1..]);
      if t != "" {
        LessTotal(s[1..], t[1..]);
        assert s == [s[0]] + s[1..] && t == [t[0]] + t[1..];
      }
    }
  }

  /** Texts of one width compare piece by piece. */
  lemma {:induction false} LessConcat(a: string, b: string, u: string, v: string)
    requires |a| == |b|
    ensures Less(a + u, b + v) <==> Less(a, b) || (a == b && Less(u, v))
    decreases |a|
  {
    if a == "" {
      assert a + u == u && b + v == v;
    } else {
      assert (a + u)[1..] == a[1..] + u && (b + v)[1..] == b[1..] + v;
      assert a == [a[0]] + a[1..] && b == [b[0]] + b[1..];
      LessConcat(a[1..], b[1..], u, v);
    }
  }

  /** Digit texts of one width compare as numbers. */
  lemma {:induction false} LessDigits(a: string, b: string)
    requires |a| == |b| && Calendar.Digits(a) && Calendar.Digits(b)
    ensures Less(a, b) <==> Calendar.Value(a) < Calendar.Value(b)
    ensures a == b <==> Calendar.Value(a) == Calendar.Value(b)
    decreases |a|
  {
    if a != "" {
      var n := |a| - 1;
      LessDigits(a[..n], b[..n]);
      LessConcat(a[..n], b[..n], [a[n]], [b[n]]);
      assert a == a[..n] + [a[n]] && b == b[..n] + [b[n]];
      LessOne(a[n], b[n]);
    }
  }

  lemma LessOne(c: char, d: char)
    ensures Less([c], [d]) <==> c < d
  {
    assert [d][1..] == "";
  }

  lemma TwoDigits(n: nat)
    requires n < 100
    ensures |Two(n)| == 2 && Calendar.Digits(Two(n)) && Calendar.Value(Two(n)) == n
  {
    assert Calendar.Pow10(2) == 100;
    Calendar.PaddedReads(n, 2);
    Calendar.PaddedWidth(n, 2);
  }

  /** Three fixed-width fields compare field by field. */
  lemma LessThree(a: string, b: string, c: string, x: string, y: string, z: string)
    requires |a| == |x| && |b| == |y| && |c| == |z|
    ensures Less(a + b + c, x + y + z) <==> Less(a, x) || (a == x && (Less(b, y) || (b == y && Less(c, z))))
    ensures a + b + c == x + y + z <==> a == x && b == y && c == z
  {
    LessConcat(a + b, x + y, c, z);
    LessConcat(a, x, b, y);
    Concat(a + b, c, x + y, z);
    Concat(a, b, x, y);
  }

  lemma Concat(a: string, b: string, x: string, y: string)
    requires |a| == |x|
    ensures a + b == x + y <==> a == x && b == y
  {
    assert (a + b)[..|a|] == a && (x + y)[..|a|] == x && (a + b)[|a|..] == b && (x + y)[|a|..] == y;
  }

  lemma FieldWidths(t: Time)
    requires Printable(t)
    ensures var k := MonthAt(t);
            && |Calendar.YearText(Calendar.Year(k))| == 4 && Calendar.Digits(Calendar.YearText(Calendar.Year(k)))
            && Calendar.Value(Calendar.YearText(Calendar.Year(k))) == Calendar.Year(k)
            && 1 <= t / DAY - Calendar.Start(k) + 1 <= 31
  {
    hide Calendar.Start;
    var k := MonthAt(t);
    Calendar.MonthLength(k);
    assert Calendar.Pow10(4) == 10000;
    Calendar.PaddedReads(Calendar.Year(k), 4);
    Calendar.PaddedWidth(Calendar.Year(k), 4);
  }

  lemma DatesSort(a: Time, b: Time)
    requires Printable(a) && Printable(b)
    ensures |DateText(a)| == |DateText(b)|
    ensures Less(DateText(a), DateText(b)) <==> a / DAY < b / DAY
    ensures DateText(a) == DateText(b) <==> a / DAY == b / DAY
  {
    hide Calendar.Start, Calendar.Padded, Calendar.YearText, Calendar.Value, Less;
    var j, k := MonthAt(a), MonthAt(b);
    var d, e := a / DAY - Calendar.Start(j) + 1, b / DAY - Calendar.Start(k) + 1;
    FieldWidths(a);
    FieldWidths(b);
    TwoDigits(Calendar.Month(j));
    TwoDigits(Calendar.Month(k));
    TwoDigits(d);
    TwoDigits(e);
    LessDigits(Calendar.YearText(Calendar.Year(j)), Calendar.YearText(Calendar.Year(k)));
    LessDigits(Two(Calendar.Month(j)), Two(Calendar.Month(k)));
    LessDigits(Two(d), Two(e));
    LessThree(Calendar.YearText(Calendar.Year(j)), Two(Calendar.Month(j)), Two(d),
              Calendar.YearText(Calendar.Year(k)), Two(Calendar.Month(k)), Two(e));
    if j < k { Calendar.Later(j + 1, k); }
    if k < j { Calendar.Later(k + 1, j); }
  }

  lemma ClocksSort(a: Time, b: Time)
    ensures |ClockText(a)| == |ClockText(b)|
    ensures Less(ClockText(a), ClockText(b)) <==> a % DAY < b % DAY
    ensures ClockText(a) == ClockText(b) <==> a % DAY == b % DAY
  {
    hide Calendar.Padded, Calendar.Value, Less;
    var s, t := a % DAY, b % DAY;
    TwoDigits(s / 3600);
    TwoDigits(t / 3600);
    TwoDigits(s / 60 % 60);
    TwoDigits(t / 60 % 60);
    TwoDigits(s % 60);
    TwoDigits(t % 60);
    LessDigits(Two(s / 3600), Two(t / 3600));
    LessDigits(Two(s / 60 % 60), Two(t / 60 % 60));
    LessDigits(Two(s % 60), Two(t % 60));
    LessThree(Two(s / 3600), Two(s / 60 % 60), Two(s % 60), Two(t / 3600), Two(t / 60 % 60), Two(t % 60));
    Sexagesimal(s);
    Sexagesimal(t);
  }

  lemma Sexagesimal(s: int)
    requires 0 <= s < DAY
    ensures s == (s / 3600 * 60 + s / 60 % 60) * 60 + s % 60 && s / 3600 < 24
  {
    assert s / 3600 == s / 60 / 60;
  }

  /** Main result on names: for the years 0 to 9999 the file names sort exactly as the instants do, and two
      files get one name only within one second. */
  lemma NamesSortByTime(a: Time, b: Time)
    requires Printable(a) && Printable(b)
    ensures Less(KeyFile(a), KeyFile(b)) <==> a < b
    ensures KeyFile(a) == KeyFile(b) <==> a == b
  {
    hide Less, DateText, ClockText;
    DatesSort(a, b);
    ClocksSort(a, b);
    var z := "Z-signing.pem";
    LessConcat(DateText(a) + "T" + ClockText(a), DateText(b) + "T" + ClockText(b), z, z);
    LessThree(DateText(a), "T", ClockText(a), DateText(b), "T", ClockText(b));
    LessTotal("T", "T");
    LessTotal(z, z);
    Concat(DateText(a) + "T" + ClockText(a), z, DateText(b) + "T" + ClockText(b), z);
  }
}
