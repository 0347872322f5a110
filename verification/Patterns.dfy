/** Service URL patterns: the glob an operator writes, the SQL LIKE pattern stored for it
    (internal/auth/cas/service.go and internal/api/admin/services.go), and the lookup of
    internal/store/postgres/cas.go. */
module Patterns {
  import opened Common

  // ----- the two pattern languages -----

  /** '*' stands for any text, every other character for itself. */
  ghost predicate Glob(g: string, url: string)
    decreases |g|
  {
    if g == [] then url == []
    else if g[0] == '*' then exists k :: 0 <= k <= |url| && Glob(g[1..], url[k..])
    else url != [] && url[0] == g[0] && Glob(g[1..], url[1..])
  }

  /** SQL LIKE with '%', '_' and backslash as the escape. */
  predicate Like(p: string, url: string)
    decreases |p| + |url|
  {
    if p == [] then url == []
    else if p[0] == '%' then Like(p[1..], url) || (url != [] && Like(p, url[1..]))
    else if p[0] == '_' then url != [] && Like(p[1..], url[1..])
    else if p[0] == '\\' then |p| >= 2 && url != [] && url[0] == p[1] && Like(p[2..], url[1..])
    else url != [] && url[0] == p[0] && Like(p[1..], url[1..])
  }

  /** LIKE raises an error for a pattern that ends in a lone escape. */
  predicate WellFormed(p: string)
    decreases |p|
  {
    if p == [] then true
    else if p[0] == '\\' then |p| >= 2 && WellFormed(p[2..])
    else WellFormed(p[1..])
  }

  // ----- PatternToLike -----

  function Translate(c: char): string {
    if c == '*' then "%" else if c == '%' || c == '_' || c == '\\' then ['\\', c] else [c]
  }

  function ToLike(g: string): string
    decreases |g|
  {
    if g == [] then [] else Translate(g[0]) + ToLike(g[1..])
  }

  lemma {:induction false} ToLikeSnoc(g: string, c: char)
    ensures ToLike(g + [c]) == ToLike(g) + Translate(c)
    decreases |g|
  {
    if g == [] {
      assert g + [c] == [c] && ToLike([c]) == Translate(c) + ToLike([c][1..]);
    } else {
      assert (g + [c])[0] == g[0] && (g + [c])[1..] == g[1..] + [c];
      ToLikeSnoc(g[1..], c);
    }
  }

  method PatternToLike(pattern: string) returns (b: string)
    ensures b == ToLike(pattern)
  {
    b := [];
    var i := 0;
    while i < |pattern|
      invariant 0 <= i <= |pattern|
      invariant b == ToLike(pattern[..i])
    {
      var r := pattern[i];
      ToLikeSnoc(pattern[..i], r);
      assert pattern[..i + 1] == pattern[..i] + [r];
      if r == '*' {
        b := b + ['%'];
      } else if r == '%' || r == '_' || r == '\\' {
        b := b + ['\\'];
        b := b + [r];
      } else {
        b := b + [r];
      }
      i := i + 1;
    }
    assert pattern[..i] == pattern;
  }

  /** A '%' accepts iff the rest of the pattern accepts some suffix. */
  lemma {:induction false} PercentSkips(p: string, url: string)
    ensures Like(['%'] + p, url) <==> exists k :: 0 <= k <= |url| && Like(p, url[k..])
    decreases |url|
  {
    var q := ['%'] + p;
    assert q[0] == '%' && q[1..] == p;
    if Like(p, url) { assert url[0..] == url; }
    if url != [] {
      PercentSkips(p, url[1..]);
      if Like(q, url[1..]) {
        var k :| 0 <= k <= |url[1..]| && Like(p, url[1..][k..]);
        assert url[1..][k..] == url[k + 1..];
      }
      forall k | 0 < k <= |url| && Like(p, url[k..])
        ensures Like(q, url[1..])
      {
        assert url[1..][k - 1..] == url[k..];
      }
    }
  }

  /** Main result: the translation preserves meaning for every pattern and every URL. */
  lemma {:induction false} ToLikeMeansGlob(g: string, url: string)
    ensures WellFormed(ToLike(g))
    ensures Like(ToLike(g), url) <==> Glob(g, url)
    decreases |g|
  {
    if g != [] {
      var t := ToLike(g);
      var rest := ToLike(g[1..]);
      if g[0] == '*' {
        forall k | 0 <= k <= |url|
          ensures Like(rest, url[k..]) <==> Glob(g[1..], url[k..])
          ensures WellFormed(rest)
        {
          ToLikeMeansGlob(g[1..], url[k..]);
        }
        ToLikeMeansGlob(g[1..], url);
        PercentSkips(rest, url);
        assert t == ['%'] + rest && t[1..] == rest;
      } else {
        var tail := if url == [] then [] else url[1..];
        ToLikeMeansGlob(g[1..], tail);
        if g[0] == '%' || g[0] == '_' || g[0] == '\\' {
          assert t == ['\\', g[0]] + rest && t[2..] == rest;
        } else {
          assert t == [g[0]] + rest && t[1..] == rest;
        }
      }
    }
  }

  function FromLike(p: string): string
    decreases |p|
  {
    if p == [] then []
    else if p[0] == '%' then "*" + FromLike(p[1..])
    else if p[0] == '\\' && |p| >= 2 then [p[1]] + FromLike(p[2..])
    else [p[0]] + FromLike(p[1..])
  }

  /** Nothing is lost: the stored pattern gives the written one back. */
  lemma {:induction false} FromLikeToLike(g: string)
    ensures FromLike(ToLike(g)) == g
    decreases |g|
  {
    if g != [] {
      FromLikeToLike(g[1..]);
      var t := ToLike(g);
      if |Translate(g[0])| == 2 {
        assert t[2..] == ToLike(g[1..]);
      } else {
        assert t[1..] == ToLike(g[1..]);
      }
    }
  }

  // ----- toLikePattern, the derivation the admin API really uses -----

  predicate HasMeta(s: string) { '%' in s || '_' in s }

  function AdminLike(s: string): string { if HasMeta(s) then s else s + "%" }

  method ToLikePattern(s: string) returns (p: string)
    ensures p == AdminLike(s)
    ensures p == if '%' in s || '_' in s then s else s + "%"
  {
    var i := 0;
    while i < |s|
      invariant 0 <= i <= |s|
      invariant !HasMeta(s[..i])
    {
      if s[i] == '%' || s[i] == '_' { return s; }
      assert s[..i + 1] == s[..i] + [s[i]];
      i := i + 1;
    }
    assert s[..i] == s;
    return s + "%";
  }

  /** What a text says once LIKE has taken its escapes. */
  function Unescape(s: string): string
    decreases |s|
  {
    if s == [] then []
    else if s[0] != '\\' then [s[0]] + Unescape(s[1..])
    else if |s| >= 2 then [s[1]] + Unescape(s[2..])
    else []
  }

  /** What an admin pattern without '%' and '_' means: every URL that extends the text, in
      which '*' is an ordinary character.  A text that ends in a lone backslash instead
      swallows the appended '%' and accepts a single URL. */
  lemma {:induction false} AdminIsPrefix(s: string, url: string)
    requires !HasMeta(s)
    ensures WellFormed(s) ==> (Like(AdminLike(s), url) <==> Unescape(s) <= url)
    ensures !WellFormed(s) ==> (Like(AdminLike(s), url) <==> url == Unescape(s) + "%")
    decreases |s|
  {
    var p := s + "%";
    if s == [] {
      assert p == ['%'] + [];
      PercentSkips([], url);
      assert Like([], url[|url|..]);
    } else if s == ['\\'] {
      assert p[0] == '\\' && p[1] == '%' && p[2..] == [];
      if url != [] { assert url == [url[0]] + url[1..]; }
    } else {
      var n := if s[0] == '\\' then 2 else 1;
      assert s[0] == '\\' ==> p[1] == s[1];
      assert p[0] == s[0] && p[n..] == s[n..] + "%" && !HasMeta(s[n..]);
      if url != [] {
        AdminIsPrefix(s[n..], url[1..]);
        assert url == [url[0]] + url[1..];
        assert Unescape(s) == [Unescape(s)[0]] + Unescape(s[n..]);
      }
    }
  }

  lemma {:induction false} UnescapeKeepsStars(s: string)
    ensures '*' in Unescape(s) <==> '*' in s
    decreases |s|
  {
    if s != [] && s != ['\\'] {
      var n := if s[0] == '\\' then 2 else 1;
      UnescapeKeepsStars(s[n..]);
      assert s == s[..n] + s[n..];
    }
  }

  /** A pattern without '*' accepts itself only. */
  lemma {:induction false} StarlessGlob(g: string, url: string)
    requires '*' !in g
    ensures Glob(g, url) <==> g == url
    decreases |g|
  {
    if g != [] && url != [] {
      StarlessGlob(g[1..], url[1..]);
      assert g == [g[0]] + g[1..] && url == [url[0]] + url[1..];
    }
  }

  /** Leaving out every '*' is one of the URLs a glob accepts. */
  function DropStars(g: string): string
    decreases |g|
  {
    if g == [] then [] else (if g[0] == '*' then [] else [g[0]]) + DropStars(g[1..])
  }

  lemma {:induction false} GlobDropStars(g: string)
    ensures Glob(g, DropStars(g)) && '*' !in DropStars(g)
    ensures '%' !in g ==> '%' !in DropStars(g)
    decreases |g|
  {
    if g != [] {
      GlobDropStars(g[1..]);
      var d := DropStars(g);
      if g[0] == '*' {
        assert d == DropStars(g[1..]) && d[0..] == d;
      } else {
        assert d[1..] == DropStars(g[1..]);
      }
    }
  }

  /** LIKE has no special reading of '*': whatever a pattern with one accepts has one. */
  lemma {:induction false} LikeKeepsStars(p: string, url: string)
    requires Like(p, url) && '*' in p
    ensures '*' in url
    decreases |p| + |url|
  {
    if p[0] == '%' && !Like(p[1..], url) {
      LikeKeepsStars(p, url[1..]);
    } else if p[0] == '%' {
      LikeKeepsStars(p[1..], url);
    } else {
      var n := if p[0] == '\\' then 2 else 1;
      assert p == p[..n] + p[n..] && url == [url[0]] + url[1..];
      if '*' in p[n..] { LikeKeepsStars(p[n..], url[1..]); }
    }
  }

  /** The pattern has a '%' or '_' that no backslash escapes. */
  predicate Wild(p: string)
    decreases |p|
  {
    if p == [] then false
    else if p[0] == '\\' then |p| >= 2 && Wild(p[2..])
    else p[0] == '%' || p[0] == '_' || Wild(p[1..])
  }

  /** A pattern that accepts a URL by a wildcard accepts another one. */
  lemma {:induction false} AnotherUrl(p: string, url: string) returns (other: string)
    requires Wild(p) && Like(p, url)
    ensures Like(p, other) && other != url
    decreases |p|
  {
    if p[0] == '%' {
      other := "/" + url;
      assert other[1..] == url;
    } else if p[0] == '_' {
      other := [if url[0] == '/' then '.' else '/'] + url[1..];
      assert other[1..] == url[1..];
    } else {
      var rest := AnotherUrl(if p[0] == '\\' then p[2..] else p[1..], url[1..]);
      other := [url[0]] + rest;
      assert other[1..] == rest;
    }
  }

  /** Without one it accepts its unescaped text only, which is shorter when there was something to escape. */
  lemma {:induction false} TameLike(p: string, url: string)
    requires !Wild(p) && Like(p, url)
    ensures |url| <= |p| && (HasMeta(p) ==> |url| < |p|)
    decreases |p|
  {
    if p != [] {
      var n := if p[0] == '\\' then 2 else 1;
      assert p == p[..n] + p[n..];
      TameLike(p[n..], url[1..]);
    }
  }

  /** Main result: the documented '*' never works through the admin API.  Whatever text is entered, some URL tells the
      two readings apart. */
  lemma AdminNeverMeansGlob(s: string) returns (url: string)
    ensures Like(AdminLike(s), url) != Glob(s, url)
  {
    GlobDropStars(s);
    if !HasMeta(s) {
      url := PlainNeverMeansGlob(s);
    } else if '*' in s {
      url := DropStars(s);
      if Like(s, url) { LikeKeepsStars(s, url); }
    } else if !Like(s, s) {
      url := s;
      StarlessGlob(s, s);
    } else {
      if !Wild(s) { TameLike(s, s); }
      url := AnotherUrl(s, s);
      StarlessGlob(s, url);
    }
  }

  lemma PlainNeverMeansGlob(s: string) returns (url: string)
    requires !HasMeta(s)
    ensures Like(AdminLike(s), url) != Glob(s, url)
  {
    UnescapeKeepsStars(s);
    GlobDropStars(s);
    var u := Unescape(s);
    if '*' in s || !WellFormed(s) {
      url := DropStars(s);
      assert (u + "%")[|u|] == '%';
    } else {
      url := if u + "/" != s then u + "/" else u + "//";
      StarlessGlob(s, url);
    }
    AdminIsPrefix(s, url);
  }

  // ----- the lookup -----

  /** The matcher comes to a lone escape at the end of the pattern while there is text to match, which is an error. */
  predicate Trips(p: string, url: string)
    decreases |p| + |url|, 0
  {
    if p == [] || url == [] then false
    else if p[0] == '%' then TripsSearching(p[1..], url)
    else if p[0] == '\\' then |p| == 1 || (url[0] == p[1] && Trips(p[2..], url[1..]))
    else (p[0] == '_' || url[0] == p[0]) && Trips(p[1..], url[1..])
  }

  /** Behind a '%' the matcher looks at the next ordinary character before it looks for a place to go on. */
  predicate TripsSearching(p: string, url: string)
    decreases |p| + |url|, 1
  {
    if p == [] then false
    else if p == "\\" then true
    else if p[0] == '%' then TripsSearching(p[1..], url)
    else if p[0] == '_' then url != [] && TripsSearching(p[1..], url[1..])
    else url != [] && (Trips(p, url) || TripsSearching(p, url[1..]))
  }

  /** Only a pattern that ends in a lone escape can fail, and such a pattern never accepts. */
  lemma {:induction false} TripsMeans(p: string, url: string)
    ensures Trips(p, url) || TripsSearching(p, url) ==> !WellFormed(p)
    ensures !WellFormed(p) ==> !Like(p, url)
    decreases |p| + |url|
  {
    if p != [] && p != "\\" {
      var n := if p[0] == '\\' then 2 else 1;
      TripsMeans(p[n..], url);
      if url != [] {
        TripsMeans(p[n..], url[1..]);
        TripsMeans(p, url[1..]);
        assert Trips(p, url) ==> !WellFormed(p);
      }
    }
  }

  /** Which texts the admin API turns into such a pattern: those with a LIKE character, which it stores unchanged, that
      end in a lone backslash.  Any other gets a '%' for the backslash to escape. */
  lemma {:induction false} AdminWellFormedIff(s: string)
    ensures WellFormed(AdminLike(s)) <==> !HasMeta(s) || WellFormed(s)
  {
    if !HasMeta(s) { AppendedPercent(s); }
  }

  lemma {:induction false} AppendedPercent(s: string)
    ensures WellFormed(s + "%")
    decreases |s|
  {
    var p := s + "%";
    if s != [] && s != "\\" {
      var n := if s[0] == '\\' then 2 else 1;
      AppendedPercent(s[n..]);
      assert p[n..] == s[n..] + "%";
    }
  }

  datatype CasService = CasService(name: string, match_pattern: string, enabled: bool, deleted: bool)
  datatype Lookup = Found(service: CasService) | NotFound | QueryError

  predicate Live(s: CasService) { !s.deleted && s.enabled }

  predicate Matches(s: CasService, url: string) { Live(s) && Like(s.match_pattern, url) }

  predicate Breaks(s: CasService, url: string) { Live(s) && Trips(s.match_pattern, url) }

  /** ORDER BY length(match_pattern) DESC LIMIT 1 over the matching rows; one live row whose pattern trips makes the
      whole query an error. */
  method FindCASServiceForURL(rows: seq<CasService>, url: string) returns (r: Lookup)
    ensures r.QueryError? <==> exists i :: 0 <= i < |rows| && Breaks(rows[i], url)
    ensures r.QueryError? <==>
              exists i :: 0 <= i < |rows| && !rows[i].deleted && rows[i].enabled && Trips(rows[i].match_pattern, url)
    ensures !r.QueryError? ==>
              (r.NotFound? <==> forall i :: 0 <= i < |rows| && !rows[i].deleted && rows[i].enabled ==>
                                  !Like(rows[i].match_pattern, url))
    ensures r.Found? ==> !r.service.deleted && r.service.enabled && Like(r.service.match_pattern, url)
    ensures r.Found? <==> !r.QueryError? && exists i :: 0 <= i < |rows| && Matches(rows[i], url)
    ensures r.Found? ==> r.service in rows && Matches(r.service, url)
    ensures r.Found? ==> forall i :: 0 <= i < |rows| && Matches(rows[i], url) ==>
                           |rows[i].match_pattern| <= |r.service.match_pattern|
    ensures (forall i :: 0 <= i < |rows| ==> WellFormed(rows[i].match_pattern)) ==> !r.QueryError?
  {
    r := NotFound;
    for n := 0 to |rows|
      invariant !r.QueryError?
      invariant forall i :: 0 <= i < n ==> !Breaks(rows[i], url)
      invariant r.Found? <==> exists i :: 0 <= i < n && Matches(rows[i], url)
      invariant r.Found? ==> r.service in rows && Matches(r.service, url)
      invariant r.Found? ==> forall i :: 0 <= i < n && Matches(rows[i], url) ==>
                               |rows[i].match_pattern| <= |r.service.match_pattern|
    {
      TripsMeans(rows[n].match_pattern, url);
      if Breaks(rows[n], url) { return QueryError; }
      if Matches(rows[n], url) {
        if r.NotFound? || |r.service.match_pattern| < |rows[n].match_pattern| { r := Found(rows[n]); }
      }
    }
  }
}
