/** The scope parameter: splitFields and splitScope of internal/api/oidc/token.go, and the
    space join of token responses (section 3.3 of RFC 6749). */
module Scopes {
  predicate Blank(c: char) { c == ' ' || c == '\t' }

  predicate AllBlank(s: string) { forall i :: 0 <= i < |s| ==> Blank(s[i]) }

  predicate BlankFree(s: string) { forall i :: 0 <= i < |s| ==> !Blank(s[i]) }

  /** `fs` are the maximal blank-free runs of `s`, in order: blanks, a run that ends at a
      blank or at the end of the text, and so on. */
  ghost predicate Runs(s: string, fs: seq<string>)
    decreases |fs|
  {
    if fs == [] then AllBlank(s)
    else exists i, j :: RunAt(s, i, j) && fs[0] == s[i..j] && Runs(s[j..], fs[1..])
  }

  ghost predicate RunAt(s: string, i: int, j: int) {
    && 0 <= i < j <= |s| && AllBlank(s[..i]) && BlankFree(s[i..j]) && (j < |s| ==> Blank(s[j]))
  }

  /** What the loop has produced once it has read all of `s`: the run still open at the
      end, and the runs closed before it. */
  function Pending(s: string): string
    decreases |s|
  {
    if s == [] || Blank(s[|s| - 1]) then [] else Pending(s[..|s| - 1]) + [s[|s| - 1]]
  }

  function Closed(s: string): seq<string>
    decreases |s|
  {
    if s == [] then []
    else
      var p := s[..|s| - 1];
      if Blank(s[|s| - 1]) && Pending(p) != [] then Closed(p) + [Pending(p)] else Closed(p)
  }

  function Fields(s: string): seq<string> {
    if Pending(s) != [] then Closed(s) + [Pending(s)] else Closed(s)
  }

  lemma NothingRead()
    ensures Closed("") == [] && Pending("") == []
  {}

  lemma OneMore(s: string, i: nat)
    requires i < |s|
    ensures Pending(s[..i + 1]) == if Blank(s[i]) then [] else Pending(s[..i]) + [s[i]]
    ensures Closed(s[..i + 1]) == if Blank(s[i]) && Pending(s[..i]) != [] then Closed(s[..i]) + [Pending(s[..i])]
                                  else Closed(s[..i])
  {
    assert s[..i + 1][..i] == s[..i];
  }

  method SplitFields(s: string) returns (fields: seq<string>)
    ensures fields == Fields(s)
  {
    hide Closed, Pending;
    NothingRead();
    assert s[..0] == "";
    fields := [];
    var start := -1;
    var i := 0;
    while i < |s|
      invariant 0 <= i <= |s|
      invariant fields == Closed(s[..i])
      invariant -1 <= start < i || start == -1
      invariant Pending(s[..i]) == if start >= 0 then s[start..i] else []
    {
      OneMore(s, i);
      if s[i] == ' ' || s[i] == '\t' {
        if start >= 0 {
          fields := fields + [s[start..i]];
          start := -1;
        }
      } else if start < 0 {
        start := i;
      }
      i := i + 1;
    }
    assert s[..i] == s;
    if start >= 0 { fields := fields + [s[start..]]; }
  }

  /** splitFields never yields an empty field, so the filter in splitScope drops nothing. */
  method SplitScope(s: string) returns (out: seq<string>)
    ensures out == Fields(s)
  {
    var fields := SplitFields(s);
    FieldsNonEmpty(s);
    out := [];
    for k := 0 to |fields|
      invariant out == fields[..k]
    {
      if fields[k] != "" { out := out + [fields[k]]; }
    }
  }

  lemma {:induction false} ClosedNonEmpty(s: string)
    ensures "" !in Closed(s)
    decreases |s|
  {
    if s != [] { ClosedNonEmpty(s[..|s| - 1]); }
  }

  lemma FieldsNonEmpty(s: string)
    ensures "" !in Fields(s)
  {
    ClosedNonEmpty(s);
  }

  // ----- the loop finds the runs -----

  lemma {:induction false} BlanksOnly(b: string)
    requires AllBlank(b)
    ensures Closed(b) == [] && Pending(b) == []
    decreases |b|
  {
    if b != [] { BlanksOnly(b[..|b| - 1]); }
  }

  /** Blanks in front change nothing. */
  lemma {:induction false} SkipBlanks(b: string, t: string)
    requires AllBlank(b)
    ensures Closed(b + t) == Closed(t) && Pending(b + t) == Pending(t)
    decreases |t|
  {
    if t == [] {
      BlanksOnly(b);
      assert b + t == b;
    } else {
      var s, q := b + t, t[..|t| - 1];
      assert s[..|s| - 1] == b + q && s[|s| - 1] == t[|t| - 1];
      SkipBlanks(b, q);
    }
  }

  lemma {:induction false} OneRun(r: string)
    requires BlankFree(r)
    ensures Closed(r) == [] && Pending(r) == r
    decreases |r|
  {
    if r != [] { OneRun(r[..|r| - 1]); }
  }

  /** A run followed by a blank is the first field; the rest is read as if alone. */
  lemma {:induction false} RunThenRest(r: string, t: string)
    requires r != [] && BlankFree(r) && t != [] && Blank(t[0])
    ensures Closed(r + t) == [r] + Closed(t) && Pending(r + t) == Pending(t)
    decreases |t|
  {
    var s, q := r + t, t[..|t| - 1];
    assert s[..|s| - 1] == r + q && s[|s| - 1] == t[|t| - 1];
    if q == [] {
      OneRun(r);
      assert r + q == r;
    } else {
      RunThenRest(r, q);
    }
  }

  lemma FieldsOfRun(s: string, i: int, j: int)
    requires RunAt(s, i, j)
    ensures Fields(s) == [s[i..j]] + Fields(s[j..])
  {
    var r, t := s[i..j], s[j..];
    assert s == s[..i] + (r + t);
    SkipBlanks(s[..i], r + t);
    if t == [] {
      OneRun(r);
      assert r + t == r;
    } else {
      RunThenRest(r, t);
    }
  }

  lemma FieldsOfBlanks(s: string)
    requires AllBlank(s)
    ensures Fields(s) == []
  {
    BlanksOnly(s);
  }

  /** Every text that is not all blanks has a first run. */
  lemma {:induction false} FirstRun(s: string) returns (i: int, j: int)
    requires !AllBlank(s)
    ensures RunAt(s, i, j)
  {
    i := 0;
    while Blank(s[i])
      invariant 0 <= i < |s| && AllBlank(s[..i])
      invariant exists k :: i <= k < |s| && !Blank(s[k])
      decreases |s| - i
    {
      i := i + 1;
    }
    j := i + 1;
    while j < |s| && !Blank(s[j])
      invariant i < j <= |s| && forall k :: i <= k < j ==> !Blank(s[k])
    {
      j := j + 1;
    }
  }

  /** Main result: the loop returns exactly the maximal blank-free runs, and nothing else is
      a decomposition into them. */
  lemma {:induction false} FieldsAreTheRuns(s: string, fs: seq<string>)
    ensures fs == Fields(s) <==> Runs(s, fs)
    decreases |s|, |fs|
  {
    if AllBlank(s) {
      FieldsOfBlanks(s);
      if fs != [] && Runs(s, fs) {
        var i, j :| RunAt(s, i, j) && fs[0] == s[i..j] && Runs(s[j..], fs[1..]);
        FieldsOfRun(s, i, j);
      }
    } else {
      if fs != [] && fs == Fields(s) {
        var i, j := FirstRun(s);
        FieldsOfRun(s, i, j);
        FieldsAreTheRuns(s[j..], fs[1..]);
      }
      if fs != [] && Runs(s, fs) {
        var i, j :| RunAt(s, i, j) && fs[0] == s[i..j] && Runs(s[j..], fs[1..]);
        FieldsOfRun(s, i, j);
        FieldsAreTheRuns(s[j..], fs[1..]);
        assert fs == [fs[0]] + fs[1..];
      }
      if fs == [] {
        var i, j := FirstRun(s);
        FieldsOfRun(s, i, j);
      }
    }
  }

  // ----- the round trip -----

  /** strings.Join(scopes, " "). */
  function Join(fs: seq<string>): string {
    if fs == [] then "" else if |fs| == 1 then fs[0] else fs[0] + " " + Join(fs[1..])
  }

  predicate ScopeNames(fs: seq<string>) {
    forall k :: 0 <= k < |fs| ==> fs[k] != "" && BlankFree(fs[k])
  }

  /** Main result: splitting undoes the join for every list of scope names. */
  lemma {:induction false} SplitJoin(fs: seq<string>)
    requires ScopeNames(fs)
    ensures Fields(Join(fs)) == fs
    decreases |fs|
  {
    if fs == [] {
      FieldsOfBlanks("");
    } else {
      var s := Join(fs);
      var n := |fs[0]|;
      assert s[..0] == [] && s[0..n] == fs[0];
      assert BlankFree(fs[0]);
      FieldsOfRun(s, 0, n);
      if |fs| == 1 {
        FieldsOfBlanks(s[n..]);
      } else {
        var rest := Join(fs[1..]);
        assert s[n..] == " " + rest;
        SkipBlanks(" ", rest);
        SplitJoin(fs[1..]);
      }
      assert fs == [fs[0]] + fs[1..];
    }
  }

  /** And only for those: a name that is empty or holds a blank never survives. */
  lemma SplitJoinOnlyNames(fs: seq<string>)
    ensures Fields(Join(fs)) == fs <==> ScopeNames(fs)
  {
    if ScopeNames(fs) { SplitJoin(fs); }
    FieldsAreNames(Join(fs));
  }

  lemma {:induction false} FieldsAreNames(s: string)
    ensures ScopeNames(Fields(s))
    decreases |s|
  {
    if AllBlank(s) {
      FieldsOfBlanks(s);
    } else {
      var i, j := FirstRun(s);
      FieldsOfRun(s, i, j);
      FieldsAreNames(s[j..]);
    }
  }
}
