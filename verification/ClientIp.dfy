/** Which address a request is counted under: TrustedProxies.ClientIP of internal/middleware/ratelimit.go, on the
    comma-separated and trimmed entries of X-Forwarded-For. */
module ClientIp {
  /** What the address parser and the trusted ranges say of an entry. */
  datatype Kind = NotAnIp | Trusted | Outside

  type Ranges = string -> Kind

  /** The walk from the right: the last entry that is an address outside the trusted ranges. */
  ghost predicate LastOutside(kind: Ranges, parts: seq<string>, i: int) {
    0 <= i < |parts| && kind(parts[i]) == Outside && forall j :: i < j < |parts| ==> kind(parts[j]) != Outside
  }

  method ClientIP(kind: Ranges, peer: string, parts: seq<string>) returns (ip: string)
    ensures kind(peer) != Trusted || parts == [] ==> ip == peer
    ensures kind(peer) == Trusted && parts != [] ==> ip == Walk(kind, parts)
  {
    if kind(peer) != Trusted { return peer; }
    if parts == [] { return peer; }
    var i := |parts| - 1;
    while i >= 0
      invariant -1 <= i < |parts|
      invariant Walk(kind, parts) == if i < 0 then parts[0] else WalkFrom(kind, parts, i)
    {
      if kind(parts[i]) == Outside { return parts[i]; }
      i := i - 1;
    }
    ip := parts[0];
  }

  function WalkFrom(kind: Ranges, parts: seq<string>, i: nat): string
    requires i < |parts|
  {
    if kind(parts[i]) == Outside then parts[i] else if i == 0 then parts[0] else WalkFrom(kind, parts, i - 1)
  }

  function Walk(kind: Ranges, parts: seq<string>): string
    requires parts != []
  {
    WalkFrom(kind, parts, |parts| - 1)
  }

  lemma {:induction false} WalkMeans(kind: Ranges, parts: seq<string>, i: nat)
    requires i < |parts|
    requires forall j :: i < j < |parts| ==> kind(parts[j]) != Outside
    ensures forall k :: LastOutside(kind, parts, k) ==> WalkFrom(kind, parts, i) == parts[k]
    ensures (forall k :: 0 <= k < |parts| ==> kind(parts[k]) != Outside) ==> WalkFrom(kind, parts, i) == parts[0]
    decreases i
  {
    if kind(parts[i]) == Outside {
      forall k | LastOutside(kind, parts, k) ensures k == i {}
    } else if i > 0 {
      WalkMeans(kind, parts, i - 1);
    } else {
      forall k | LastOutside(kind, parts, k) ensures k == 0 {}
    }
  }

  ghost predicate HasOutside(kind: Ranges, parts: seq<string>) {
    exists k :: 0 <= k < |parts| && kind(parts[k]) == Outside
  }

  lemma {:induction false} Rightmost(kind: Ranges, parts: seq<string>) returns (k: nat)
    requires HasOutside(kind, parts)
    ensures LastOutside(kind, parts, k)
    decreases |parts|
  {
    var n := |parts| - 1;
    if kind(parts[n]) == Outside {
      k := n;
    } else {
      k := Rightmost(kind, parts[..n]);
    }
  }

  /** The walk returns the last outside entry. */
  lemma WalkIs(kind: Ranges, parts: seq<string>, k: nat)
    requires LastOutside(kind, parts, k)
    ensures Walk(kind, parts) == parts[k]
  {
    hide WalkFrom;
    WalkMeans(kind, parts, |parts| - 1);
  }

  lemma LastBehind(kind: Ranges, front: seq<string>, ours: seq<string>, k: nat)
    requires LastOutside(kind, ours, k)
    ensures LastOutside(kind, front + ours, |front| + k) && (front + ours)[|front| + k] == ours[k]
  {
    forall j | |front| + k < j < |front + ours|
      ensures kind((front + ours)[j]) != Outside
    {
      assert (front + ours)[j] == ours[j - |front|];
    }
  }

  lemma OursDecides(kind: Ranges, front: seq<string>, ours: seq<string>)
    requires HasOutside(kind, ours)
    ensures Walk(kind, front + ours) == Walk(kind, ours)
  {
    var k := Rightmost(kind, ours);
    hide Walk, WalkFrom, HasOutside, LastOutside;
    LastBehind(kind, front, ours, k);
    WalkIs(kind, front + ours, |front| + k);
    WalkIs(kind, ours, k);
  }

  /** Some text in front shows through: an outside address is returned, anything else becomes leftmost. */
  lemma LeftmostShows(kind: Ranges, ours: seq<string>, other: string)
    requires ours != [] && other != ours[0] && !HasOutside(kind, ours)
    ensures Walk(kind, [other] + ours) == other && Walk(kind, ours) == ours[0]
  {
    var all := [other] + ours;
    assert forall j :: 0 < j < |all| ==> all[j] == ours[j - 1];
    if kind(other) == Outside { assert LastOutside(kind, all, 0); }
    WalkMeans(kind, all, |all| - 1);
    WalkMeans(kind, ours, |ours| - 1);
  }

  /** Main result: entries that a client puts in front never change the answer exactly when our own proxies appended
      an outside address. */
  lemma FrontIgnoredIff(kind: Ranges, ours: seq<string>)
    requires ours != []
    ensures (forall front: seq<string> :: front != [] ==> Walk(kind, front + ours) == Walk(kind, ours)) <==>
              HasOutside(kind, ours)
  {
    hide Walk;
    if HasOutside(kind, ours) {
      forall front: seq<string> | front != []
        ensures Walk(kind, front + ours) == Walk(kind, ours)
      {
        OursDecides(kind, front, ours);
      }
    } else {
      var front := [ours[0] + "x"];
      LeftmostShows(kind, ours, front[0]);
      assert Walk(kind, front + ours) != Walk(kind, ours);
    }
  }
}
