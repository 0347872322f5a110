/** The fixed-window limiter of internal/middleware/ratelimit.go.  Durations and instants
    are nanoseconds.  `Limiter` is the object; `Hit` is what one call does to one bucket. */
module RateLimit {
  import opened Common

  const SECOND: Time := 1_000_000_000

  datatype Config = Config(limit: int, window: Time)

  datatype Bucket = Bucket(count: int, windowStart: Time, lastSeen: Time)

  datatype Verdict = Allowed | Refused(retryAfter: int)

  type Buckets = map<string, Bucket>

  /** Whole seconds, rounded up, and never less than one. */
  function RetryAfter(remain: Time): int
    requires 0 < remain
  {
    var secs := remain / SECOND;
    var up := if remain % SECOND != 0 then secs + 1 else secs;
    if up < 1 then 1 else up
  }

  function Hit(c: Config, b: Option<Bucket>, now: Time): (Bucket, Verdict) {
    if b.None? || now - b.value.windowStart >= c.window then (Bucket(1, now, now), Allowed)
    else if b.value.count < c.limit then
      (b.value.(count := b.value.count + 1, lastSeen := now), Allowed)
    else
      (b.value.(lastSeen := now), Refused(RetryAfter(c.window - (now - b.value.windowStart))))
  }

  function Find(m: Buckets, key: string): Option<Bucket> { if key in m then Some(m[key]) else None }

  function Allow(c: Config, m: Buckets, key: string, now: Time): (Buckets, Verdict) {
    var (b, v) := Hit(c, Find(m, key), now);
    (m[key := b], v)
  }

  function EvictAfter(c: Config): Time { c.window * 10 }

  function Evict(c: Config, m: Buckets, now: Time): Buckets {
    map k | k in m && now - m[k].lastSeen <= EvictAfter(c) :: m[k]
  }

  class Limiter {
    const config: Config
    const evictAfter: Time
    var buckets: Buckets

    constructor (limit: int, window: Time)
      ensures config == Config(limit, window) && evictAfter == EvictAfter(config) && buckets == map[]
    {
      config := Config(limit, window);
      evictAfter := window * 10;
      buckets := map[];
    }

    method AllowAt(key: string, now: Time) returns (allowed: bool, retryAfter: int)
      modifies this
      ensures (buckets, if allowed then Allowed else Refused(retryAfter))
              == Allow(config, old(buckets), key, now)
      ensures allowed ==> retryAfter == 0
    {
      if key !in buckets {
        buckets := buckets[key := Bucket(1, now, now)];
        return true, 0;
      }
      var b := buckets[key];
      if now - b.windowStart >= config.window {
        buckets := buckets[key := Bucket(1, now, now)];
        return true, 0;
      }
      b := b.(lastSeen := now);
      if b.count < config.limit {
        buckets := buckets[key := b.(count := b.count + 1)];
        return true, 0;
      }
      buckets := buckets[key := b];
      var remain := config.window - (now - b.windowStart);
      var secs := remain / SECOND;
      if remain % SECOND != 0 { secs := secs + 1; }
      if secs < 1 { secs := 1; }
      return false, secs;
    }

    /** One tick of the evictor: a pass over the keys in any order. */
    method EvictTick(now: Time)
      requires evictAfter == EvictAfter(config)
      modifies this
      ensures buckets == Evict(config, old(buckets), now)
      ensures forall k :: k in buckets <==> k in old(buckets) && now - old(buckets)[k].lastSeen <= 10 * config.window
      ensures forall k :: k in buckets ==> buckets[k] == old(buckets)[k]
    {
      var todo := buckets.Keys;
      while todo != {}
        invariant todo <= buckets.Keys <= old(buckets).Keys
        invariant forall k :: k in buckets ==> buckets[k] == old(buckets)[k]
        invariant forall k :: k in old(buckets) && k !in todo ==>
                    (k in buckets <==> now - old(buckets)[k].lastSeen <= EvictAfter(config))
        decreases |todo|
      {
        var k :| k in todo;
        if now - buckets[k].lastSeen > evictAfter { buckets := buckets - {k}; }
        todo := todo - {k};
      }
    }
  }

  // ----- runs -----

  datatype Event = Call(key: string, at: Time) | Tick(at: Time)

  /** The answers of a whole run, evictions included. */
  function Answers(c: Config, m: Buckets, evs: seq<Event>): seq<Verdict>
    decreases |evs|
  {
    if evs == [] then []
    else match evs[0]
      case Call(key, at) => var (m', v) := Allow(c, m, key, at); [v] + Answers(c, m', evs[1..])
      case Tick(at) => Answers(c, Evict(c, m, at), evs[1..])
  }

  /** The same limiter with no evictor. */
  function AnswersKeeping(c: Config, m: Buckets, evs: seq<Event>): seq<Verdict>
    decreases |evs|
  {
    if evs == [] then []
    else match evs[0]
      case Call(key, at) => var (m', v) := Allow(c, m, key, at); [v] + AnswersKeeping(c, m', evs[1..])
      case Tick(at) => AnswersKeeping(c, m, evs[1..])
  }

  /** The clock is read before the lock is taken, so readings may come out of order: no call's lies more than
      `slack` before the greatest reading so far.  An evictor tick may be older by any amount. */
  predicate Disordered(evs: seq<Event>, latest: Time, slack: Time) {
    evs == [] || ((evs[0].Call? ==> evs[0].at >= latest - slack)
                  && Disordered(evs[1..], if evs[0].at > latest then evs[0].at else latest, slack))
  }

  // ----- eviction is invisible -----

  /** An evicted bucket, had it been kept, could only be reset by any call still to come. */
  ghost predicate Stale(c: Config, b: Bucket, latest: Time, slack: Time) {
    latest - slack - b.windowStart >= c.window
  }

  ghost predicate Matches(c: Config, m: Buckets, kept: Buckets, latest: Time, slack: Time) {
    && (forall k :: k in m ==> k in kept && m[k] == kept[k])
    && (forall k :: k in kept ==>
          && kept[k].windowStart <= kept[k].lastSeen + slack
          && kept[k].windowStart <= latest && kept[k].lastSeen <= latest)
    && (forall k :: k in kept && k !in m ==> Stale(c, kept[k], latest, slack))
  }

  lemma EvictMatches(c: Config, m: Buckets, kept: Buckets, now: Time, latest: Time, slack: Time)
    requires Matches(c, m, kept, latest, slack) && now <= latest && 0 <= 2 * slack <= 9 * c.window
    ensures Matches(c, Evict(c, m, now), kept, latest, slack)
  {}

  lemma CallMatches(c: Config, m: Buckets, kept: Buckets, key: string, now: Time, latest: Time, slack: Time)
    requires Matches(c, m, kept, latest, slack) && latest - slack <= now && 0 <= slack
    ensures Allow(c, m, key, now).1 == Allow(c, kept, key, now).1
    ensures Matches(c, Allow(c, m, key, now).0, Allow(c, kept, key, now).0,
                    if now > latest then now else latest, slack)
  {}

  /** Main result: over any calls and ticks on any keys, evicting buckets changes no answer,
      even when clock readings are out of order by up to four and a half windows. */
  lemma {:induction false} EvictionInvisible(c: Config, m: Buckets, kept: Buckets, evs: seq<Event>,
                                             latest: Time, slack: Time)
    requires Matches(c, m, kept, latest, slack) && 0 <= 2 * slack <= 9 * c.window
    requires Disordered(evs, latest, slack)
    ensures Answers(c, m, evs) == AnswersKeeping(c, kept, evs)
    decreases |evs|
  {
    if evs != [] {
      var at := evs[0].at;
      var latest' := if at > latest then at else latest;
      match evs[0]
      case Call(key, _) =>
        CallMatches(c, m, kept, key, at, latest, slack);
        EvictionInvisible(c, Allow(c, m, key, at).0, Allow(c, kept, key, at).0, evs[1..], latest', slack);
      case Tick(_) =>
        assert Matches(c, m, kept, latest', slack);
        EvictMatches(c, m, kept, at, latest', slack);
        EvictionInvisible(c, Evict(c, m, at), kept, evs[1..], latest', slack);
    }
  }

  // ----- keys are independent -----

  function CallsOn(key: string, evs: seq<Event>): seq<Time> {
    if evs == [] then []
    else if evs[0].Call? && evs[0].key == key then [evs[0].at] + CallsOn(key, evs[1..])
    else CallsOn(key, evs[1..])
  }

  function CallKeys(evs: seq<Event>): seq<string> {
    if evs == [] then []
    else if evs[0].Call? then [evs[0].key] + CallKeys(evs[1..])
    else CallKeys(evs[1..])
  }

  function Select(key: string, keys: seq<string>, vs: seq<Verdict>): seq<Verdict>
    requires |keys| == |vs|
  {
    if keys == [] then []
    else (if keys[0] == key then [vs[0]] else []) + Select(key, keys[1..], vs[1..])
  }

  /** One key alone. */
  function KeyAnswers(c: Config, b: Option<Bucket>, ts: seq<Time>): (vs: seq<Verdict>)
    ensures |vs| == |ts|
    decreases |ts|
  {
    if ts == [] then []
    else var (b', v) := Hit(c, b, ts[0]); [v] + KeyAnswers(c, Some(b'), ts[1..])
  }

  lemma {:induction false} OneAnswerPerCall(c: Config, m: Buckets, evs: seq<Event>)
    ensures |AnswersKeeping(c, m, evs)| == |CallKeys(evs)|
    decreases |evs|
  {
    if evs != [] {
      OneAnswerPerCall(c, if evs[0].Call? then Allow(c, m, evs[0].key, evs[0].at).0 else m, evs[1..]);
    }
  }

  /** What a key is told depends on that key's calls alone. */
  lemma {:induction false} KeysIndependent(c: Config, m: Buckets, key: string, evs: seq<Event>)
    ensures |AnswersKeeping(c, m, evs)| == |CallKeys(evs)|
    ensures Select(key, CallKeys(evs), AnswersKeeping(c, m, evs))
            == KeyAnswers(c, Find(m, key), CallsOn(key, evs))
    decreases |evs|
  {
    OneAnswerPerCall(c, m, evs);
    if evs != [] {
      match evs[0]
      case Tick(_) => KeysIndependent(c, m, key, evs[1..]);
      case Call(k, at) =>
        var (m', v) := Allow(c, m, k, at);
        KeysIndependent(c, m', key, evs[1..]);
        assert CallKeys(evs)[1..] == CallKeys(evs[1..]);
        assert AnswersKeeping(c, m, evs)[1..] == AnswersKeeping(c, m', evs[1..]);
        if k == key { assert CallsOn(key, evs)[1..] == CallsOn(key, evs[1..]); }
    }
  }

  // ----- the sliding-window bound -----

  function CountAllowed(ts: seq<Time>, vs: seq<Verdict>, from: Time, to: Time): nat
    requires |ts| == |vs|
  {
    if ts == [] then 0
    else (if vs[0].Allowed? && from <= ts[0] < to then 1 else 0) + CountAllowed(ts[1..], vs[1..], from, to)
  }

  predicate Nondecreasing(ts: seq<Time>) { forall i, j :: 0 <= i < j < |ts| ==> ts[i] <= ts[j] }

  /** A limit below one still lets the first call of each window through. */
  function Quota(c: Config): int { if c.limit < 1 then 1 else c.limit }

  ghost predicate Sound(c: Config, b: Option<Bucket>, ts: seq<Time>) {
    b.Some? ==> 1 <= b.value.count <= Quota(c) && (ts != [] ==> b.value.windowStart <= ts[0])
  }

  lemma Unrolled(c: Config, b: Option<Bucket>, ts: seq<Time>)
    requires ts != [] && Nondecreasing(ts) && Sound(c, b, ts)
    ensures var (b', v) := Hit(c, b, ts[0]);
            && KeyAnswers(c, b, ts)[0] == v && KeyAnswers(c, b, ts)[1..] == KeyAnswers(c, Some(b'), ts[1..])
            && Sound(c, Some(b'), ts[1..]) && Nondecreasing(ts[1..])
  {}

  /** Inside the current counting window only what is left of the quota gets through. */
  lemma {:induction false} CurrentWindow(c: Config, b: Bucket, ts: seq<Time>, to: Time, from: Time)
    requires Nondecreasing(ts) && Sound(c, Some(b), ts) && to <= b.windowStart + c.window
    ensures CountAllowed(ts, KeyAnswers(c, Some(b), ts), from, to) <= Quota(c) - b.count
    decreases |ts|
  {
    if ts != [] {
      Unrolled(c, Some(b), ts);
      if ts[0] < to {
        CurrentWindow(c, Hit(c, Some(b), ts[0]).0, ts[1..], to, from);
      } else {
        NothingLater(c, Some(Hit(c, Some(b), ts[0]).0), ts[1..], from, to);
      }
    }
  }

  lemma {:induction false} NothingLater(c: Config, b: Option<Bucket>, ts: seq<Time>, from: Time, to: Time)
    requires Nondecreasing(ts) && (ts != [] ==> ts[0] >= to)
    ensures CountAllowed(ts, KeyAnswers(c, b, ts), from, to) == 0
    decreases |ts|
  {
    if ts != [] { NothingLater(c, Some(Hit(c, b, ts[0]).0), ts[1..], from, to); }
  }

  /** Main result: no stretch of one window length lets through more than 2 * quota - 1 calls. */
  lemma {:induction false} SlidingBound(c: Config, b: Option<Bucket>, ts: seq<Time>, from: Time)
    requires Nondecreasing(ts) && Sound(c, b, ts) && c.window > 0
    ensures CountAllowed(ts, KeyAnswers(c, b, ts), from, from + c.window) <= 2 * Quota(c) - 1
    decreases |ts|
  {
    if b.Some? && b.value.windowStart >= from {
      CurrentWindow(c, b.value, ts, from + c.window, from);
    } else if ts != [] {
      Unrolled(c, b, ts);
      var b' := Hit(c, b, ts[0]).0;
      if ts[0] < from {
        SlidingBound(c, Some(b'), ts[1..], from);
      } else if b'.windowStart >= from {
        CurrentWindow(c, b', ts[1..], from + c.window, from);
      } else {
        Straddling(c, b', ts[1..], from);
      }
    }
  }

  /** A window that began before the stretch has already spent part of its quota there. */
  lemma {:induction false} Straddling(c: Config, b: Bucket, ts: seq<Time>, from: Time)
    requires Nondecreasing(ts) && Sound(c, Some(b), ts) && c.window > 0
    requires b.windowStart < from && (ts != [] ==> from <= ts[0])
    ensures CountAllowed(ts, KeyAnswers(c, Some(b), ts), from, from + c.window) <= 2 * Quota(c) - b.count
    decreases |ts|
  {
    if ts != [] {
      Unrolled(c, Some(b), ts);
      var b' := Hit(c, Some(b), ts[0]).0;
      if b'.windowStart >= from {
        CurrentWindow(c, b', ts[1..], from + c.window, from);
      } else {
        Straddling(c, b', ts[1..], from);
      }
    }
  }

  /** Main result, for the real limiter: on any run in which the calls on a key come in the order of their readings, any
      stretch of one window length.  Calls on other keys may read the clock out of order by up to four and a half
      windows, and evictor ticks by any amount into the past. */
  lemma RunBound(c: Config, key: string, evs: seq<Event>, start: Time, slack: Time, from: Time)
    requires c.window > 0 && 0 <= 2 * slack <= 9 * c.window && Disordered(evs, start, slack)
    requires Nondecreasing(CallsOn(key, evs))
    ensures |Answers(c, map[], evs)| == |CallKeys(evs)|
    ensures var vs := Select(key, CallKeys(evs), Answers(c, map[], evs));
            && |vs| == |CallsOn(key, evs)|
            && CountAllowed(CallsOn(key, evs), vs, from, from + c.window) <= 2 * Quota(c) - 1
  {
    EvictionInvisible(c, map[], map[], evs, start, slack);
    KeysIndependent(c, map[], key, evs);
    SlidingBound(c, None, CallsOn(key, evs), from);
  }

  // ----- the bound is reached -----

  function Repeat(t: Time, n: nat): (ts: seq<Time>)
    ensures |ts| == n && forall i :: 0 <= i < n ==> ts[i] == t
  {
    if n == 0 then [] else [t] + Repeat(t, n - 1)
  }

  lemma {:induction false} AllPass(c: Config, b: Bucket, t: Time, n: nat, rest: seq<Time>, from: Time, to: Time)
    requires 0 <= t - b.windowStart < c.window && b.count + n <= c.limit && from <= t < to
    ensures var b' := Bucket(b.count + n, b.windowStart, if n == 0 then b.lastSeen else t);
            CountAllowed(Repeat(t, n) + rest, KeyAnswers(c, Some(b), Repeat(t, n) + rest), from, to)
            == n + CountAllowed(rest, KeyAnswers(c, Some(b'), rest), from, to)
    decreases n
  {
    var ts := Repeat(t, n) + rest;
    if n == 0 {
      assert ts == rest;
    } else {
      assert ts[0] == t && ts[1..] == Repeat(t, n - 1) + rest;
      var b1 := Hit(c, Some(b), t).0;
      assert KeyAnswers(c, Some(b), ts)[1..] == KeyAnswers(c, Some(b1), ts[1..]);
      AllPass(c, b1, t, n - 1, rest, from, to);
    }
  }

  /** Right after a window ends a full quota passes at one instant. */
  lemma FreshWindow(c: Config, b: Bucket, t: Time, from: Time, to: Time)
    requires c.limit >= 1 && c.window > 0 && t - b.windowStart >= c.window && from <= t < to
    ensures CountAllowed(Repeat(t, c.limit), KeyAnswers(c, Some(b), Repeat(t, c.limit)), from, to) == c.limit
  {
    var late := Repeat(t, c.limit);
    var b' := Bucket(1, t, t);
    assert late[0] == t && late[1..] == Repeat(t, c.limit - 1) + [];
    assert KeyAnswers(c, Some(b), late)[1..] == KeyAnswers(c, Some(b'), late[1..]);
    AllPass(c, b', t, c.limit - 1, [], from, to);
  }

  /** For every limit there is a run that meets the bound: one call at 0, the rest of the
      quota at the last instant of that window, a full quota one instant later. */
  lemma BoundIsTight(c: Config)
    requires c.limit >= 1 && c.window >= 2
    ensures var ts := [0] + (Repeat(c.window - 1, c.limit - 1) + Repeat(c.window, c.limit));
            && Nondecreasing(ts)
            && CountAllowed(ts, KeyAnswers(c, None, ts), c.window - 1, 2 * c.window - 1) == 2 * Quota(c) - 1
  {
    var w, n := c.window, c.limit;
    var early, late := Repeat(w - 1, n - 1), Repeat(w, n);
    var ts := [0] + (early + late);
    var b := Bucket(1, 0, 0);
    assert ts[1..] == early + late;
    assert KeyAnswers(c, None, ts)[1..] == KeyAnswers(c, Some(b), early + late);
    AllPass(c, b, w - 1, n - 1, late, w - 1, 2 * w - 1);
    FreshWindow(c, Bucket(n, 0, if n == 1 then 0 else w - 1), w, w - 1, 2 * w - 1);
  }

  // ----- Retry-After -----

  /** Main result: a refusal names exactly the least number of whole seconds after which
      the key is accepted again (the refused call itself does not move the window). */
  lemma RetryAfterIsExact(c: Config, b: Option<Bucket>, now: Time, n: nat)
    requires Hit(c, b, now).1.Refused?
    ensures Hit(c, Some(Hit(c, b, now).0), now + n * SECOND).1.Allowed?
            <==> n >= Hit(c, b, now).1.retryAfter
  {
    var remain := c.window - (now - b.value.windowStart);
    assert remain == remain / SECOND * SECOND + remain % SECOND;
  }

  /** Refusals in between do not postpone it either. */
  lemma {:induction false} RefusalsDoNotPostpone(c: Config, b: Bucket, ts: seq<Time>, at: Time)
    requires forall i :: 0 <= i < |ts| ==> KeyAnswers(c, Some(b), ts)[i].Refused?
    ensures Hit(c, Some(AfterAll(c, b, ts)), at).1 == Hit(c, Some(b), at).1
    decreases |ts|
  {
    if ts != [] {
      var b' := Hit(c, Some(b), ts[0]).0;
      assert KeyAnswers(c, Some(b), ts)[0].Refused?;
      assert KeyAnswers(c, Some(b), ts)[1..] == KeyAnswers(c, Some(b'), ts[1..]);
      forall i | 0 <= i < |ts[1..]|
        ensures KeyAnswers(c, Some(b'), ts[1..])[i].Refused?
      {
        assert KeyAnswers(c, Some(b), ts)[i + 1].Refused?;
      }
      RefusalsDoNotPostpone(c, b', ts[1..], at);
    }
  }

  function AfterAll(c: Config, b: Bucket, ts: seq<Time>): Bucket
    decreases |ts|
  {
    if ts == [] then b else AfterAll(c, Hit(c, Some(b), ts[0]).0, ts[1..])
  }
}
