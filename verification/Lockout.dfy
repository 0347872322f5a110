/** Password login with lockout: internal/auth/password/service.go over the statements of
    internal/store/postgres/credentials.go.  Instants are seconds. */
module Lockout {
  import opened Common

  const MAX_FAILED_ATTEMPTS: int := 5
  const LOCKOUT: Time := 15 * 60
  const MAX_INT32: int := 0x7FFF_FFFF

  datatype Credential = Credential(password: string, failed: int, lockedUntil: Option<Time>)
  datatype User = User(id: nat, status: string)
  datatype Outcome = LoggedIn(user: nat) | InvalidCredentials | UserDisabled | AccountLocked | Failed

  /** Which statements of an attempt fail: the comparison on a malformed hash is an error; the three writes are not,
      since their errors are logged and dropped. */
  datatype Faults = Faults(hash: bool, count: bool, lock: bool, reset: bool)

  /** failed_attempts is a 32-bit column: the update that would overflow it is an error. */
  function Increment(c: Credential): (Credential, Option<int>) {
    if c.failed >= MAX_INT32 then (c, None)
    else (c.(failed := c.failed + 1), Some(c.failed + 1))
  }

  function RecordFailure(c: Credential, at: Time, f: Faults): Credential {
    var (c', n) := Increment(c);
    if f.count then c
    else if n.Some? && n.value >= MAX_FAILED_ATTEMPTS && !f.lock then c'.(lockedUntil := Some(at + LOCKOUT))
    else c'
  }

  predicate Locked(c: Credential, now: Time) { c.lockedUntil.Some? && c.lockedUntil.value > now }

  /** One attempt on one credential: the lock is tested at `check`, a failure is recorded at `record`. */
  datatype Attempt = Attempt(password: string, check: Time, record: Time, faults: Faults)

  predicate Fails(c: Credential, a: Attempt) { !Locked(c, a.check) && a.password != c.password }

  function After(c: Credential, a: Attempt): Credential {
    if Locked(c, a.check) || a.faults.hash then c
    else if a.password != c.password then RecordFailure(c, a.record, a.faults)
    else if a.faults.reset then c
    else c.(failed := 0, lockedUntil := None)
  }

  /** What an attempt on the credential `c` of user `id` answers and leaves: a success clears counter and lock, a
      failure counts one, and from the fifth on locks for fifteen minutes. */
  ghost predicate AttemptOutcome(c: Credential, a: Attempt, id: nat, c': Credential, r: Outcome) {
    var locked := c.lockedUntil.Some? && a.check < c.lockedUntil.value;
    var counted := a.password != c.password && !a.faults.count && c.failed < 2147483647;
    && (r == AccountLocked <==> locked)
    && (r == Failed <==> !locked && a.faults.hash)
    && (r == LoggedIn(id) <==> !locked && !a.faults.hash && a.password == c.password)
    && (r == InvalidCredentials <==> !locked && !a.faults.hash && a.password != c.password)
    && c'.password == c.password
    && (r.AccountLocked? || r.Failed? ==> c' == c)
    && (r.LoggedIn? && !a.faults.reset ==> c'.failed == 0 && c'.lockedUntil.None?)
    && (r.LoggedIn? && a.faults.reset ==> c' == c)
    && (r.InvalidCredentials? ==>
          && c'.failed == (if counted then c.failed + 1 else c.failed)
          && c'.lockedUntil == (if counted && c.failed + 1 >= 5 && !a.faults.lock then Some(a.record + 900)
                                else c.lockedUntil))
  }

  class Service {
    var users: map<string, User>            // live users by email
    var credentials: map<nat, Credential>

    method UpsertCredential(user: nat, password: string)
      modifies this`credentials
      ensures credentials == old(credentials)[user := Credential(password, 0, None)]
    {
      credentials := credentials[user := Credential(password, 0, None)];
    }

    method IncrementFailedAttempts(user: nat) returns (n: Option<int>)
      requires user in credentials
      modifies this`credentials
      ensures credentials == old(credentials)[user := Increment(old(credentials)[user]).0]
      ensures n == Increment(old(credentials)[user]).1
    {
      var c := credentials[user];
      if c.failed >= MAX_INT32 { return None; }
      credentials := credentials[user := c.(failed := c.failed + 1)];
      n := Some(c.failed + 1);
    }

    method Authenticate(email: string, a: Attempt) returns (r: Outcome)
      modifies this`credentials
      ensures email !in users ==> r == InvalidCredentials && credentials == old(credentials)
      ensures email in users && users[email].status != "active" ==> r == UserDisabled && credentials == old(credentials)
      ensures email in users && users[email].status == "active" ==>
                var id := users[email].id;
                if id !in old(credentials) then r == InvalidCredentials && credentials == old(credentials)
                else
                  var c := old(credentials)[id];
                  && credentials == old(credentials)[id := After(c, a)]
                  && r == (if Locked(c, a.check) then AccountLocked
                           else if a.faults.hash then Failed
                           else if Fails(c, a) then InvalidCredentials else LoggedIn(id))
      ensures email in users && users[email].status == "active" && users[email].id in old(credentials) ==>
                var id := users[email].id;
                && id in credentials && AttemptOutcome(old(credentials)[id], a, id, credentials[id], r)
                && credentials == old(credentials)[id := credentials[id]]
    {
      if email !in users { return InvalidCredentials; }
      var user := users[email];
      if user.status != "active" { return UserDisabled; }
      if user.id !in credentials { return InvalidCredentials; }
      var cred := credentials[user.id];
      if cred.lockedUntil.Some? && cred.lockedUntil.value > a.check {
        assert credentials == credentials[user.id := cred];
        return AccountLocked;
      }
      if a.faults.hash {
        assert credentials == credentials[user.id := cred];
        return Failed;
      }
      if cred.password != a.password {
        if a.faults.count {
          assert credentials == credentials[user.id := cred];
          return InvalidCredentials;
        }
        var n := IncrementFailedAttempts(user.id);
        if n.Some? && n.value >= MAX_FAILED_ATTEMPTS && !a.faults.lock {
          credentials := credentials[user.id := credentials[user.id].(lockedUntil := Some(a.record + LOCKOUT))];
        }
        return InvalidCredentials;
      }
      if a.faults.reset {
        assert credentials == credentials[user.id := cred];
      } else {
        credentials := credentials[user.id := cred.(failed := 0, lockedUntil := None)];
      }
      return LoggedIn(user.id);
    }
  }

  // ----- interleaved attempts -----

  /** Attempts on one credential with a wrong password, many in flight at once.  `checked` callers have seen
      the password fail and not yet counted it; `over` callers have counted it and got a number that is at or over
      the threshold; `armed` ones have then read the clock, at these instants, and not yet written the lock.  A caller
      whose write fails gives it up. */
  datatype State = State(cred: Credential, checked: nat, over: nat, armed: seq<Time>)
  datatype Step =
    | Check(at: Time) | Count | Read(at: Time) | Lock(caller: nat, at: Time) | GiveUpCount | GiveUpLock(caller: nat)

  predicate Passes(s: State, e: Step) { e.Check? && !Locked(s.cred, e.at) }

  predicate GivesUp(e: Step) { e.GiveUpCount? || e.GiveUpLock? }

  predicate Enabled(s: State, e: Step) {
    match e
    case Check(_) => true
    case Count => s.checked > 0
    case GiveUpCount => s.checked > 0
    case Read(_) => s.over > 0
    case Lock(i, _) => i < |s.armed|
    case GiveUpLock(i) => i < |s.armed|
  }

  function Next(s: State, e: Step): State
    requires Enabled(s, e)
  {
    match e
    case Check(_) => if Passes(s, e) then s.(checked := s.checked + 1) else s
    case Count =>
      var (c, n) := Increment(s.cred);
      s.(cred := c, checked := s.checked - 1,
         over := if n.Some? && n.value >= MAX_FAILED_ATTEMPTS then s.over + 1 else s.over)
    case Read(at) => s.(over := s.over - 1, armed := s.armed + [at])
    case Lock(i, _) => s.(cred := s.cred.(lockedUntil := Some(s.armed[i] + LOCKOUT)), armed := Without(s.armed, i))
    case GiveUpCount => s.(checked := s.checked - 1)
    case GiveUpLock(i) => s.(armed := Without(s.armed, i))
  }

  function Without(ts: seq<Time>, i: nat): seq<Time>
    requires i < |ts|
  {
    ts[..i] + ts[i + 1..]
  }

  function InFlight(s: State): nat { s.checked + s.over + |s.armed| }

  predicate Timed(e: Step) { e.Check? || e.Read? || e.Lock? }

  function Start(from: Time, e: Step): Time { if Timed(e) then e.at else from }

  /** How many attempts a run has in flight, and how long it takes to write a lock after reading the clock, at most. */
  datatype Pace = Pace(width: nat, delay: Time)

  /** How long after the failed check a lock is sure to hold: for one attempt at a time to the full, for more of them
      less the delay, since a lock written late for an early reading can replace a later one. */
  function Hold(p: Pace): Time { if p.width <= 1 then LOCKOUT else LOCKOUT - p.delay }

  /** At most `width` attempts are ever in flight, a lock is written at most `delay` after its caller has read the
      clock, and the clock does not run backwards from `from`.  No step resets the counter, and the 32-bit counter
      stays clear of its end. */
  ghost predicate Run(s: State, es: seq<Step>, p: Pace, from: Time)
    decreases |es|
  {
    && InFlight(s) <= p.width
    && 0 <= s.cred.failed < MAX_INT32 - |es|
    && (s.over > 0 || s.armed != [] ==> s.cred.failed >= MAX_FAILED_ATTEMPTS)
    && (es != [] ==>
          && from <= Start(from, es[0]) && Enabled(s, es[0])
          && (es[0].Lock? ==> s.armed[es[0].caller] >= es[0].at - p.delay)
          && Run(Next(s, es[0]), es[1..], p, Start(from, es[0])))
  }

  /** When the failed password checks of a run were made. */
  function Failures(s: State, es: seq<Step>): seq<Time>
    decreases |es|
  {
    if es == [] then []
    else if !Enabled(s, es[0]) then []
    else
      var rest := Failures(Next(s, es[0]), es[1..]);
      if Passes(s, es[0]) then [es[0].at] + rest else rest
  }

  /** How many attempts lose a write. */
  function GivenUp(es: seq<Step>): nat
    decreases |es|
  {
    if es == [] then 0 else (if GivesUp(es[0]) then 1 else 0) + GivenUp(es[1..])
  }

  /** Failures that may still be counted before each one locks the account. */
  function Grace(c: Credential): int {
    if c.failed < MAX_FAILED_ATTEMPTS then MAX_FAILED_ATTEMPTS - 1 - c.failed else 0
  }

  /** One attempt alone takes exactly these steps, so the class above refines the interleaved machine. */
  lemma AloneIsARun(c: Credential, a: Attempt)
    requires a.password != c.password && 0 <= c.failed < MAX_INT32 && !a.faults.hash
    ensures var t := Next(State(c, 0, 0, []), Check(a.check));
            if Locked(c, a.check) then After(c, a) == t.cred
            else if a.faults.count then After(c, a) == Next(t, GiveUpCount).cred
            else
              var u := Next(t, Count);
              if u.over == 0 then After(c, a) == u.cred
              else
                var v := Next(u, Read(a.record));
                && v.armed == [a.record]
                && After(c, a) == Next(v, if a.faults.lock then GiveUpLock(0) else Lock(0, a.record)).cred
  {}

  lemma {:induction false} FailuresInOrder(s: State, es: seq<Step>, p: Pace, from: Time)
    requires Run(s, es, p, from)
    ensures forall i :: 0 <= i < |Failures(s, es)| ==> from <= Failures(s, es)[i]
    ensures forall i, j :: 0 <= i < j < |Failures(s, es)| ==> Failures(s, es)[i] <= Failures(s, es)[j]
    decreases |es|
  {
    if es != [] { FailuresInOrder(Next(s, es[0]), es[1..], p, Start(from, es[0])); }
  }

  /** Nothing is checked while a lock holds.  With nobody in flight it stays as it is.  Otherwise a later lock may end
      before it, when it was written for an earlier reading of the clock, but only by the delay. */
  lemma {:induction false} NoneWhileLocked(s: State, es: seq<Step>, p: Pace, from: Time, until: Time)
    requires Run(s, es, p, from)
    requires s.cred.lockedUntil.Some? && until <= s.cred.lockedUntil.value
    requires InFlight(s) == 0 || until <= from + LOCKOUT - p.delay
    ensures forall i :: 0 <= i < |Failures(s, es)| ==> Failures(s, es)[i] >= until
    decreases |es|
  {
    if es != [] {
      if Passes(s, es[0]) {
        FailuresInOrder(Next(s, es[0]), es[1..], p, Start(from, es[0]));
      } else {
        NoneWhileLocked(Next(s, es[0]), es[1..], p, Start(from, es[0]), until);
      }
    }
  }

  /** Every step but a lock keeps the sum: a failed check takes room, a count takes grace, a lost write takes both. */
  lemma RoomStep(s: State, e: Step)
    requires Enabled(s, e) && !e.Lock? && 0 <= s.cred.failed < MAX_INT32
    ensures var s' := Next(s, e);
            && InFlight(s') - Grace(s'.cred) + (if GivesUp(e) then 1 else 0) >=
                 InFlight(s) - Grace(s.cred) + (if Passes(s, e) then 1 else 0)
            && (e.Read? || forall t :: t in s'.armed ==> t in s.armed)
            && (e.Read? ==> forall t :: t in s'.armed ==> t in s.armed || t == e.at)
  {}

  /** Once the room left in flight, the grace and the lost writes are used up, some caller must have written a lock. */
  lemma {:induction false} RoomRunsOut(s: State, es: seq<Step>, p: Pace, from: Time, since: Time, i: nat)
    requires Run(s, es, p, from) && since <= from
    requires p.width <= 1 ==> forall t :: t in s.armed ==> t >= since
    requires p.width - InFlight(s) + Grace(s.cred) + GivenUp(es) <= i < |Failures(s, es)|
    ensures Failures(s, es)[i] >= since + Hold(p)
    decreases |es|
  {
    var s' := Next(s, es[0]);
    var at := Start(from, es[0]);
    if !es[0].Lock? { RoomStep(s, es[0]); }
    if Passes(s, es[0]) {
      RoomRunsOut(s', es[1..], p, at, since, i - 1);
    } else if es[0].Lock? {
      assert s.armed[es[0].caller] in s.armed;
      NoneWhileLocked(s', es[1..], p, at, since + Hold(p));
    } else {
      RoomRunsOut(s', es[1..], p, at, since, i);
    }
  }

  /** Main result: with at most `width` attempts in flight, of which `GivenUp(es)` lose a write, from the fifth failure
      on any `width + GivenUp(es) + 1` consecutive failed checks span at least 15 minutes, less the delay from reading
      the clock to writing the lock when the width is more than 1.  One at a time, and no write lost, they are
      15 minutes apart whatever the delay. */
  lemma FailuresSpaced(s: State, es: seq<Step>, p: Pace, from: Time, i: nat)
    requires Run(s, es, p, from)
    requires Grace(s.cred) - InFlight(s) <= i && i + p.width + GivenUp(es) < |Failures(s, es)|
    ensures Failures(s, es)[i + p.width + GivenUp(es)] - Failures(s, es)[i] >=
              if p.width <= 1 then 900 else 900 - p.delay
  {
    SpacedAfter(s, es, p, from, i, 0);
  }

  lemma {:induction false} SpacedAfter(s: State, es: seq<Step>, p: Pace, from: Time, i: nat, lost: nat)
    requires Run(s, es, p, from)
    requires Grace(s.cred) - InFlight(s) <= i + lost && i + p.width + lost + GivenUp(es) < |Failures(s, es)|
    ensures Failures(s, es)[i + p.width + lost + GivenUp(es)] - Failures(s, es)[i] >= Hold(p)
    decreases |es|
  {
    var s' := Next(s, es[0]);
    var rest := Failures(s', es[1..]);
    var at := Start(from, es[0]);
    if Passes(s, es[0]) {
      assert Failures(s, es)[1..] == rest;
      if i == 0 {
        RoomRunsOut(s', es[1..], p, at, at, p.width + lost + GivenUp(es) - 1);
      } else {
        SpacedAfter(s', es[1..], p, at, i - 1, lost);
      }
    } else {
      SpacedAfter(s', es[1..], p, at, i, if GivesUp(es[0]) then lost + 1 else lost);
    }
  }

  /** Lock periods of `width` failures each that fit between two instants. */
  function Periods(p: Pace, from: Time, until: Time): int
    requires Hold(p) > 0
  {
    p.width * ((until - from) / Hold(p))
  }

  lemma LaterStart(p: Pace, from: Time, at: Time, until: Time)
    requires Hold(p) > 0 && from <= at <= until
    ensures 0 <= Periods(p, at, until) <= Periods(p, from, until)
    ensures at + Hold(p) <= until ==> Periods(p, at + Hold(p), until) == Periods(p, at, until) - p.width
  {
    var h := Hold(p);
    Divide(until - at, until - from, h);
    var a, b := (until - at) / h, (until - from) / h;
    Monotone(p.width, 0, a);
    Monotone(p.width, a, b);
    assert p.width * (a - 1) == p.width * a - p.width;
    assert until - (at + h) == until - at - h;
  }

  lemma Divide(x: int, y: int, h: int)
    requires 0 <= x <= y && h > 0
    ensures 0 <= x / h <= y / h && (x - h) / h == x / h - 1
  {
    var q, r := x / h, x % h;
    assert x == q * h + r;
    assert x - h == (q - 1) * h + r;
    Quotient(x - h, h, q - 1, r);
    var t := y / h;
    Scaled(q - t, h);
    assert y == t * h + y % h;
    assert (q - t) * h == q * h - t * h < h;
  }

  lemma Monotone(w: nat, a: int, b: int)
    requires a <= b
    ensures w * a <= w * b
  {}

  /** While nothing is locked: what is left of the room and the grace, one for each lost write, and the periods. */
  lemma {:induction false} CountOpen(s: State, es: seq<Step>, p: Pace, from: Time, until: Time)
    requires p.width > 1 && p.delay < LOCKOUT && Run(s, es, p, from) && from <= until
    requires forall i :: 0 <= i < |Failures(s, es)| ==> Failures(s, es)[i] <= until
    ensures |Failures(s, es)| <= p.width - InFlight(s) + Grace(s.cred) + GivenUp(es) + Periods(p, from, until)
    decreases |es|, 0
  {
    LaterStart(p, from, from, until);
    hide Periods;
    if es != [] && Failures(s, es) != [] {
      var s', rest := Next(s, es[0]), Failures(Next(s, es[0]), es[1..]);
      var at := Start(from, es[0]);
      FailuresInOrder(s', es[1..], p, at);
      if Passes(s, es[0]) {
        assert Failures(s, es)[0] == at && Failures(s, es)[1..] == rest;
        assert forall i :: 0 <= i < |rest| ==> rest[i] == Failures(s, es)[i + 1];
        CountOpen(s', es[1..], p, at, until);
      } else {
        assert at <= rest[0] <= until;
        if es[0].Lock? {
          CountLocked(s', es[1..], p, at, until, at + Hold(p));
        } else {
          CountOpen(s', es[1..], p, at, until);
        }
      }
      LaterStart(p, from, at, until);
    }
  }

  /** While a lock holds until `free`: a full room from then on. */
  lemma {:induction false} CountLocked(s: State, es: seq<Step>, p: Pace, from: Time, until: Time, free: Time)
    requires p.width > 1 && p.delay < LOCKOUT && Run(s, es, p, from) && from <= until
    requires from <= free <= from + Hold(p) && Grace(s.cred) == 0
    requires s.cred.lockedUntil.Some? && free <= s.cred.lockedUntil.value
    requires forall i :: 0 <= i < |Failures(s, es)| ==> Failures(s, es)[i] <= until
    ensures Failures(s, es) != [] ==>
              free <= until && |Failures(s, es)| <= p.width + GivenUp(es) + Periods(p, free, until)
    decreases |es|, 1
  {
    hide Periods;
    if Failures(s, es) != [] {
      var s', rest := Next(s, es[0]), Failures(Next(s, es[0]), es[1..]);
      var at := Start(from, es[0]);
      NoneWhileLocked(s, es, p, from, free);
      assert free <= Failures(s, es)[0] <= until;
      FailuresInOrder(s', es[1..], p, at);
      StillEnabled(s, es, p, from, at);
      assert at <= until;
      if at >= free {
        CountOpen(s, es, p, at, until);
        LaterStart(p, free, at, until);
      } else {
        CountLocked(s', es[1..], p, at, until, free);
      }
    }
  }

  /** The clock may be moved on to the reading of the next step. */
  lemma StillEnabled(s: State, es: seq<Step>, p: Pace, from: Time, at: Time)
    requires Run(s, es, p, from) && es != [] && at == Start(from, es[0])
    ensures Run(s, es, p, at)
    ensures Failures(s, es) != [] ==> at <= Failures(s, es)[0]
  {
    FailuresInOrder(Next(s, es[0]), es[1..], p, at);
  }

  /** What one step leaves of the room, the grace and the lost writes, and of the failures to come. */
  lemma StepCounts(s: State, es: seq<Step>, p: Pace, from: Time)
    requires Run(s, es, p, from) && es != []
    ensures Run(Next(s, es[0]), es[1..], p, Start(from, es[0])) && from <= Start(from, es[0])
    ensures var s' := Next(s, es[0]);
            var left := Grace(s'.cred) - InFlight(s') + GivenUp(es[1..]);
            var change := if es[0].Lock? then 1 else if Passes(s, es[0]) then -1 else 0;
            left <= Grace(s.cred) - InFlight(s) + GivenUp(es) + change
    ensures var rest := Failures(Next(s, es[0]), es[1..]);
            Failures(s, es) == if Passes(s, es[0]) then [Start(from, es[0])] + rest else rest
  {}

  /** What is known of an attempt that is alone. */
  ghost predicate Since(s: State, es: seq<Step>, from: Time, since: Time) {
    && (since <= from || (InFlight(s) == 0 && forall i :: 0 <= i < |Failures(s, es)| ==> Failures(s, es)[i] >= since))
    && (forall t :: t in s.armed ==> t >= since)
  }

  lemma SinceStep(s: State, es: seq<Step>, p: Pace, from: Time, since: Time)
    requires p.width <= 1 && Run(s, es, p, from) && es != [] && Since(s, es, from, since)
    requires !Passes(s, es[0]) && !es[0].Lock?
    ensures Since(Next(s, es[0]), es[1..], Start(from, es[0]), since)
  {
    StepCounts(s, es, p, from);
  }

  /** Once its lock is written nothing is in flight, and nothing is checked until 15 minutes after a clock reading. */
  lemma SinceLock(s: State, es: seq<Step>, p: Pace, from: Time, since: Time)
    requires p.width <= 1 && Run(s, es, p, from) && es != [] && Since(s, es, from, since) && es[0].Lock?
    ensures var s' := Next(s, es[0]);
            && InFlight(s') == 0 && s'.cred.lockedUntil.Some?
            && since + LOCKOUT <= s'.cred.lockedUntil.value
            && Since(s', es[1..], Start(from, es[0]), s'.cred.lockedUntil.value)
            && forall i :: 0 <= i < |Failures(s', es[1..])| ==> Failures(s', es[1..])[i] >= s'.cred.lockedUntil.value
  {
    var s' := Next(s, es[0]);
    assert s.armed[es[0].caller] in s.armed && InFlight(s') == 0;
    NoneWhileLocked(s', es[1..], p, Start(from, es[0]), s'.cred.lockedUntil.value);
  }

  /** One attempt at a time: the periods are counted from `since`, before which nothing in flight read the clock and
      nothing to come is checked.  The lock it writes ends 15 minutes after a reading, so the delay does not matter. */
  lemma {:induction false} CountAlone(s: State, es: seq<Step>, p: Pace, from: Time, since: Time, until: Time)
    requires p.width <= 1 && Run(s, es, p, from) && since <= until && Since(s, es, from, since)
    requires forall i :: 0 <= i < |Failures(s, es)| ==> Failures(s, es)[i] <= until
    ensures |Failures(s, es)| <= p.width - InFlight(s) + Grace(s.cred) + GivenUp(es) + Periods(p, since, until)
    decreases |es|
  {
    if es == [] || Failures(s, es) == [] {
      LaterStart(p, since, since, until);
    } else if Passes(s, es[0]) {
      FirstOfAlone(s, es, p, from, since, until);
      hide Run, Failures, GivenUp, Grace, Periods, Since;
      var at := Start(from, es[0]);
      CountAlone(Next(s, es[0]), es[1..], p, at, at, until);
    } else if es[0].Lock? {
      StepCounts(s, es, p, from);
      SinceLock(s, es, p, from, since);
      assert InFlight(s) == 1 && Grace(Next(s, es[0]).cred) == 0;
      hide Run, Failures, GivenUp, Grace, Periods, Since, Next;
      var s' := Next(s, es[0]);
      var free := s'.cred.lockedUntil.value;
      assert free <= Failures(s', es[1..])[0] <= until;
      CountAlone(s', es[1..], p, Start(from, es[0]), free, until);
      OnePeriodLess(p, since, free, until);
    } else {
      StepCounts(s, es, p, from);
      SinceStep(s, es, p, from, since);
      hide Run, Failures, GivenUp, Grace, Periods, Since, Next;
      CountAlone(Next(s, es[0]), es[1..], p, Start(from, es[0]), since, until);
    }
  }

  lemma FirstOfAlone(s: State, es: seq<Step>, p: Pace, from: Time, since: Time, until: Time)
    requires p.width <= 1 && Run(s, es, p, from) && es != [] && since <= until && Since(s, es, from, since)
    requires Passes(s, es[0]) && forall i :: 0 <= i < |Failures(s, es)| ==> Failures(s, es)[i] <= until
    ensures var (s', at) := (Next(s, es[0]), Start(from, es[0]));
            && Run(s', es[1..], p, at) && since <= at <= until && Since(s', es[1..], at, at)
            && (forall i :: 0 <= i < |Failures(s', es[1..])| ==> Failures(s', es[1..])[i] <= until)
            && |Failures(s, es)| == 1 + |Failures(s', es[1..])|
            && Grace(s'.cred) - InFlight(s') + GivenUp(es[1..]) <= Grace(s.cred) - InFlight(s) + GivenUp(es) - 1
            && Periods(p, at, until) <= Periods(p, since, until)
  {
    StepCounts(s, es, p, from);
    var at, rest := Start(from, es[0]), Failures(Next(s, es[0]), es[1..]);
    assert Failures(s, es)[0] == at;
    forall i | 0 <= i < |rest| ensures rest[i] <= until { assert rest[i] == Failures(s, es)[i + 1]; }
    LaterStart(p, since, at, until);
  }

  lemma OnePeriodLess(p: Pace, since: Time, free: Time, until: Time)
    requires p.width <= 1 && since + LOCKOUT <= free <= until
    ensures Periods(p, free, until) <= Periods(p, since, until) - p.width
  {
    LaterStart(p, since + LOCKOUT, free, until);
    LaterStart(p, since, since, until);
  }

  /** A stretch without a reset, starting fresh with nothing in flight and lasting until `until`, has at most
      4 + width * (1 + floor(length / 15 min)) failed checks, and one more for each lost write; for a width of more than
      1 the 15 minutes are less the delay.  One at a time that is 5 + floor(length / 15 min), whatever the delay. */
  lemma RateBound(s: State, es: seq<Step>, p: Pace, from: Time, until: Time)
    requires Run(s, es, p, from) && InFlight(s) == 0 && from <= until && Hold(p) > 0
    requires forall i :: 0 <= i < |Failures(s, es)| ==> Failures(s, es)[i] <= until
    ensures |Failures(s, es)| <= Grace(s.cred) + p.width * (1 + (until - from) / Hold(p)) + GivenUp(es)
  {
    assert s.armed == [];
    if p.width <= 1 { CountAlone(s, es, p, from, from, until); } else { CountOpen(s, es, p, from, until); }
    hide Failures, GivenUp, Run, Grace;
    Distribute(p.width, (until - from) / Hold(p));
  }

  /** One attempt at a time, and no write lost: 5 + floor(length / 15 min) from a fresh counter, for every delay. */
  lemma RateAlone(s: State, es: seq<Step>, delay: Time, from: Time, until: Time)
    requires Run(s, es, Pace(1, delay), from) && InFlight(s) == 0 && from <= until
    requires s.cred.failed == 0 && GivenUp(es) == 0
    requires forall i :: 0 <= i < |Failures(s, es)| ==> Failures(s, es)[i] <= until
    ensures |Failures(s, es)| <= 5 + (until - from) / 900
  {
    RateBound(s, es, Pace(1, delay), from, until);
  }

  lemma Distribute(w: nat, n: int)
    ensures w * (1 + n) == w + w * n
  {}

  function Burst(n: nat): seq<Step> { seq(n, _ => Check(0)) }

  /** Without a bound on attempts in flight there is no bound on failures: any number can be checked in one
      instant before the first of them is counted. */
  lemma {:induction false} OverlapEscapesTheLock(s: State, n: nat)
    requires !Locked(s.cred, 0) && 0 <= s.cred.failed < MAX_INT32 - n
    requires s.over > 0 || s.armed != [] ==> s.cred.failed >= MAX_FAILED_ATTEMPTS
    ensures Run(s, Burst(n), Pace(InFlight(s) + n, 0), 0)
    ensures |Failures(s, Burst(n))| == n
    decreases n
  {
    if n > 0 {
      assert Burst(n)[1..] == Burst(n - 1);
      OverlapEscapesTheLock(Next(s, Check(0)), n - 1);
      assert Burst(n)[0] == Check(0);
    }
  }

  lemma Prepend(s: State, e: Step, es: seq<Step>, p: Pace, from: Time)
    requires InFlight(s) <= p.width && 0 <= s.cred.failed < MAX_INT32 - |es| - 1
    requires s.over > 0 || s.armed != [] ==> s.cred.failed >= MAX_FAILED_ATTEMPTS
    requires from <= Start(from, e) && Enabled(s, e) && (e.Lock? ==> s.armed[e.caller] >= e.at - p.delay)
    requires Run(Next(s, e), es, p, Start(from, e))
    ensures Run(s, [e] + es, p, from)
    ensures Failures(s, [e] + es) == (if Passes(s, e) then [e.at] else []) + Failures(Next(s, e), es)
  {
    assert ([e] + es)[1..] == es;
  }

  /** One attempt from its failed check to its clock reading, both at `at`. */
  lemma Attempted(s: State, at: Time, es: seq<Step>, p: Pace, from: Time)
    requires MAX_FAILED_ATTEMPTS <= s.cred.failed < MAX_INT32 - |es| - 3 && !Locked(s.cred, at)
    requires InFlight(s) < p.width && s.checked == 0 && s.over == 0 && from <= at
    requires Run(s.(cred := s.cred.(failed := s.cred.failed + 1), armed := s.armed + [at]), es, p, at)
    ensures Run(s, [Check(at)] + ([Count] + ([Read(at)] + es)), p, from)
    ensures Failures(s, [Check(at)] + ([Count] + ([Read(at)] + es))) ==
              [at] + Failures(s.(cred := s.cred.(failed := s.cred.failed + 1), armed := s.armed + [at]), es)
  {
    hide Run, Failures;
    var s1 := Next(s, Check(at));
    var s2 := Next(s1, Count);
    Prepend(s2, Read(at), es, p, at);
    Prepend(s1, Count, [Read(at)] + es, p, at);
    Prepend(s, Check(at), [Count] + ([Read(at)] + es), p, from);
  }

  lemma Nothing(s: State, p: Pace, from: Time)
    requires InFlight(s) <= p.width && 0 <= s.cred.failed < MAX_INT32
    requires s.over > 0 || s.armed != [] ==> s.cred.failed >= MAX_FAILED_ATTEMPTS
    ensures Run(s, [], p, from) && Failures(s, []) == []
  {}

  /** A lock written for an early reading replaces a later one: two callers count, the first reads the clock, the second
      reads it `delay` later and writes at once, then the first writes, and the account is free `delay` sooner. */
  lemma LateWriteShortensTheLock(c: Credential, at: Time, delay: Time)
    requires MAX_FAILED_ATTEMPTS <= c.failed < MAX_INT32 - 10 && 0 <= delay < LOCKOUT
    ensures var es := [Read(at)] + ([Read(at + delay)] + ([Lock(1, at + delay)] + ([Lock(0, at + delay)] + [])));
            var s := State(c, 0, 2, []);
            && Run(s, es, Pace(2, delay), at)
            && Next(Next(Next(Next(s, es[0]), es[1]), es[2]), es[3]).cred.lockedUntil == Some(at + LOCKOUT)
            && Next(Next(Next(s, es[0]), es[1]), es[2]).cred.lockedUntil == Some(at + delay + LOCKOUT)
  {
    hide Run, Failures;
    var p, s, late := Pace(2, delay), State(c, 0, 2, []), at + delay;
    var s1 := Next(s, Read(at));
    var s2 := Next(s1, Read(late));
    assert s2.armed == [at, late];
    var s3 := Next(s2, Lock(1, late));
    assert s3.armed == [at];
    Nothing(Next(s3, Lock(0, late)), p, late);
    Prepend(s3, Lock(0, late), [], p, late);
    Prepend(s2, Lock(1, late), [Lock(0, late)] + [], p, late);
    Prepend(s1, Read(late), [Lock(1, late)] + ([Lock(0, late)] + []), p, at);
    Prepend(s, Read(at), [Read(late)] + ([Lock(1, late)] + ([Lock(0, late)] + [])), p, at);
  }

  const FULL: seq<Step> := [Check(LOCKOUT)] + ([Check(LOCKOUT)] + [])

  /** Two checks at the instant at which a lock ends. */
  lemma TwoFails(s: State, delay: Time)
    requires s.cred.lockedUntil == Some(LOCKOUT) && InFlight(s) == 0 && 0 <= delay < LOCKOUT
    requires MAX_FAILED_ATTEMPTS <= s.cred.failed < MAX_INT32 - 10
    ensures Run(s, FULL, Pace(2, delay), delay) && Failures(s, FULL) == [LOCKOUT] + [LOCKOUT]
  {
    hide Run, Failures;
    var p, s1 := Pace(2, delay), Next(s, Check(LOCKOUT));
    Nothing(Next(s1, Check(LOCKOUT)), p, LOCKOUT);
    Prepend(s1, Check(LOCKOUT), [], p, LOCKOUT);
    Prepend(s, Check(LOCKOUT), [Check(LOCKOUT)] + [], p, delay);
    assert [LOCKOUT] + [] == [LOCKOUT];
  }

  function LocksThenFails(delay: Time): seq<Step> { [Lock(1, delay)] + ([Lock(0, delay)] + FULL) }

  /** B writes its lock, then A for its earlier reading. */
  lemma BothLock(c: Credential, delay: Time)
    requires MAX_FAILED_ATTEMPTS <= c.failed < MAX_INT32 - 15 && 0 <= delay < LOCKOUT
    ensures var s := State(c, 0, 0, [0, delay]);
            Run(s, LocksThenFails(delay), Pace(2, delay), delay)
            && Failures(s, LocksThenFails(delay)) == [LOCKOUT, LOCKOUT]
  {
    hide Run, Failures;
    var p, s := Pace(2, delay), State(c, 0, 0, [0, delay]);
    var onlyA := Next(s, Lock(1, delay));
    assert onlyA.armed == [0];
    var free := Next(onlyA, Lock(0, delay));
    assert free.armed == [];
    TwoFails(free, delay);
    Prepend(onlyA, Lock(0, delay), FULL, p, delay);
    Prepend(s, Lock(1, delay), [Lock(0, delay)] + FULL, p, delay);
    assert [] + ([LOCKOUT] + [LOCKOUT]) == [LOCKOUT, LOCKOUT];
  }

  /** With two at a time the delay is really lost.  A fails at 0 and B at `delay`; B writes its lock at once and A right
      after it, for its own reading at 0; C and D fail at 15 minutes, which is 15 minutes less the delay after B. */
  lemma DelayIsLost(c: Credential, delay: Time) returns (es: seq<Step>)
    requires MAX_FAILED_ATTEMPTS <= c.failed < MAX_INT32 - 20 && c.lockedUntil == None && 0 <= delay < LOCKOUT
    ensures Run(State(c, 0, 0, []), es, Pace(2, delay), 0) && GivenUp(es) == 0
    ensures Failures(State(c, 0, 0, []), es) == [0, delay, LOCKOUT, LOCKOUT]
    ensures Failures(State(c, 0, 0, []), es)[1 + 2] - Failures(State(c, 0, 0, []), es)[1] == LOCKOUT - delay
  {
    hide Run, Failures, GivenUp, FULL;
    var p, locks := Pace(2, delay), LocksThenFails(delay);
    var a := State(c.(failed := c.failed + 1), 0, 0, [0]);
    BothLock(c.(failed := c.failed + 2), delay);
    assert |locks| == 4 && a.armed + [delay] == [0, delay] by { FourLeft(delay); }
    Attempted(a, delay, locks, p, 0);
    var second := [Check(delay)] + ([Count] + ([Read(delay)] + locks));
    assert [] + [0] == [0];
    Attempted(State(c, 0, 0, []), 0, second, p, 0);
    es := [Check(0)] + ([Count] + ([Read(0)] + second));
    NobodyGivesUp(delay);
    NothingGivenUp(es);
  }

  lemma FourLeft(delay: Time)
    ensures |LocksThenFails(delay)| == 4
  {}

  lemma NobodyGivesUp(delay: Time)
    ensures forall e :: e in LocksThenFails(delay) ==> !GivesUp(e)
  {}

  lemma {:induction false} NothingGivenUp(es: seq<Step>)
    requires forall e :: e in es ==> !GivesUp(e)
    ensures GivenUp(es) == 0
    decreases |es|
  {
    if es != [] { NothingGivenUp(es[1..]); }
  }

  // ----- with successes and password changes -----

  /** Beside the attempts with a wrong password, `good` callers have seen the right one and not yet reset the
      counter. */
  datatype Life = Life(s: State, good: nat)
  datatype Move = Fail(e: Step) | Succeed(at: Time) | Reset | GiveUpReset | Change(password: string)

  predicate Can(l: Life, m: Move) {
    match m
    case Fail(e) => Enabled(l.s, e)
    case Reset => l.good > 0
    case GiveUpReset => l.good > 0
    case _ => true
  }

  function Go(l: Life, m: Move): Life
    requires Can(l, m)
  {
    match m
    case Fail(e) => l.(s := Next(l.s, e))
    case Succeed(at) => if Locked(l.s.cred, at) then l else l.(good := l.good + 1)
    case Reset => Life(l.s.(cred := l.s.cred.(failed := 0, lockedUntil := None)), l.good - 1)
    case GiveUpReset => l.(good := l.good - 1)
    case Change(password) => l.(s := l.s.(cred := Credential(password, 0, None)))
  }

  ghost predicate ValidLife(l: Life, ms: seq<Move>)
    decreases |ms|
  {
    ms == [] || (Can(l, ms[0]) && ValidLife(Go(l, ms[0]), ms[1..]))
  }

  ghost function Lived(l: Life, ms: seq<Move>): Life
    requires ValidLife(l, ms)
    decreases |ms|
  {
    if ms == [] then l else Lived(Go(l, ms[0]), ms[1..])
  }

  /** What the moves alone tell: the failures counted since the last success or password change, the callers that
      counted a fifth or later one and have not written or given up their lock, whether there have been none of them at
      that change or at some time since, and whether a lock was written since. */
  datatype Told = Told(since: nat, pending: int, clean: bool, locked: bool)

  function Hear(t: Told, m: Move): Told {
    match m
    case Fail(Count) => t.(since := t.since + 1, pending := if t.since + 1 >= 5 then t.pending + 1 else t.pending)
    case Fail(Lock(_, _)) => t.(pending := t.pending - 1, clean := t.clean || t.pending == 1, locked := true)
    case Fail(GiveUpLock(_)) => t.(pending := t.pending - 1, clean := t.clean || t.pending == 1)
    case Reset => Told(0, t.pending, t.pending == 0, false)
    case Change(_) => Told(0, t.pending, t.pending == 0, false)
    case _ => t
  }

  function HearAll(t: Told, ms: seq<Move>): Told
    decreases |ms|
  {
    if ms == [] then t else HearAll(Hear(t, ms[0]), ms[1..])
  }

  /** Every lock is written after five counted failures since the last success or password change, unless callers that
      were on their way then have been on their way ever since. */
  ghost predicate EveryLockEarned(t: Told, ms: seq<Move>)
    decreases |ms|
  {
    ms != [] ==>
      && (ms[0].Fail? && ms[0].e.Lock? && t.clean ==> t.since >= 5)
      && EveryLockEarned(Hear(t, ms[0]), ms[1..])
  }

  predicate Agrees(l: Life, t: Told) {
    && l.s.cred.failed == t.since && l.s.over + |l.s.armed| == t.pending
    && (t.pending > 0 && t.clean ==> t.since >= 5) && (l.s.cred.lockedUntil.Some? <==> t.locked)
  }

  lemma AgreesStep(l: Life, m: Move, t: Told)
    requires Can(l, m) && Agrees(l, t) && t.since < MAX_INT32
    ensures Agrees(Go(l, m), Hear(t, m)) && (m.Fail? && m.e.Lock? && t.clean ==> t.since >= 5)
  {}

  /** Main result with successes, over every run from a credential without failures: the counter is the number of
      failures counted since the last success or password change, the account is locked only by a lock written since,
      and every lock is earned. */
  lemma {:induction false} LocksAreEarned(l: Life, ms: seq<Move>, t: Told)
    requires ValidLife(l, ms) && Agrees(l, t) && t.since + |ms| < MAX_INT32
    ensures EveryLockEarned(t, ms)
    ensures var (v, told) := (Lived(l, ms), HearAll(t, ms));
            v.s.cred.failed == told.since && (v.s.cred.lockedUntil.Some? <==> told.locked)
    decreases |ms|
  {
    hide Can, Go, Hear, Agrees;
    if ms == [] {
      AgreesMeans(l, t);
    } else {
      AgreesStep(l, ms[0], t);
      AtMostOneMore(t, ms[0]);
      LocksAreEarned(Go(l, ms[0]), ms[1..], Hear(t, ms[0]));
    }
  }

  lemma AgreesMeans(l: Life, t: Told)
    requires Agrees(l, t)
    ensures l.s.cred.failed == t.since && (l.s.cred.lockedUntil.Some? <==> t.locked)
  {}

  lemma AtMostOneMore(t: Told, m: Move)
    ensures Hear(t, m).since <= t.since + 1
  {}

  /** The start of such a run. */
  lemma FreshCredential(password: string)
    ensures Agrees(Life(State(Credential(password, 0, None), 0, 0, []), 0), Told(0, 0, true, false))
  {}

  /** A lone attempt with the right password takes these moves. */
  lemma SuccessAlone(c: Credential, a: Attempt)
    requires a.password == c.password && !a.faults.hash && !Locked(c, a.check)
    ensures var l := Go(Life(State(c, 0, 0, []), 0), Succeed(a.check));
            After(c, a) == Go(l, if a.faults.reset then GiveUpReset else Reset).s.cred
  {}

  /** The exception is real: a caller that counted the fifth failure writes its lock after another one has logged in and
      reset the counter, and locks an account with no failure on it. */
  lemma LockAfterReset(c: Credential, at: Time)
    requires c.failed == 4 && c.lockedUntil.None?
    ensures var l0 := Life(State(c, 0, 0, []), 0);
            var l1 := Go(Go(Go(Go(l0, Fail(Check(at))), Succeed(at)), Fail(Count)), Fail(Read(at)));
            var l2 := Go(l1, Reset);
            && Can(l1, Reset) && Can(l2, Fail(Lock(0, at)))
            && Go(l2, Fail(Lock(0, at))).s.cred == Credential(c.password, 0, Some(at + 900))
  {}
}
