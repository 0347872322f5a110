/** What more than one module uses. */
module Common {
  datatype Option<+T> = None | Some(value: T)

  /** Instants and durations, in whole units of whatever clock the module names. */
  type Time = int

  function LowerChar(c: char): char { if 'A' <= c <= 'Z' then c + 32 as char else c }

  /** Letter case, as strings.ToLower, ILIKE and citext fold it; ASCII only. */
  function Lower(s: string): (t: string)
    ensures |t| == |s|
  {
    seq(|s|, i requires 0 <= i < |s| => LowerChar(s[i]))
  }

  /** Division with remainder is unique. */
  lemma Quotient(x: int, n: int, q: int, r: int)
    requires n > 0 && x == q * n + r && 0 <= r < n
    ensures x / n == q && x % n == r
  {
    Scaled(x / n - q, n);
    assert (x / n - q) * n == r - x % n;
  }

  lemma Scaled(d: int, n: int)
    requires n > 0
    ensures d > 0 ==> d * n >= n
    ensures d < 0 ==> d * n <= 0 - n
  {}
}
