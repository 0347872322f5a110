/** Text encodings of internal/crypto: base64url without padding (section 5 of RFC 4648)
    as Go's RawURLEncoding reads and writes it, the signed cookie of hmac.go and the
    published RSA keys of signing.go and jwt.go (section 6.3.1 of RFC 7518). */
module Codec {
  import opened Common

  type Byte = n: int | 0 <= n < 256
  type Sextet = n: int | 0 <= n < 64

  function Digit(v: Sextet): char {
    if v < 26 then 'A' + v as char
    else if v < 52 then 'a' + (v - 26) as char
    else if v < 62 then '0' + (v - 52) as char
    else if v == 62 then '-' else '_'
  }

  function Value(c: char): Option<Sextet> {
    if 'A' <= c <= 'Z' then Some((c as int) - ('A' as int))
    else if 'a' <= c <= 'z' then Some((c as int) - ('a' as int) + 26)
    else if '0' <= c <= '9' then Some((c as int) - ('0' as int) + 52)
    else if c == '-' then Some(62)
    else if c == '_' then Some(63)
    else None
  }

  lemma DigitValue(v: Sextet)
    ensures Value(Digit(v)) == Some(v)
    ensures Digit(v) != '.' && Digit(v) != '\n' && Digit(v) != '\r'
  {}

  // ----- bytes to sextets -----

  // Three bytes x, y, z are four sextets a, b, c, d.
  function A(x: int): int { x / 4 }
  function B(x: int, y: int): int { x % 4 * 16 + y / 16 }
  function C(y: int, z: int): int { y % 16 * 4 + z / 64 }
  function D(z: int): int { z % 64 }
  function X(a: int, b: int): int { a * 4 + b / 16 }
  function Y(b: int, c: int): int { b % 16 * 16 + c / 4 }
  function Z(c: int, d: int): int { c % 4 * 64 + d }

  lemma Group(x: Byte, y: Byte, z: Byte)
    ensures X(A(x), B(x, y)) == x && Y(B(x, y), C(y, z)) == y && Z(C(y, z), D(z)) == z
  {}

  function Sextets(b: seq<Byte>): seq<Sextet> {
    if |b| == 0 then []
    else if |b| == 1 then [A(b[0]), B(b[0], 0)]
    else if |b| == 2 then [A(b[0]), B(b[0], b[1]), C(b[1], 0)]
    else [A(b[0]), B(b[0], b[1]), C(b[1], b[2]), D(b[2])] + Sextets(b[3..])
  }

  /** Left-over low bits of a short final group are ignored, as the non-strict decoder does. */
  function Bytes(q: seq<Sextet>): Option<seq<Byte>> {
    if |q| == 0 then Some([])
    else if |q| == 1 then None
    else if |q| == 2 then Some([X(q[0], q[1])])
    else if |q| == 3 then Some([X(q[0], q[1]), Y(q[1], q[2])])
    else
      var rest := Bytes(q[4..]);
      if rest.None? then None
      else Some([X(q[0], q[1]), Y(q[1], q[2]), Z(q[2], q[3])] + rest.value)
  }

  lemma Alone(x: Byte)
    ensures X(A(x), B(x, 0)) == x && A(x) < 64 && B(x, 0) < 64
  {}

  lemma OneByte(x: Byte)
    ensures Bytes(Sextets([x])) == Some([x])
  {
    Alone(x);
    var q := Sextets([x]);
    assert |q| == 2 && q[0] == A(x) && q[1] == B(x, 0);
    assert Bytes(q) == Some([X(q[0], q[1])]);
  }

  lemma TwoBytes(x: Byte, y: Byte)
    ensures Bytes(Sextets([x, y])) == Some([x, y])
  {
    Group(x, y, 0);
    var a: Sextet, b: Sextet, c: Sextet := A(x), B(x, y), C(y, 0);
    assert Sextets([x, y]) == [a, b, c];
    assert Bytes([a, b, c]) == Some([X(a, b), Y(b, c)]);
  }

  lemma ThreeBytes(x: Byte, y: Byte, z: Byte, t: seq<Byte>)
    requires Bytes(Sextets(t)) == Some(t)
    ensures Bytes(Sextets([x, y, z] + t)) == Some([x, y, z] + t)
  {
    Group(x, y, z);
    var a: Sextet, b: Sextet, c: Sextet, d: Sextet := A(x), B(x, y), C(y, z), D(z);
    assert ([x, y, z] + t)[3..] == t;
    assert ([a, b, c, d] + Sextets(t))[4..] == Sextets(t);
  }

  lemma {:induction false} BytesSextets(b: seq<Byte>)
    ensures Bytes(Sextets(b)) == Some(b)
    decreases |b|
  {
    if |b| == 1 {
      OneByte(b[0]);
      assert b == [b[0]];
    } else if |b| == 2 {
      TwoBytes(b[0], b[1]);
      assert b == [b[0], b[1]];
    } else if |b| > 2 {
      BytesSextets(b[3..]);
      ThreeBytes(b[0], b[1], b[2], b[3..]);
      assert b == [b[0], b[1], b[2]] + b[3..];
    }
  }

  // ----- the text form -----

  function Digits(q: seq<Sextet>): string {
    if q == [] then [] else [Digit(q[0])] + Digits(q[1..])
  }

  /** Line breaks are skipped; any other character outside the alphabet is an error. */
  function Values(s: string): Option<seq<Sextet>> {
    if s == [] then Some([])
    else if s[0] == '\n' || s[0] == '\r' then Values(s[1..])
    else
      var v := Value(s[0]);
      var rest := Values(s[1..]);
      if v.None? || rest.None? then None else Some([v.value] + rest.value)
  }

  function EncodeToString(b: seq<Byte>): string { Digits(Sextets(b)) }

  function DecodeString(s: string): Option<seq<Byte>> {
    var q := Values(s);
    if q.None? then None else Bytes(q.value)
  }

  lemma {:induction false} ValuesDigits(q: seq<Sextet>)
    ensures Values(Digits(q)) == Some(q)
    ensures '.' !in Digits(q)
    decreases |q|
  {
    if q != [] {
      DigitValue(q[0]);
      ValuesDigits(q[1..]);
      assert Digits(q)[1..] == Digits(q[1..]);
      assert q == [q[0]] + q[1..];
    }
  }

  /** Main result: decoding undoes encoding for every byte string. */
  lemma DecodeEncode(b: seq<Byte>)
    ensures DecodeString(EncodeToString(b)) == Some(b)
    ensures '.' !in EncodeToString(b)
  {
    ValuesDigits(Sextets(b));
    BytesSextets(b);
  }

  /** The other way round fails: the decoder is not strict, so spare bits go unread. */
  lemma TwoTextsOneMeaning(a: Sextet, b: Sextet, b': Sextet)
    requires b / 16 == b' / 16
    ensures DecodeString([Digit(a), Digit(b)]) == DecodeString([Digit(a), Digit(b')])
  {
    ValuesDigits([a, b]);
    ValuesDigits([a, b']);
    TwoDigits(a, b);
    TwoDigits(a, b');
  }

  lemma TwoDigits(a: Sextet, b: Sextet)
    ensures Digits([a, b]) == [Digit(a), Digit(b)]
  {
    assert [b][1..] == [] && Digits([b]) == [Digit(b)] + Digits([b][1..]);
    assert [a, b][1..] == [b] && Digits([a, b]) == [Digit(a)] + Digits([a, b][1..]);
  }

  /** The bits of a short last group that stand for no byte are zero. */
  predicate Tight(q: seq<Sextet>)
    decreases |q|
  {
    if |q| == 2 then q[1] % 16 == 0
    else if |q| == 3 then q[2] % 4 == 0
    else |q| < 4 || Tight(q[4..])
  }

  lemma Ungroup(a: Sextet, b: Sextet, c: Sextet, d: Sextet)
    ensures 0 <= X(a, b) < 256 && 0 <= Y(b, c) < 256 && 0 <= Z(c, d) < 256
    ensures A(X(a, b)) == a && B(X(a, b), Y(b, c)) == b && C(Y(b, c), Z(c, d)) == c && D(Z(c, d)) == d
    ensures B(X(a, b), 0) == b <==> b % 16 == 0
    ensures C(Y(b, c), 0) == c <==> c % 4 == 0
  {}

  lemma {:induction false} SextetsBytes(q: seq<Sextet>)
    requires Bytes(q).Some?
    ensures Sextets(Bytes(q).value) == q <==> Tight(q)
    decreases |q|
  {
    hide A, B, C, D, X, Y, Z;
    if |q| == 2 {
      Ungroup(q[0], q[1], 0, 0);
      assert q == [q[0], q[1]];
    } else if |q| == 3 {
      Ungroup(q[0], q[1], q[2], 0);
      assert q == [q[0], q[1], q[2]];
    } else if |q| > 3 {
      Ungroup(q[0], q[1], q[2], q[3]);
      SextetsBytes(q[4..]);
      var b := Bytes(q).value;
      assert b[3..] == Bytes(q[4..]).value;
      assert q == [q[0], q[1], q[2], q[3]] + q[4..];
      assert Sextets(b)[4..] == Sextets(b[3..]);
    }
  }

  predicate LineBreak(c: char) { c == '\n' || c == '\r' }

  lemma ValueDigit(c: char)
    ensures Value(c).Some? ==> Digit(Value(c).value) == c && !LineBreak(c)
  {}

  lemma {:induction false} DigitsValues(s: string)
    requires Values(s).Some?
    ensures |Digits(Values(s).value)| <= |s|
    ensures Digits(Values(s).value) == s <==> forall i :: 0 <= i < |s| ==> !LineBreak(s[i])
    decreases |s|
  {
    if s != "" {
      DigitsValues(s[1..]);
      ValueDigit(s[0]);
      assert s == [s[0]] + s[1..];
      if !LineBreak(s[0]) {
        assert Values(s).value[1..] == Values(s[1..]).value;
        assert forall i :: 0 < i < |s| ==> s[i] == s[1..][i - 1];
        assert forall i :: 0 <= i < |s[1..]| ==> s[1..][i] == s[i + 1];
      }
    }
  }

  /** When it does not: a text that decodes encodes back to itself exactly when it has no line break and no spare bit is
      set. */
  lemma EncodeDecodeIff(s: string)
    requires DecodeString(s).Some?
    ensures EncodeToString(DecodeString(s).value) == s <==>
              Tight(Values(s).value) && forall i :: 0 <= i < |s| ==> !LineBreak(s[i])
  {
    var q, b := Values(s).value, DecodeString(s).value;
    SextetsBytes(q);
    DigitsValues(s);
    ValuesDigits(Sextets(b));
  }

  // ----- signed cookies -----

  /** HMAC-SHA256 under the signer's key: any function of the signed text. */
  type Mac = string -> seq<Byte>

  function IndexByte(s: string, c: char): (i: int)
    ensures -1 <= i < |s|
    ensures i >= 0 ==> s[i] == c && c !in s[..i]
    ensures i < 0 ==> c !in s
  {
    if s == [] then -1
    else if s[0] == c then 0
    else var j := IndexByte(s[1..], c); if j < 0 then -1 else
      assert s[..j + 1] == [s[0]] + s[1..][..j]; j + 1
  }

  function Sign(mac: Mac, payload: seq<Byte>): string {
    var p := EncodeToString(payload);
    p + "." + EncodeToString(mac(p))
  }

  function Verify(mac: Mac, value: string): Option<seq<Byte>> {
    var dot := IndexByte(value, '.');
    if dot < 0 then None
    else
      var p, sig := value[..dot], value[dot + 1..];
      if sig != EncodeToString(mac(p)) then None else DecodeString(p)
  }

  lemma {:induction false} FirstDot(p: string, sig: string)
    requires '.' !in p
    ensures IndexByte(p + "." + sig, '.') == |p|
    decreases |p|
  {
    var v := p + "." + sig;
    if p != [] {
      assert v[0] == p[0] && v[1..] == p[1..] + "." + sig;
      FirstDot(p[1..], sig);
    }
  }

  /** Main result: whatever was signed is read back, for every key and payload. */
  lemma VerifySign(mac: Mac, payload: seq<Byte>)
    ensures Verify(mac, Sign(mac, payload)) == Some(payload)
  {
    var p := EncodeToString(payload);
    var sig := EncodeToString(mac(p));
    DecodeEncode(payload);
    FirstDot(p, sig);
    var v := p + "." + sig;
    assert v[..|p|] == p && v[|p| + 1..] == sig;
  }

  /** What verifies: exactly the texts with a dot whose tag is the tag of what precedes it. */
  lemma VerifyIff(mac: Mac, value: string, payload: seq<Byte>)
    ensures Verify(mac, value) == Some(payload)
            <==> exists p :: '.' !in p && DecodeString(p) == Some(payload)
                             && value == p + "." + EncodeToString(mac(p))
  {
    var dot := IndexByte(value, '.');
    if Verify(mac, value) == Some(payload) {
      var p := value[..dot];
      assert value == p + "." + value[dot + 1..];
    }
    if p :| '.' !in p && DecodeString(p) == Some(payload) && value == p + "." + EncodeToString(mac(p)) {
      FirstDot(p, EncodeToString(mac(p)));
      assert value[..|p|] == p && value[|p| + 1..] == EncodeToString(mac(p));
    }
  }

  /** With a tag nobody else can put on a text, only signed payloads are ever read back. */
  lemma OnlySignedVerifies(mac: Mac, signed: set<string>, value: string)
    requires forall p :: value == p + "." + EncodeToString(mac(p)) ==> p in signed
    requires Verify(mac, value).Some?
    ensures exists p :: p in signed && DecodeString(p) == Verify(mac, value)
  {
    VerifyIff(mac, value, Verify(mac, value).value);
  }

  // ----- published keys -----

  /** big.Int.SetBytes: big-endian, leading zeros allowed. */
  function SetBytes(b: seq<Byte>): nat {
    if b == [] then 0 else SetBytes(b[..|b| - 1]) * 256 + b[|b| - 1]
  }

  /** big.Int.Bytes: the shortest big-endian form, empty for zero. */
  function BigBytes(n: nat): seq<Byte> {
    if n == 0 then [] else BigBytes(n / 256) + [n % 256]
  }

  lemma {:induction false} SetBytesBigBytes(n: nat)
    ensures SetBytes(BigBytes(n)) == n
    ensures n > 0 ==> BigBytes(n) != [] && BigBytes(n)[0] != 0
    decreases n
  {
    if n > 0 {
      SetBytesBigBytes(n / 256);
      var b := BigBytes(n);
      assert b[..|b| - 1] == BigBytes(n / 256);
    }
  }

  datatype PublicKey = PublicKey(n: nat, e: int)
  datatype Jwk = Jwk(kty: string, kid: string, n: string, e: string)

  const MAX_INT64: int := 0x7FFF_FFFF_FFFF_FFFF

  function Abs(x: int): nat { if x < 0 then -x else x }

  function JsonWebKey(kid: string, key: PublicKey): Jwk {
    Jwk("RSA", kid, EncodeToString(BigBytes(key.n)), EncodeToString(BigBytes(Abs(key.e))))
  }

  function ParseRSAPublicKey(n: string, e: string): Option<PublicKey> {
    var nb, eb := DecodeString(n), DecodeString(e);
    if nb.None? || eb.None? || SetBytes(eb.value) > MAX_INT64 then None
    else Some(PublicKey(SetBytes(nb.value), SetBytes(eb.value)))
  }

  /** Main result: a published key parses back to itself iff its exponent is not negative,
      for every modulus and every 64-bit exponent. */
  lemma ParsePublished(kid: string, key: PublicKey)
    requires -MAX_INT64 - 1 <= key.e <= MAX_INT64
    ensures var w := JsonWebKey(kid, key);
            ParseRSAPublicKey(w.n, w.e) == Some(key) <==> key.e >= 0
  {
    DecodeEncode(BigBytes(key.n));
    DecodeEncode(BigBytes(Abs(key.e)));
    SetBytesBigBytes(key.n);
    SetBytesBigBytes(Abs(key.e));
  }
}
