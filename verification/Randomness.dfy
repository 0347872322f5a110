/** Passwords and backup codes drawn from random bytes: RandomPassword of internal/crypto/random.go and
    randomCode of internal/auth/mfa/backup.go.  The random source is the list of 8-byte reads it will
    return; running out of it stands for a failed read. */
module Randomness {
  import opened Common
  import BackupCodes

  const CHUNK: nat := 8
  const PASSWORD_ALPHABET: string := "abcdefghijkmnpqrstuvwxyzABCDEFGHJKLMNPQRSTUVWXYZ23456789"
  const BACKUP_ALPHABET: string := "ABCDEFGHJKMNPQRSTUVWXYZ23456789"

  newtype byte = x: int | 0 <= x < 256

  predicate Alphabet(a: string) { 1 <= |a| <= 255 }

  /** byte(256 - 256 % n): the conversion wraps 256 to 0. */
  function Cutoff(n: int): (c: int)
    requires 1 <= n <= 255
    ensures 0 <= c < 256
  {
    (256 - 256 % n) % 256
  }

  function Accepted(bytes: seq<byte>, n: int): seq<byte>
    requires 1 <= n <= 255
    decreases |bytes|
  {
    if bytes == [] then []
    else
      var k := |bytes| - 1;
      if bytes[k] as int < Cutoff(n) then Accepted(bytes[..k], n) + [bytes[k]] else Accepted(bytes[..k], n)
  }

  function Letter(b: byte, a: string): char
    requires Alphabet(a)
  {
    a[b as int % |a|]
  }

  function Spell(bytes: seq<byte>, a: string): (s: string)
    requires Alphabet(a)
    ensures |s| == |bytes|
    decreases |bytes|
  {
    if bytes == [] then "" else Spell(bytes[..|bytes| - 1], a) + [Letter(bytes[|bytes| - 1], a)]
  }

  lemma {:induction false} SpellAt(bytes: seq<byte>, a: string)
    requires Alphabet(a)
    ensures forall i :: 0 <= i < |bytes| ==> Spell(bytes, a)[i] == Letter(bytes[i], a)
    decreases |bytes|
  {
    if bytes != [] { SpellAt(bytes[..|bytes| - 1], a); }
  }

  function Flat(chunks: seq<seq<byte>>): seq<byte>
    decreases |chunks|
  {
    if chunks == [] then [] else Flat(chunks[..|chunks| - 1]) + chunks[|chunks| - 1]
  }

  lemma {:induction false} AcceptedConcat(s: seq<byte>, t: seq<byte>, n: int)
    requires 1 <= n <= 255
    ensures Accepted(s + t, n) == Accepted(s, n) + Accepted(t, n)
    decreases |t|
  {
    if t == [] {
      assert s + t == s;
    } else {
      var k := |t| - 1;
      assert (s + t)[..|s + t| - 1] == s + t[..k];
      AcceptedConcat(s, t[..k], n);
    }
  }

  lemma {:induction false} FlatConcat(s: seq<seq<byte>>, t: seq<seq<byte>>)
    ensures Flat(s + t) == Flat(s) + Flat(t)
    decreases |t|
  {
    if t == [] {
      assert s + t == s;
    } else {
      var k := |t| - 1;
      assert (s + t)[..|s + t| - 1] == s + t[..k];
      FlatConcat(s, t[..k]);
    }
  }

  /** `out` spells what the bytes up to byte `j` of chunk `next` give. */
  ghost predicate SoFar(out: string, a: string, chunks: seq<seq<byte>>, next: nat, j: nat)
    requires Alphabet(a)
  {
    && (next < |chunks| ==> j <= |chunks[next]|) && (next >= |chunks| ==> next == |chunks| && j == 0)
    && out == Spell(Accepted(Read(chunks, next, j), |a|), a)
  }

  function Read(chunks: seq<seq<byte>>, next: nat, j: nat): seq<byte>
    requires next <= |chunks| && j <= if next < |chunks| then |chunks[next]| else 0
  {
    Flat(chunks[..next]) + if next < |chunks| then chunks[next][..j] else []
  }

  lemma NothingRead(a: string, chunks: seq<seq<byte>>)
    requires Alphabet(a)
    ensures SoFar("", a, chunks, 0, 0)
  {
    assert chunks[..0] == [];
  }

  /** One more byte spells one more letter, or none. */
  lemma NextByte(out: string, a: string, chunks: seq<seq<byte>>, next: nat, j: nat)
    requires Alphabet(a) && next < |chunks| && j < |chunks[next]| && SoFar(out, a, chunks, next, j)
    ensures var b := chunks[next][j];
            SoFar(if b as int < Cutoff(|a|) then out + [Letter(b, a)] else out, a, chunks, next, j + 1)
  {
    var bytes, b := Read(chunks, next, j), chunks[next][j];
    assert Read(chunks, next, j + 1) == bytes + [b];
    assert (bytes + [b])[..|bytes|] == bytes;
  }

  lemma NextChunk(out: string, a: string, chunks: seq<seq<byte>>, next: nat)
    requires Alphabet(a) && next < |chunks| && SoFar(out, a, chunks, next, |chunks[next]|)
    ensures SoFar(out, a, chunks, next + 1, 0)
  {
    assert chunks[..next + 1][..next] == chunks[..next];
    assert Read(chunks, next + 1, 0) == Read(chunks, next, |chunks[next]|);
  }

  lemma SourceUsedUp(out: string, a: string, chunks: seq<seq<byte>>)
    requires Alphabet(a) && SoFar(out, a, chunks, |chunks|, 0)
    ensures |out| == |Accepted(Flat(chunks), |a|)|
  {
    assert Read(chunks, |chunks|, 0) == Flat(chunks) by { assert chunks[..|chunks|] == chunks; }
  }

  /** Main result on the loop: the password spells the first n accepted bytes of the whole source, wherever
      the chunks fall; it fails exactly when n is not positive or the source holds too few. */
  method RandomPassword(n: int, a: string, chunks: seq<seq<byte>>) returns (r: Option<string>)
    requires Alphabet(a) && forall i :: 0 <= i < |chunks| ==> |chunks[i]| == CHUNK
    ensures var good := Accepted(Flat(chunks), |a|);
            r == if n <= 0 || |good| < n then None else Some(Spell(good[..n], a))
  {
    hide Spell, Accepted, Flat, Cutoff, Letter, Enough, SoFar;
    if n <= 0 { return None; }
    NothingRead(a, chunks);
    var out := "";
    var alphaLen := |a|;
    var cutoff := Cutoff(alphaLen);
    var next := 0;
    while |out| < n
      invariant 0 <= next <= |chunks| && |out| <= n
      invariant |out| < n ==> SoFar(out, a, chunks, next, 0)
      invariant |out| == n ==> Enough(out, n, a, chunks)
      decreases |chunks| - next
    {
      if next == |chunks| {
        SourceUsedUp(out, a, chunks);
        return None;
      }
      var buf := chunks[next];
      for j := 0 to |buf|
        invariant |out| < n && SoFar(out, a, chunks, next, j)
      {
        NextByte(out, a, chunks, next, j);
        if buf[j] as int < cutoff {
          out := out + [Letter(buf[j], a)];
          if |out| == n {
            PrefixIsEnough(out, n, a, chunks, next, j + 1);
            break;
          }
        }
      }
      if |out| < n { NextChunk(out, a, chunks, next); }
      next := next + 1;
    }
    EnoughMeans(out, n, a, chunks);
    r := Some(out);
  }

  ghost predicate Enough(out: string, n: int, a: string, chunks: seq<seq<byte>>)
    requires Alphabet(a)
  {
    var good := Accepted(Flat(chunks), |a|);
    0 <= n <= |good| && out == Spell(good[..n], a)
  }

  lemma EnoughMeans(out: string, n: int, a: string, chunks: seq<seq<byte>>)
    requires Alphabet(a) && Enough(out, n, a, chunks)
    ensures var good := Accepted(Flat(chunks), |a|); 0 <= n <= |good| && out == Spell(good[..n], a)
  {}

  lemma FlatAround(chunks: seq<seq<byte>>, next: nat, j: nat)
    requires next < |chunks| && j <= |chunks[next]|
    ensures Flat(chunks) == (Flat(chunks[..next]) + chunks[next][..j]) + (chunks[next][j..] + Flat(chunks[next + 1..]))
  {
    var upto := chunks[..next + 1];
    assert chunks == upto + chunks[next + 1..] && upto[..next] == chunks[..next];
    FlatConcat(upto, chunks[next + 1..]);
    assert chunks[next] == chunks[next][..j] + chunks[next][j..];
  }

  lemma PrefixIsEnough(out: string, n: int, a: string, chunks: seq<seq<byte>>, next: nat, j: nat)
    requires Alphabet(a) && next < |chunks| && SoFar(out, a, chunks, next, j) && |out| == n
    ensures Enough(out, n, a, chunks)
  {
    var first := Accepted(Read(chunks, next, j), |a|);
    FlatAround(chunks, next, j);
    AcceptedConcat(Read(chunks, next, j), chunks[next][j..] + Flat(chunks[next + 1..]), |a|);
    assert Accepted(Flat(chunks), |a|)[..n] == first;
  }

  // ----- counting -----

  /** The values below `limit` that leave remainder c. */
  function Residues(limit: nat, n: nat, c: nat): set<int>
    requires n > 0
  {
    set b | 0 <= b < limit && b % n == c
  }

  lemma DivStep(x: nat, n: nat)
    requires n > 0
    ensures if x % n == n - 1 then (x + 1) / n == x / n + 1 && (x + 1) % n == 0
            else (x + 1) / n == x / n && (x + 1) % n == x % n + 1
  {
    var q, r := x / n, x % n;
    assert x == q * n + r;
    if r == n - 1 {
      assert x + 1 == (q + 1) * n;
      Quotient(x + 1, n, q + 1, 0);
    } else {
      Quotient(x + 1, n, q, r + 1);
    }
  }

  lemma {:induction false} ResidueCount(limit: nat, n: nat, c: nat)
    requires c < n
    ensures |Residues(limit, n, c)| == limit / n + (if c < limit % n then 1 else 0)
  {
    if limit == 0 {
      assert Residues(0, n, c) == {};
      Quotient(0, n, 0, 0);
    } else {
      var x := limit - 1;
      ResidueCount(x, n, c);
      DivStep(x, n);
      if x % n == c {
        assert Residues(limit, n, c) == Residues(x, n, c) + {x};
      } else {
        assert Residues(limit, n, c) == Residues(x, n, c);
      }
    }
  }

  /** The accepted byte values that pick position c. */
  function Draws(n: nat, c: nat): set<int>
    requires 1 <= n <= 255
  {
    set b | 0 <= b < 256 && b < Cutoff(n) && b % n == c
  }

  lemma CutoffIsMultiple(n: nat)
    requires 1 <= n <= 255
    ensures Cutoff(n) % n == 0 && (Cutoff(n) == 0 <==> 256 % n == 0)
    ensures 256 % n != 0 ==> Cutoff(n) == 256 - 256 % n > 256 - n
  {
    if 256 % n == 0 {
      assert Cutoff(n) == 0;
    } else {
      var q := 256 / n;
      assert Cutoff(n) == q * n;
      Quotient(q * n, n, q, 0);
      assert q > 0;
    }
  }

  /** Unbiased, one character at a time: every position of the alphabet is picked by the same number of
      accepted bytes, and a whole multiple of the alphabet is accepted. */
  lemma EachCharacterAlike(n: nat, c: nat)
    requires 1 <= n <= 255 && c < n
    ensures |Draws(n, c)| == Cutoff(n) / n && Cutoff(n) % n == 0
  {
    CutoffIsMultiple(n);
    assert Draws(n, c) == Residues(Cutoff(n), n, c);
    ResidueCount(Cutoff(n), n, c);
  }

  /** The byte strings, accepted throughout, that spell the positions `cs`. */
  ghost function DrawsOf(n: nat, cs: seq<nat>): set<seq<int>>
    requires 1 <= n <= 255
    decreases |cs|
  {
    if cs == [] then {[]}
    else Product(Draws(n, cs[0]), DrawsOf(n, cs[1..]))
  }

  lemma {:induction false} DrawsOfMeans(n: nat, cs: seq<nat>, bytes: seq<int>)
    requires 1 <= n <= 255
    ensures bytes in DrawsOf(n, cs) <==> |bytes| == |cs| && forall i :: 0 <= i < |cs| ==> bytes[i] in Draws(n, cs[i])
    decreases |cs|
  {
    if cs != [] {
      if |bytes| == |cs| {
        DrawsOfMeans(n, cs[1..], bytes[1..]);
        assert bytes == [bytes[0]] + bytes[1..];
        assert (forall i :: 0 <= i < |cs| ==> bytes[i] in Draws(n, cs[i])) <==>
               bytes[0] in Draws(n, cs[0]) && forall i :: 0 <= i < |cs| - 1 ==>
                     bytes[1..][i] in Draws(n, cs[1..][i]) by {
          if bytes[0] in Draws(n, cs[0]) && forall i :: 0 <= i < |cs| - 1 ==> bytes[1..][i] in Draws(n, cs[1..][i]) {
            forall i | 0 <= i < |cs| ensures bytes[i] in Draws(n, cs[i]) {
              if i > 0 { assert bytes[1..][i - 1] in Draws(n, cs[1..][i - 1]); }
            }
          }
        }
        if bytes in DrawsOf(n, cs) {
          var b, rest :| b in Draws(n, cs[0]) && rest in DrawsOf(n, cs[1..]) && bytes == [b] + rest;
          assert bytes[1..] == rest;
        }
      } else if bytes in DrawsOf(n, cs) {
        var b, rest :| b in Draws(n, cs[0]) && rest in DrawsOf(n, cs[1..]) && bytes == [b] + rest;
        DrawsOfMeans(n, cs[1..], rest);
      }
    }
  }

  ghost function Product<T>(bs: set<T>, rests: set<seq<T>>): set<seq<T>> {
    set b, rest | b in bs && rest in rests :: [b] + rest
  }

  lemma Split<T>(x: T, bs: set<T>, rests: set<seq<T>>)
    requires x in bs
    ensures Product(bs, rests) == Product(bs - {x}, rests) + Prepend(x, rests)
    ensures Product(bs - {x}, rests) !! Prepend(x, rests)
  {
    forall s | s in Product(bs, rests)
      ensures s in Product(bs - {x}, rests) || s in Prepend(x, rests)
    {
      var b, rest :| b in bs && rest in rests && s == [b] + rest;
      if b != x { assert b in bs - {x}; }
    }
    forall s | s in Product(bs - {x}, rests) ensures s[0] != x {}
  }

  lemma Times(a: nat, b: nat)
    ensures (a + 1) * b == a * b + b
  {}

  lemma Pick<T>(bs: set<T>) returns (x: T)
    requires bs != {}
    ensures x in bs
  {
    x :| x in bs;
  }

  lemma {:induction false} ProductSize<T>(bs: set<T>, rests: set<seq<T>>)
    ensures |Product(bs, rests)| == |bs| * |rests|
    decreases bs
  {
    if bs == {} {
      assert Product(bs, rests) == {};
    } else {
      var x := Pick(bs);
      ProductSize(bs - {x}, rests);
      PrependSize(x, rests);
      Split(x, bs, rests);
      assert |bs| == |bs - {x}| + 1;
      Times(|bs - {x}|, |rests|);
    }
  }

  ghost function Prepend<T>(x: T, rests: set<seq<T>>): set<seq<T>> { set rest | rest in rests :: [x] + rest }

  lemma {:induction false} PrependSize<T>(x: T, rests: set<seq<T>>)
    ensures |Prepend(x, rests)| == |rests|
    decreases rests
  {
    if rests == {} {
      assert Prepend(x, rests) == {};
    } else {
      var r :| r in rests;
      PrependSize(x, rests - {r});
      forall t | t in rests - {r}
        ensures [x] + t != [x] + r
      {
        assert ([x] + t)[1..] == t && ([x] + r)[1..] == r;
      }
      assert Prepend(x, rests) == Prepend(x, rests - {r}) + {[x] + r};
    }
  }

  function Power(b: nat, e: nat): nat { if e == 0 then 1 else b * Power(b, e - 1) }

  /** Unbiased, whole passwords: every choice of positions is spelt by equally many accepted byte strings. */
  lemma {:induction false} EveryPasswordAlike(n: nat, cs: seq<nat>)
    requires 1 <= n <= 255 && forall i :: 0 <= i < |cs| ==> cs[i] < n
    ensures |DrawsOf(n, cs)| == Power(Cutoff(n) / n, |cs|)
    decreases |cs|
  {
    if cs != [] {
      EveryPasswordAlike(n, cs[1..]);
      EachCharacterAlike(n, cs[0]);
      ProductSize(Draws(n, cs[0]), DrawsOf(n, cs[1..]));
    }
  }

  predicate NoRepeats(a: string) { forall i, j :: 0 <= i < j < |a| ==> a[i] != a[j] }

  /** The letters of an alphabet at the given positions. */
  function Letters(cs: seq<nat>, a: string): string
    requires forall i :: 0 <= i < |cs| ==> cs[i] < |a|
  {
    seq(|cs|, i requires 0 <= i < |cs| => a[cs[i]])
  }

  function Ints(bytes: seq<byte>): seq<int> { seq(|bytes|, i requires 0 <= i < |bytes| => bytes[i] as int) }

  /** For an alphabet without repeats the strings just counted are exactly the accepted byte strings that spell the
      password: so RandomPassword yields every password of a length from equally many byte strings. */
  lemma SpellIffDraws(a: string, cs: seq<nat>, bytes: seq<byte>)
    requires Alphabet(a) && NoRepeats(a) && forall i :: 0 <= i < |cs| ==> cs[i] < |a|
    ensures Accepted(bytes, |a|) == bytes && Spell(bytes, a) == Letters(cs, a) <==> Ints(bytes) in DrawsOf(|a|, cs)
  {
    var word := Letters(cs, a);
    DrawsOfMeans(|a|, cs, Ints(bytes));
    SpellAt(bytes, a);
    AllAccepted(bytes, |a|);
    hide Accepted, Spell, DrawsOf, Cutoff;
    if |bytes| == |cs| {
      forall i | 0 <= i < |cs|
        ensures Ints(bytes)[i] in Draws(|a|, cs[i]) <==> InReach(bytes[i], |a|) && Spell(bytes, a)[i] == word[i]
      {
        SameLetter(a, bytes[i] as int % |a|, cs[i]);
      }
    }
  }

  predicate InReach(b: byte, n: nat)
    requires 1 <= n <= 255
  {
    b as int < Cutoff(n)
  }

  lemma SameLetter(a: string, i: int, j: int)
    requires NoRepeats(a) && 0 <= i < |a| && 0 <= j < |a|
    ensures a[i] == a[j] <==> i == j
  {}

  lemma {:induction false} AllAccepted(bytes: seq<byte>, n: nat)
    requires 1 <= n <= 255
    ensures |Accepted(bytes, n)| <= |bytes|
    ensures Accepted(bytes, n) == bytes <==> forall i :: 0 <= i < |bytes| ==> InReach(bytes[i], n)
    decreases |bytes|
  {
    if bytes != [] {
      var k := |bytes| - 1;
      AllAccepted(bytes[..k], n);
      assert bytes == bytes[..k] + [bytes[k]];
      if InReach(bytes[k], n) {
        assert Accepted(bytes, n) == Accepted(bytes[..k], n) + [bytes[k]];
        if Accepted(bytes, n) == bytes { assert Accepted(bytes, n)[..|Accepted(bytes, n)| - 1] == bytes[..k]; }
        assert forall i :: 0 <= i < k ==> bytes[..k][i] == bytes[i];
      }
    }
  }

  /** An alphabet whose size divides 256 wraps the cutoff to zero: then, and only then, no byte is ever
      accepted and no password is ever completed, however long the source. */
  lemma {:induction false} StarvesIffDivides(n: nat)
    requires 1 <= n <= 255
    ensures 256 % n == 0 <==> forall bytes: seq<byte> :: Accepted(bytes, n) == []
  {
    CutoffIsMultiple(n);
    if 256 % n == 0 {
      forall bytes: seq<byte> ensures Accepted(bytes, n) == [] { NothingAccepted(bytes, n); }
    } else {
      var one: seq<byte> := [0];
      assert one[..0] == [];
      assert Accepted(one, n) != [];
    }
  }

  lemma {:induction false} NothingAccepted(bytes: seq<byte>, n: nat)
    requires 1 <= n <= 255 && Cutoff(n) == 0
    ensures Accepted(bytes, n) == []
    decreases |bytes|
  {
    if bytes != [] { NothingAccepted(bytes[..|bytes| - 1], n); }
  }

  /** The shipped alphabet has 56 letters: each is picked by 4 of the 224 accepted bytes. */
  lemma ShippedPasswords(c: nat)
    requires c < |PASSWORD_ALPHABET|
    ensures |PASSWORD_ALPHABET| == 56 && Cutoff(56) == 224 && |Draws(56, c)| == 4
  {
    assert |PASSWORD_ALPHABET| == 56;
    EachCharacterAlike(56, c);
  }

  // ----- backup codes -----

  method RandomCode(buf: seq<byte>) returns (code: string)
    ensures var raw := Spell(buf, BACKUP_ALPHABET);
            code == if |buf| == 8 then raw[..4] + "-" + raw[4..] else raw
  {
    var out := "";
    for i := 0 to |buf|
      invariant out == Spell(buf[..i], BACKUP_ALPHABET)
    {
      assert buf[..i + 1][..i] == buf[..i];
      out := out + [BACKUP_ALPHABET[buf[i] as int % |BACKUP_ALPHABET|]];
    }
    assert buf[..|buf|] == buf;
    if |buf| == 8 { return out[..4] + "-" + out[4..]; }
    code := out;
  }

  /** No rejection here, so the first 8 of the 31 letters are picked by 9 byte values and the others by 8. */
  lemma CodeBias(c: nat)
    requires c < |BACKUP_ALPHABET|
    ensures |Residues(256, |BACKUP_ALPHABET|, c)| == if c < 8 then 9 else 8
  {
    assert |BACKUP_ALPHABET| == 31;
    ResidueCount(256, 31, c);
  }

  lemma PlainLetter(c: nat)
    requires c < |BACKUP_ALPHABET|
    ensures !BackupCodes.Separator(BACKUP_ALPHABET[c]) && BackupCodes.Upper(BACKUP_ALPHABET[c]) == BACKUP_ALPHABET[c]
  {}

  lemma {:induction false} SpellIsNormal(buf: seq<byte>)
    ensures BackupCodes.Normalize(Spell(buf, BACKUP_ALPHABET)) == Spell(buf, BACKUP_ALPHABET)
    decreases |buf|
  {
    if buf != [] {
      var s := Spell(buf, BACKUP_ALPHABET);
      SpellAt(buf, BACKUP_ALPHABET);
      SpellAt(buf[1..], BACKUP_ALPHABET);
      PlainLetter(buf[0] as int % |BACKUP_ALPHABET|);
      assert s[1..] == Spell(buf[1..], BACKUP_ALPHABET);
      SpellIsNormal(buf[1..]);
    }
  }

  /** The code shown to the user, dash and all, normalises to the bare letters that are hashed. */
  lemma IssuedCodeNormalises(buf: seq<byte>)
    requires |buf| == 8
    ensures var raw := Spell(buf, BACKUP_ALPHABET);
            BackupCodes.Normalize(raw[..4] + "-" + raw[4..]) == raw
  {
    SpellIsNormal(buf);
    DashIsDropped(Spell(buf, BACKUP_ALPHABET));
  }

  lemma DashIsDropped(raw: string)
    requires |raw| == 8
    ensures BackupCodes.Normalize(raw[..4] + "-" + raw[4..]) == BackupCodes.Normalize(raw)
  {
    BackupCodes.NormalizeAround(raw[..4], "-", raw[4..]);
    BackupCodes.NormalizeOne('-');
    BackupCodes.NormalizeConcat(raw[..4], raw[4..]);
    assert raw == raw[..4] + raw[4..];
  }
}
