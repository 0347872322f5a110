/** Signing keys through rotation: internal/crypto/signing.go loads them from a directory, signs with the last
    and publishes all of them; cmd/rotate-key/main.go adds one; JWKSCache of internal/crypto/jwt.go looks them
    up by kid.  RSA is ideal: a signature verifies under a key iff that key made it. */
module KeyManager {
  import opened Common
  import opened KeyFiles
  import opened Codec

  // ----- loading -----

  datatype Entry = Folder | Broken | Pem(key: PublicKey)
  type Dir = map<string, Entry>
  datatype Loaded = Loaded(source: string, key: PublicKey)

  predicate PemName(name: string) {
    var n := |name|;
    n >= 4 && name[n - 4] == '.' && LowerChar(name[n - 3]) == 'p' && LowerChar(name[n - 2]) == 'e' &&
        LowerChar(name[n - 1]) == 'm'
  }

  /** The name ends in .pem, in letters of either case. */
  lemma PemNameMeans(name: string)
    ensures PemName(name) <==> |name| >= 4 && Lower(name[|name| - 4..]) == ".pem"
  {
    if |name| >= 4 {
      var t := Lower(name[|name| - 4..]);
      assert t == [t[0], t[1], t[2], t[3]];
    }
  }

  predicate Usable(dir: Dir, name: string) { name in dir && dir[name].Pem? && PemName(name) }

  /** os.ReadDir lists a directory in the order of sort.Strings. */
  ghost predicate Listing(dir: Dir, names: seq<string>) {
    && (forall name :: name in names <==> name in dir)
    && (forall i, j :: 0 <= i < j < |names| ==> Less(names[i], names[j]))
  }

  function Load(dir: Dir, names: seq<string>): seq<Loaded>
    decreases |names|
  {
    if names == [] then []
    else
      var n := |names| - 1;
      if Usable(dir, names[n]) then Load(dir, names[..n]) + [Loaded(names[n], dir[names[n]].key)]
      else Load(dir, names[..n])
  }

  lemma {:induction false} LoadFinds(dir: Dir, names: seq<string>)
    ensures forall l :: l in Load(dir, names) <==>
              l.source in names && Usable(dir, l.source) && l.key == dir[l.source].key
    ensures Load(dir, names) == [] <==> forall name :: name in names ==> !Usable(dir, name)
    decreases |names|
  {
    if names != [] {
      var n := |names| - 1;
      LoadFinds(dir, names[..n]);
      assert forall name :: name in names <==> name in names[..n] || name == names[n];
      if Usable(dir, names[n]) { assert Loaded(names[n], dir[names[n]].key) in Load(dir, names); }
    }
  }

  /** The last loaded name is the greatest usable one. */
  lemma {:induction false} LoadLast(dir: Dir, names: seq<string>, name: string)
    requires forall i, j :: 0 <= i < j < |names| ==> Less(names[i], names[j])
    requires name in names && Usable(dir, name)
    ensures var ls := Load(dir, names);
            ls != [] && (ls[|ls| - 1].source == name || Less(name, ls[|ls| - 1].source))
            && ls[|ls| - 1].source in names && Usable(dir, ls[|ls| - 1].source)
    decreases |names|
  {
    var n := |names| - 1;
    if !Usable(dir, names[n]) {
      LoadLast(dir, names[..n], name);
    } else {
      var i :| 0 <= i < |names| && names[i] == name;
    }
  }

  // ----- publishing and looking up -----

  /** computeKID: base64url of the first eight bytes of the modulus. */
  function ComputeKid(key: PublicKey): string {
    var n := BigBytes(key.n);
    EncodeToString(if |n| > 8 then n[..8] else n)
  }

  class KeyManager {
    var primary: Loaded
    var retiring: seq<Loaded>

    ghost predicate Holds(ls: seq<Loaded>)
      reads this
    {
      ls != [] && primary == ls[|ls| - 1] && retiring == ls[..|ls| - 1]
    }

    constructor (ls: seq<Loaded>)
      requires ls != []
      ensures Holds(ls)
    {
      primary := ls[|ls| - 1];
      retiring := ls[..|ls| - 1];
    }

    /** A directory without a usable key is an error. */
    static method LoadFromDir(dir: Dir, names: seq<string>) returns (km: Option<KeyManager>)
      ensures km.None? <==> forall name :: name in names ==> !Usable(dir, name)
      ensures km.Some? ==> fresh(km.value) && km.value.Holds(Load(dir, names))
    {
      var loaded: seq<Loaded> := [];
      var i := 0;
      while i < |names|
        invariant 0 <= i <= |names|
        invariant loaded == Load(dir, names[..i])
      {
        assert names[..i + 1][..i] == names[..i];
        if names[i] in dir && dir[names[i]].Pem? && PemName(names[i]) {
          loaded := loaded + [Loaded(names[i], dir[names[i]].key)];
        }
        i := i + 1;
      }
      assert names[..i] == names;
      LoadFinds(dir, names);
      if |loaded| == 0 { return None; }
      var loadedKeys := new KeyManager(loaded);
      km := Some(loadedKeys);
    }

    method JWKS() returns (doc: seq<Jwk>)
      ensures forall ls :: Holds(ls) ==> doc == Publish(ls)
    {
      hide JsonWebKey, ComputeKid;
      doc := [JsonWebKey(ComputeKid(primary.key), primary.key)];
      for i := 0 to |retiring|
        invariant doc == [JsonWebKey(ComputeKid(primary.key), primary.key)] + Entries(retiring[..i])
      {
        assert retiring[..i + 1][..i] == retiring[..i];
        doc := doc + [JsonWebKey(ComputeKid(retiring[i].key), retiring[i].key)];
      }
      assert retiring[..|retiring|] == retiring;
    }
  }

  function Entries(ls: seq<Loaded>): seq<Jwk>
    decreases |ls|
  {
    if ls == [] then []
    else
      var l := ls[|ls| - 1];
      Entries(ls[..|ls| - 1]) + [JsonWebKey(ComputeKid(l.key), l.key)]
  }

  /** The primary first, then the retiring keys. */
  function Publish(ls: seq<Loaded>): seq<Jwk>
    requires ls != []
  {
    Entries(ls[|ls| - 1..]) + Entries(ls[..|ls| - 1])
  }

  /** The map that refresh builds: entries of another type and malformed ones are skipped, a later entry replaces an
      earlier one. */
  function Index(doc: seq<Jwk>): map<string, PublicKey>
    decreases |doc|
  {
    if doc == [] then map[]
    else
      var k := doc[|doc| - 1];
      var pub := ParseRSAPublicKey(k.n, k.e);
      if k.kty != "RSA" || pub.None? then Index(doc[..|doc| - 1]) else Index(doc[..|doc| - 1])[k.kid := pub.value]
  }

  const DEFAULT_TTL: Time := 15 * 60

  predicate Readable(k: Jwk) { k.kty == "RSA" && ParseRSAPublicKey(k.n, k.e).Some? }

  /** A kid resolves exactly when some readable RSA entry has it, and to what the last such entry says. */
  lemma {:induction false} IndexMeans(doc: seq<Jwk>, kid: string)
    ensures kid in Index(doc) <==> exists i :: 0 <= i < |doc| && doc[i].kid == kid && Readable(doc[i])
    ensures kid in Index(doc) ==>
              exists i :: 0 <= i < |doc| && doc[i].kid == kid && Readable(doc[i])
                          && ParseRSAPublicKey(doc[i].n, doc[i].e) == Some(Index(doc)[kid])
                          && forall j :: i < j < |doc| && doc[j].kid == kid ==> !Readable(doc[j])
    decreases |doc|
  {
    hide ParseRSAPublicKey;
    if doc != [] {
      var n := |doc| - 1;
      IndexMeans(doc[..n], kid);
      assert forall i :: 0 <= i < n ==> doc[..n][i] == doc[i];
      if Readable(doc[n]) && doc[n].kid == kid {
        assert ParseRSAPublicKey(doc[n].n, doc[n].e) == Some(Index(doc)[kid]);
      } else if kid in Index(doc[..n]) {
        var i :| 0 <= i < n && doc[..n][i].kid == kid && Readable(doc[..n][i])
                 && ParseRSAPublicKey(doc[..n][i].n, doc[..n][i].e) == Some(Index(doc[..n])[kid])
                 && forall j :: i < j < n && doc[..n][j].kid == kid ==> !Readable(doc[..n][j]);
        assert doc[i] == doc[..n][i];
        forall j | i < j < |doc| && doc[j].kid == kid ensures !Readable(doc[j]) {
          if j < n { assert doc[..n][j] == doc[j]; }
        }
      }
    }
  }

  /** The document lists the primary first and then the retiring keys in loading order, each under the kid of its own
      key: the base64url text of the first eight bytes of the modulus. */
  lemma PublishOrder(ls: seq<Loaded>, i: nat)
    requires i < |ls|
    ensures |Publish(ls)| == |ls|
    ensures var key := ls[if i == 0 then |ls| - 1 else i - 1].key;
            && Publish(ls)[i].kid == ComputeKid(key)
            && Publish(ls)[i].n == EncodeToString(BigBytes(key.n))
            && DecodeString(Publish(ls)[i].kid) ==
                 Some(BigBytes(key.n)[..if |BigBytes(key.n)| < 8 then |BigBytes(key.n)| else 8])
  {
    hide BigBytes, EncodeToString, DecodeString;
    var n := |ls| - 1;
    EntriesAt(ls[n..]);
    EntriesAt(ls[..n]);
    var key := ls[if i == 0 then n else i - 1].key;
    var b := BigBytes(key.n);
    assert b[..|b|] == b;
    DecodeEncode(if |b| > 8 then b[..8] else b);
  }

  lemma {:induction false} EntriesAt(ls: seq<Loaded>)
    ensures |Entries(ls)| == |ls|
    ensures forall i :: 0 <= i < |ls| ==> Entries(ls)[i] == JsonWebKey(ComputeKid(ls[i].key), ls[i].key)
    decreases |ls|
  {
    hide JsonWebKey, ComputeKid;
    if ls != [] { EntriesAt(ls[..|ls| - 1]); }
  }

  class JWKSCache {
    const ttl: Time
    var keys: map<string, PublicKey>
    var expiresAt: Time

    constructor (ttl: Time)
      ensures keys == map[] && expiresAt == 0 && this.ttl == if ttl == 0 then 15 * 60 else ttl
    {
      this.ttl := if ttl == 0 then DEFAULT_TTL else ttl;
      keys := map[];
      expiresAt := 0;
    }

    /** `answer` is what the endpoint serves; None stands for a failed fetch. */
    method Refresh(now: Time, answer: Option<seq<Jwk>>) returns (ok: bool)
      modifies this
      ensures ok == answer.Some?
      ensures keys == if ok then Index(answer.value) else old(keys)
      ensures expiresAt == if ok then now + ttl else old(expiresAt)
    {
      if answer.None? { return false; }
      var built: map<string, PublicKey> := map[];
      var doc := answer.value;
      for i := 0 to |doc|
        invariant built == Index(doc[..i])
      {
        assert doc[..i + 1][..i] == doc[..i];
        var pub := ParseRSAPublicKey(doc[i].n, doc[i].e);
        if doc[i].kty == "RSA" && pub.Some? { built := built[doc[i].kid := pub.value]; }
      }
      assert doc[..|doc|] == doc;
      keys, expiresAt, ok := built, now + ttl, true;
    }

    method GetKey(kid: string, now: Time, answer: Option<seq<Jwk>>) returns (key: Option<PublicKey>)
      modifies this
      ensures key == Lookup(old(keys), old(expiresAt), kid, now, answer)
      ensures key == (if kid in old(keys) && now < old(expiresAt) then Some(old(keys)[kid])
                      else if answer.Some? && kid in keys then Some(keys[kid]) else None)
      ensures var fetched := !(kid in old(keys) && now < old(expiresAt)) && answer.Some?;
              && keys == (if fetched then Index(answer.value) else old(keys))
              && expiresAt == (if fetched then now + ttl else old(expiresAt))
    {
      if kid in keys && now < expiresAt { return Some(keys[kid]); }
      var ok := Refresh(now, answer);
      if !ok { return None; }
      key := if kid in keys then Some(keys[kid]) else None;
    }
  }

  function Lookup(keys: map<string, PublicKey>, expiresAt: Time, kid: string, now: Time, answer: Option<seq<Jwk>>):
    Option<PublicKey>
  {
    if kid in keys && now < expiresAt then Some(keys[kid])
    else if answer.Some? && kid in Index(answer.value) then Some(Index(answer.value)[kid])
    else None
  }

  predicate Genuine(key: PublicKey) { 0 <= key.e <= MAX_INT64 }

  ghost predicate DistinctKids(keys: set<PublicKey>) {
    && (forall k :: k in keys ==> Genuine(k))
    && (forall j, k :: j in keys && k in keys && ComputeKid(j) == ComputeKid(k) ==> j == k)
  }

  lemma Published(key: PublicKey)
    requires Genuine(key)
    ensures var k := JsonWebKey(ComputeKid(key), key);
            k.kty == "RSA" && k.kid == ComputeKid(key) && ParseRSAPublicKey(k.n, k.e) == Some(key)
  {
    ParsePublished(ComputeKid(key), key);
  }

  /** With distinct kids the published document resolves exactly the loaded keys. */
  lemma {:induction false} EntriesResolve(ls: seq<Loaded>, keys: set<PublicKey>)
    requires DistinctKids(keys) && forall l :: l in ls ==> l.key in keys
    ensures forall l :: l in ls ==>
              ComputeKid(l.key) in Index(Entries(ls)) && Index(Entries(ls))[ComputeKid(l.key)] == l.key
    ensures forall kid :: kid in Index(Entries(ls)) ==> exists l :: l in ls && ComputeKid(l.key) == kid
    decreases |ls|
  {
    hide ComputeKid, ParseRSAPublicKey, JsonWebKey;
    if ls != [] {
      var n := |ls| - 1;
      EntriesResolve(ls[..n], keys);
      Published(ls[n].key);
      var doc := Entries(ls);
      assert doc[..|doc| - 1] == Entries(ls[..n]);
      assert forall l :: l in ls <==> l in ls[..n] || l == ls[n];
    }
  }

  lemma {:induction false} EntriesConcat(a: seq<Loaded>, b: seq<Loaded>)
    ensures Entries(a + b) == Entries(a) + Entries(b)
    decreases |b|
  {
    if b == [] {
      assert a + b == a;
    } else {
      assert (a + b)[..|a + b| - 1] == a + b[..|b| - 1];
      EntriesConcat(a, b[..|b| - 1]);
    }
  }

  lemma PublishResolves(ls: seq<Loaded>, keys: set<PublicKey>)
    requires ls != [] && DistinctKids(keys) && forall l :: l in ls ==> l.key in keys
    ensures var m := Index(Publish(ls));
            && (forall l :: l in ls ==> ComputeKid(l.key) in m && m[ComputeKid(l.key)] == l.key)
            && (forall kid :: kid in m ==> exists l :: l in ls && ComputeKid(l.key) == kid && m[kid] == l.key)
  {
    var n := |ls| - 1;
    var order := ls[n..] + ls[..n];
    EntriesConcat(ls[n..], ls[..n]);
    assert forall l :: l in ls <==> l in order by { assert ls == ls[..n] + ls[n..]; }
    EntriesResolve(order, keys);
  }

  // ----- every run of rotate, restart, sign and remove -----

  /** `source` is the file whose key signed the token. */
  datatype Token = Token(source: string, key: PublicKey, expires: Time)

  /** `max` is the longest token lifetime.  `ceased` remembers, for each file that was primary and no longer is,
      when it stopped; `known` every key that was ever made. */
  datatype World = World(max: Time, now: Time, dir: Dir, server: seq<Loaded>, tokens: set<Token>,
                         ceased: map<string, Time>, known: set<PublicKey>)

  datatype Event =
    | Tick(to: Time)
    | Rotate(key: PublicKey)
    | Restart(names: seq<string>)
    | Sign(lifetime: Time)
    | Remove(name: string)

  function Primary(w: World): Loaded
    requires w.server != []
  {
    w.server[|w.server| - 1]
  }

  ghost predicate Enabled(w: World, ev: Event) {
    match ev
    case Tick(to) => w.now <= to
    case Rotate(key) => Printable(w.now)
    case Restart(names) => Listing(w.dir, names)
    case Sign(lifetime) => w.server != [] && lifetime <= w.max
    case Remove(name) => true
  }

  /** The final rename of rotate-key replaces a file of that name; a directory in its place is an error. */
  function Renamed(dir: Dir, name: string, key: PublicKey): Dir {
    if name in dir && dir[name].Folder? then dir else dir[name := Pem(key)]
  }

  ghost function Apply(w: World, ev: Event): World
    requires Enabled(w, ev)
  {
    match ev
    case Tick(to) => w.(now := to)
    case Rotate(key) => w.(dir := Renamed(w.dir, KeyFile(w.now), key), known := w.known + {key})
    case Restart(names) =>
      var server := Load(w.dir, names);
      if server == [] then w.(server := [])
      else
        var p := server[|server| - 1].source;
        w.(server := server,
           ceased := (if w.server != [] && Primary(w).source != p then w.ceased[Primary(w).source := w.now]
                      else w.ceased) - {p})
    case Sign(lifetime) =>
      w.(tokens := w.tokens + {Token(Primary(w).source, Primary(w).key, w.now + lifetime)})
    case Remove(name) => w.(dir := w.dir - {name})
  }

  /** The operator's rule: a file goes only once it has not been primary for the longest token lifetime.  And what
      chance gives: every key made is a new one, with a kid of its own. */
  ghost predicate Careful(w: World, ev: Event) {
    match ev
    case Remove(name) =>
      && w.server != [] && name != Primary(w).source
      && (name in w.ceased ==> w.ceased[name] + w.max <= w.now)
    case Rotate(key) => key !in w.known && DistinctKids(w.known + {key})
    case _ => true
  }

  ghost predicate ValidRun(w: World, evs: seq<Event>)
    decreases |evs|
  {
    evs == [] || (Enabled(w, evs[0]) && Careful(w, evs[0]) && ValidRun(Apply(w, evs[0]), evs[1..]))
  }

  ghost function Run(w: World, evs: seq<Event>): World
    requires ValidRun(w, evs)
    decreases |evs|
  {
    if evs == [] then w else Run(Apply(w, evs[0]), evs[1..])
  }

  // ----- what happened to the files -----

  /** The directory as the events make it, and as the last restart found it; the keys whose file some rotation has
      replaced, and those of them that were replaced before the last restart. */
  datatype Trace = Trace(now: Time, dir: Dir, boot: Dir, replaced: set<PublicKey>, gone: set<PublicKey>)

  ghost function Note(t: Trace, ev: Event): Trace {
    match ev
    case Tick(to) => t.(now := to)
    case Rotate(key) =>
      if !Printable(t.now) then t
      else
        var name := KeyFile(t.now);
        t.(dir := Renamed(t.dir, name, key),
           replaced := if Usable(t.dir, name) then t.replaced + {t.dir[name].key} else t.replaced)
    case Restart(_) => t.(boot := t.dir, gone := t.replaced)
    case Sign(_) => t
    case Remove(name) => t.(dir := t.dir - {name})
  }

  /** A function of the events and of the directory they start from; no server and no token is looked at. */
  ghost function Track(t: Trace, evs: seq<Event>): Trace
    decreases |evs|
  {
    if evs == [] then t else Track(Note(t, evs[0]), evs[1..])
  }

  function Begun(w: World): Trace { Trace(w.now, w.dir, w.dir, {}, {}) }

  predicate OnDisk(dir: Dir, key: PublicKey) { exists name :: name in dir && Usable(dir, name) && dir[name].key == key }

  /** A rotation replaced the key's file, a restart followed, and no copy of the key was left for that restart. */
  predicate Lost(t: Trace, key: PublicKey) { key in t.gone && !OnDisk(t.boot, key) }

  // ----- what every step keeps -----

  predicate Intact(dir: Dir, source: string, key: PublicKey) { Usable(dir, source) && dir[source].key == key }

  ghost predicate InServer(w: World, key: PublicKey) { exists l :: l in w.server && l.key == key }

  ghost predicate KeyAt(w: World, name: string) {
    name in w.dir && w.dir[name].Pem? ==> w.dir[name].key in w.known
  }

  /** While a token lives its file is intact or was replaced, and its key is loaded or lost.  It was signed by the
      present primary's file, or by one that stopped less than the longest lifetime ago. */
  ghost predicate TokenAt(w: World, t: Trace, k: Token) {
    k in w.tokens ==>
      && w.server != [] && k.expires <= w.now + w.max && k.key in w.known
      && (k.source == Primary(w).source || (k.source in w.ceased && k.expires <= w.ceased[k.source] + w.max))
      && (k.expires > w.now ==>
            && (Intact(w.dir, k.source, k.key) || k.key in t.replaced)
            && (InServer(w, k.key) || Lost(t, k.key)))
  }

  ghost predicate ServerOk(w: World, t: Trace) {
    && w.server != []
    && (forall l :: l in w.server ==> l.key in w.known && !Lost(t, l.key))
    && Usable(w.dir, Primary(w).source)
    && (w.dir[Primary(w).source].key == Primary(w).key || Primary(w).key in t.replaced)
  }

  ghost predicate Inv(w: World, t: Trace) {
    && t.now == w.now && t.dir == w.dir && DistinctKids(w.known) && ServerOk(w, t)
    && (forall name {:trigger KeyAt(w, name)} :: KeyAt(w, name))
    && (forall k {:trigger TokenAt(w, t, k)} :: TokenAt(w, t, k))
  }

  lemma KeepsRestart(w: World, t: Trace, names: seq<string>)
    requires Inv(w, t) && Enabled(w, Restart(names))
    ensures Inv(Apply(w, Restart(names)), Note(t, Restart(names)))
  {
    hide Less, ComputeKid, PemName;
    var w', t' := Apply(w, Restart(names)), Note(t, Restart(names));
    LoadLast(w.dir, names, Primary(w).source);
    forall l
      ensures l in w'.server <==> Intact(w.dir, l.source, l.key)
    {
      LoadFinds(w.dir, names);
    }
    hide Load;
    assert Primary(w') in w'.server;
    forall name ensures KeyAt(w', name) { assert KeyAt(w, name); }
    forall l | l in w'.server ensures l.key in w'.known && !Lost(t', l.key) { assert KeyAt(w, l.source); }
    forall k ensures TokenAt(w', t', k) { RestartToken(w, t, w', k); }
  }

  lemma RestartToken(w: World, t: Trace, w': World, k: Token)
    requires TokenAt(w, t, k) && t.dir == w.dir && w.server != [] && w'.server != []
    requires forall l :: l in w'.server <==> Intact(w.dir, l.source, l.key)
    requires var p := Primary(w').source;
             w' == w.(server := w'.server,
                      ceased := (if Primary(w).source != p then w.ceased[Primary(w).source := w.now]
                                 else w.ceased) - {p})
    ensures TokenAt(w', t.(boot := t.dir, gone := t.replaced), k)
  {
    if k in w.tokens && k.expires > w.now {
      if Intact(w.dir, k.source, k.key) {
        assert Loaded(k.source, k.key) in w'.server;
      } else if OnDisk(t.dir, k.key) {
        var name :| name in w.dir && Usable(w.dir, name) && w.dir[name].key == k.key;
        assert Loaded(name, k.key) in w'.server;
      }
    }
  }

  lemma KeepsSign(w: World, t: Trace, lifetime: Time)
    requires Inv(w, t) && Enabled(w, Sign(lifetime))
    ensures Inv(Apply(w, Sign(lifetime)), Note(t, Sign(lifetime)))
  {
    hide ComputeKid, PemName, Load;
    var w' := Apply(w, Sign(lifetime));
    assert Primary(w) in w.server;
    forall name ensures KeyAt(w', name) { assert KeyAt(w, name); }
    forall k ensures TokenAt(w', t, k) { assert TokenAt(w, t, k); }
  }

  lemma KeepsOther(w: World, t: Trace, ev: Event)
    requires Inv(w, t) && Enabled(w, ev) && Careful(w, ev) && !ev.Restart? && !ev.Sign?
    ensures Inv(Apply(w, ev), Note(t, ev))
  {
    hide KeyFile, Printable, ComputeKid, Load, OnDisk;
    if ev.Rotate? { KeyFileIsPem(w.now); }
    hide PemName;
    var w', t' := Apply(w, ev), Note(t, ev);
    assert w'.server == w.server && t'.boot == t.boot && t'.gone == t.gone && t.replaced <= t'.replaced;
    forall name ensures KeyAt(w', name) { assert KeyAt(w, name); }
    forall k ensures TokenAt(w', t', k) { assert TokenAt(w, t, k); }
  }

  lemma {:induction false} RunKeeps(w: World, t: Trace, evs: seq<Event>)
    requires Inv(w, t) && ValidRun(w, evs)
    ensures Inv(Run(w, evs), Track(t, evs))
    decreases |evs|
  {
    hide Inv, Enabled, Apply, Careful, Note;
    if evs != [] {
      var ev := evs[0];
      if ev.Restart? { KeepsRestart(w, t, ev.names); }
      else if ev.Sign? { KeepsSign(w, t, ev.lifetime); }
      else { KeepsOther(w, t, ev); }
      RunKeeps(Apply(w, ev), Note(t, ev), evs[1..]);
    }
  }

  /** Where a run begins: a server just started on a directory with a usable key, before it has signed anything. */
  lemma FreshServer(w: World, names: seq<string>)
    requires Listing(w.dir, names) && w.server == Load(w.dir, names) != [] && w.tokens == {}
    requires DistinctKids(w.known) && forall name :: name in w.dir && w.dir[name].Pem? ==> w.dir[name].key in w.known
    ensures Inv(w, Begun(w))
  {
    LoadFinds(w.dir, names);
    hide Load, Less, PemName, ComputeKid;
    assert Primary(w) in w.server;
    forall name ensures KeyAt(w, name) {}
    forall k ensures TokenAt(w, Begun(w), k) {}
  }

  /** What a client has cached came from some document this server published. */
  ghost predicate Faithful(keys: map<string, PublicKey>, known: set<PublicKey>) {
    forall kid :: kid in keys ==> keys[kid] in known && ComputeKid(keys[kid]) == kid
  }

  /** Main result: after every run with careful removals, the kid of an unexpired token resolves in the published
      document, and then to the key that signed it, exactly when that key is not lost to a rotation that replaced its
      file.  A client finds the key then, and otherwise only in what it has cached. */
  lemma TokenResolvesIff(w: World, evs: seq<Event>, k: Token, keys: map<string, PublicKey>, until: Time, now: Time)
    requires Inv(w, Begun(w)) && ValidRun(w, evs)
    requires k in Run(w, evs).tokens && k.expires > Run(w, evs).now
    requires Faithful(keys, Run(w, evs).known)
    ensures var v, lost := Run(w, evs), Lost(Track(Begun(w), evs), k.key);
            && v.server != []
            && var doc, kid := Publish(v.server), ComputeKid(k.key);
               && (kid in Index(doc) <==> !lost) && (!lost ==> Index(doc)[kid] == k.key)
               && Faithful(Index(doc), v.known)
               && (Lookup(keys, until, kid, now, Some(doc)) == Some(k.key) <==> !lost || (kid in keys && now < until))
  {
    RunKeeps(w, Begun(w), evs);
    var v, t := Run(w, evs), Track(Begun(w), evs);
    hide ValidRun, Run, Track, Lost, Publish, Index, ComputeKid, KeyAt;
    assert TokenAt(v, t, k);
    PublishResolves(v.server, v.known);
  }

  /** In particular, when no rotation of the run replaces a usable file every unexpired token stays verifiable. */
  lemma TokensStayVerifiable(w: World, evs: seq<Event>, k: Token, keys: map<string, PublicKey>, until: Time, now: Time)
    requires Inv(w, Begun(w)) && ValidRun(w, evs) && Track(Begun(w), evs).replaced == {}
    requires k in Run(w, evs).tokens && k.expires > Run(w, evs).now
    requires Faithful(keys, Run(w, evs).known)
    ensures var v := Run(w, evs);
            && v.server != [] && ComputeKid(k.key) in Index(Publish(v.server))
            && Index(Publish(v.server))[ComputeKid(k.key)] == k.key
            && Lookup(keys, until, ComputeKid(k.key), now, Some(Publish(v.server))) == Some(k.key)
  {
    TokenResolvesIff(w, evs, k, keys, until, now);
    GoneWereReplaced(Begun(w), evs);
  }

  lemma {:induction false} GoneWereReplaced(t: Trace, evs: seq<Event>)
    requires t.gone <= t.replaced
    ensures Track(t, evs).gone <= Track(t, evs).replaced
    decreases |evs|
  {
    hide KeyFile, Printable, Usable;
    if evs != [] { GoneWereReplaced(Note(t, evs[0]), evs[1..]); }
  }

  /** No key is in two files. */
  predicate OneFileEach(dir: Dir) {
    forall a, b :: a in dir && b in dir && Usable(dir, a) && Usable(dir, b) && dir[a].key == dir[b].key ==> a == b
  }

  ghost predicate Single(w: World, t: Trace) {
    && t.now == w.now && t.dir == w.dir && OneFileEach(w.dir) && t.replaced <= w.known
    && (forall name {:trigger KeyAt(w, name)} :: KeyAt(w, name))
    && (forall key :: key in t.replaced ==> !OnDisk(t.dir, key))
    && (forall key :: key in t.gone ==> !OnDisk(t.boot, key))
  }

  lemma SingleRotate(w: World, t: Trace, key: PublicKey)
    requires Single(w, t) && Enabled(w, Rotate(key)) && Careful(w, Rotate(key))
    ensures Single(Apply(w, Rotate(key)), Note(t, Rotate(key)))
  {
    hide KeyFile, Printable, DistinctKids, PemName;
    var w', t' := Apply(w, Rotate(key)), Note(t, Rotate(key));
    var file := KeyFile(w.now);
    assert KeyAt(w, file) && t'.dir == w'.dir == Renamed(w.dir, file, key);
    forall name ensures KeyAt(w', name) { assert KeyAt(w, name); }
    forall k | k in t'.replaced
      ensures !OnDisk(t'.dir, k)
    {
      if name :| name in t'.dir && Usable(t'.dir, name) && t'.dir[name].key == k {
        assert KeyAt(w, name) && k in w.known;
        assert name != file && Usable(w.dir, name) && w.dir[name].key == k;
        assert OnDisk(t.dir, k);
      }
    }
    forall a, b | a in w'.dir && b in w'.dir && Usable(w'.dir, a) && Usable(w'.dir, b) && w'.dir[a].key == w'.dir[b].key
      ensures a == b
    {
      assert KeyAt(w, a) && KeyAt(w, b);
    }
  }

  lemma SingleStep(w: World, t: Trace, ev: Event)
    requires Single(w, t) && Enabled(w, ev) && Careful(w, ev)
    ensures Single(Apply(w, ev), Note(t, ev))
  {
    if ev.Rotate? {
      SingleRotate(w, t, ev.key);
    } else {
      hide KeyFile, Printable, DistinctKids, PemName, Load;
      forall name ensures KeyAt(Apply(w, ev), name) { assert KeyAt(w, name); }
    }
  }

  /** When every file has a key of its own, a key is lost exactly when a rotation replaced its file and a restart came
      after that. */
  lemma {:induction false} LostIffReplaced(w: World, t: Trace, evs: seq<Event>, key: PublicKey)
    requires Single(w, t) && ValidRun(w, evs)
    ensures Lost(Track(t, evs), key) <==> key in Track(t, evs).gone
    decreases |evs|
  {
    hide Apply, Enabled, Careful, Note, OnDisk;
    if evs == [] {
      assert key in t.gone ==> !OnDisk(t.boot, key);
    } else {
      SingleStep(w, t, evs[0]);
      LostIffReplaced(Apply(w, evs[0]), Note(t, evs[0]), evs[1..], key);
    }
  }

  lemma KeyFileIsPem(t: Time)
    requires Printable(t)
    ensures PemName(KeyFile(t))
  {
    hide DateText, ClockText;
    var name := KeyFile(t);
    assert name[|name| - 4..] == ".pem";
  }

  /** After a rotation and a restart the new key signs exactly when the file could be put in place and no usable file
      has a greater name. */
  lemma NewKeyBecomesPrimary(w: World, key: PublicKey, names: seq<string>)
    requires Printable(w.now) && Enabled(Apply(w, Rotate(key)), Restart(names))
    ensures var v, name := Apply(Apply(w, Rotate(key)), Restart(names)), KeyFile(w.now);
            v.server != [] && Primary(v) == Loaded(name, key) <==>
              && !(name in w.dir && w.dir[name].Folder?)
              && forall other :: Usable(w.dir, other) ==> !Less(name, other)
  {
    hide KeyFile, Printable, Load, Less, PemName;
    var name := KeyFile(w.now);
    var dir := Renamed(w.dir, name, key);
    KeyFileIsPem(w.now);
    LoadFinds(dir, names);
    if name in w.dir && w.dir[name].Folder? {
      assert !Usable(dir, name);
    } else {
      GreatestSigns(dir, names, name);
      forall other ensures Usable(dir, other) <==> Usable(w.dir, other) || other == name {}
      LessTotal(name, name);
    }
  }

  lemma GreatestSigns(dir: Dir, names: seq<string>, name: string)
    requires Listing(dir, names) && Usable(dir, name)
    ensures var ls := Load(dir, names);
            ls != [] && (ls[|ls| - 1] == Loaded(name, dir[name].key) <==>
                           forall other :: Usable(dir, other) ==> !Less(name, other))
  {
    hide Load, Less, PemName;
    var ls := Load(dir, names);
    LoadFinds(dir, names);
    LoadLast(dir, names, name);
    var last := ls[|ls| - 1];
    assert last in ls;
    LessTotal(name, last.source);
    forall other | Usable(dir, other) ensures last.source == other || Less(other, last.source) {
      LoadLast(dir, names, other);
    }
    if last.source == name {
      forall other | Usable(dir, other) ensures !Less(name, other) { LessTotal(name, other); }
    }
  }

  const SINGLE_KEY: string := "signing.pem"

  /** The name of the single-key setup sorts after every timestamp. */
  lemma SingleKeySortsLast(t: Time)
    requires Printable(t)
    ensures Less(KeyFile(t), SINGLE_KEY)
  {
    FieldWidths(t);
    hide Calendar.YearText, Calendar.Padded, Calendar.Start, MonthAt;
    assert KeyFile(t)[0] == Calendar.YearText(Calendar.Year(MonthAt(t)))[0];
  }

  /** A signing.pem moved into the directory keeps signing, whatever is rotated in beside it. */
  lemma SingleKeyStaysPrimary(w: World, key: PublicKey, names: seq<string>)
    requires Printable(w.now) && Enabled(Apply(w, Rotate(key)), Restart(names)) && Usable(w.dir, SINGLE_KEY)
    requires forall other :: Usable(w.dir, other) ==> other == SINGLE_KEY || Less(other, SINGLE_KEY)
    ensures var v := Apply(Apply(w, Rotate(key)), Restart(names));
            v.server != [] && Primary(v) == Loaded(SINGLE_KEY, w.dir[SINGLE_KEY].key)
  {
    hide KeyFile, Printable, Load, Less, PemName;
    SingleKeySortsLast(w.now);
    LessTotal(SINGLE_KEY, SINGLE_KEY);
    var dir := Renamed(w.dir, KeyFile(w.now), key);
    GreatestSigns(dir, names, SINGLE_KEY);
    forall other | Usable(dir, other) ensures !Less(SINGLE_KEY, other) { LessTotal(SINGLE_KEY, other); }
  }

  /** Two rotations within one second write one file: the rename replaces the first key, and if that key has signed
      anything in between, its kid resolves no more after the next restart. */
  lemma SameSecondLosesTheKey(w: World, key: PublicKey, names: seq<string>, k: Token)
    requires Inv(w, Begun(w)) && Printable(w.now) && Usable(w.dir, KeyFile(w.now))
    requires Enabled(Apply(w, Rotate(key)), Restart(names)) && DistinctKids(w.known + {key}) && key !in w.known
    requires k in w.tokens && k.source == KeyFile(w.now) && k.key == w.dir[KeyFile(w.now)].key
    requires forall name :: Usable(w.dir, name) && w.dir[name].key == k.key ==> name == KeyFile(w.now)
    ensures var v := Apply(Apply(w, Rotate(key)), Restart(names));
            v.server != [] && ComputeKid(k.key) !in Index(Publish(v.server))
  {
    hide KeyFile, Printable, Load, Less, PemName, ComputeKid, Index, Publish, ServerOk, TokenAt;
    var name := KeyFile(w.now);
    KeyFileIsPem(w.now);
    var dir := w.dir[name := Pem(key)];
    LoadFinds(dir, names);
    LoadLast(dir, names, name);
    var ls := Load(dir, names);
    forall l | l in ls ensures l.key in w.known + {key} && l.key != k.key { assert KeyAt(w, l.source); }
    PublishResolves(ls, w.known + {key});
    assert KeyAt(w, name);
  }
}
