/** Who can talk to whom without a handshake (internal/tokenaead/tokenaead.go). */
module Handshake {
  import opened Wrappers
  import opened Bytes
  import opened RecordStream

  datatype KeyPair = KeyPair(variant: Variant, c2s: Key, s2c: Key)

  datatype HandshakeError = NoVariant | Broken(error: ReadError)

  function Pair(token: string, v: Variant): KeyPair {
    KeyPair(v, Key(token, v, C2S), Key(token, v, S2C))
  }

  function Pairs(token: string, variants: seq<Variant>): seq<KeyPair> {
    seq(|variants|, i requires 0 <= i < |variants| => Pair(token, variants[i]))
  }

  /** Listener credentials; an empty list of derivations means the old one. */
  function ServerAny(token: string, variants: seq<Variant>): seq<KeyPair> {
    Pairs(token, if variants == [] then [Legacy256] else variants)
  }

  /** The first accepted derivation under which a record opens as number zero. */
  ghost function Resolve(a: Aead, accept: seq<KeyPair>, record: seq<Byte>): Option<(KeyPair, seq<Byte>)> {
    if accept == [] then None
    else
      var plain := a.open(accept[0].c2s, Nonce(0), record);
      if plain.Some? then Some((accept[0], plain.value)) else Resolve(a, accept[1..], record)
  }

  /** What trying the accepted derivations on the first record of `data` comes to: no
      record, no derivation, or a connection that already holds the record's text. */
  ghost predicate Tried(r: Result<(AeadConn, Variant), HandshakeError>, raw: RawConn, a: Aead, accept: seq<KeyPair>,
      data: seq<Byte>)
    reads if r.Ok? then {r.value.0} else {}
  {
    var record := TakeRecord(data).0;
    if record.Err? then r == Err(Broken(record.error))
    else
      var found := Resolve(a, accept, record.value);
      if found.None? then r == Err(NoVariant)
      else
        var (kp, plain) := found.value;
        r.Ok? && r.value.1 == kp.variant && Wraps(r.value.0, raw, a, kp, Reader(1, plain))
  }

  /** A server-side connection: it writes with the second key and reads with the first. */
  ghost predicate Wraps(conn: AeadConn, raw: RawConn, a: Aead, kp: KeyPair, reader: Reader)
    reads conn
  {
    && conn.raw == raw && conn.aead == a && conn.writeKey == kp.s2c && conn.readKey == kp.c2s
    && conn.InState() == reader && conn.writeCounter == 0 && !conn.hooked
  }

  /** A server with several derivations reads the first record and tries them in turn. */
  method ServerHandshakeAny(raw: RawConn, a: Aead, accept: seq<KeyPair>)
    returns (r: Result<(AeadConn, Variant), HandshakeError>)
    modifies raw`arrived
    ensures raw.arrived == TakeRecord(old(raw.arrived)).1
    ensures Tried(r, raw, a, accept, old(raw.arrived))
  {
    var record := ReadRecord(raw);
    if record.Err? { return Err(Broken(record.error)); }
    var n := 0;
    assert accept[0..] == accept;
    while n < |accept|
      invariant n <= |accept|
      invariant Resolve(a, accept, record.value) == Resolve(a, accept[n..], record.value)
    {
      var kp := accept[n];
      var plain := a.open(kp.c2s, Nonce(0), record.value);
      assert accept[n..][1..] == accept[n + 1..];
      if plain.Some? {
        var conn := new AeadConn(raw, a, kp.s2c, kp.c2s, false, Reader(1, plain.value));
        return Ok((conn, kp.variant));
      }
      n := n + 1;
    }
    r := Err(NoVariant);
  }

  /** A listener's own key pair, and every derivation it will try if there are several. */
  datatype ServerCreds = ServerCreds(own: KeyPair, accept: seq<KeyPair>)

  function ServerOfAny(token: string, variants: seq<Variant>): ServerCreds {
    ServerCreds(ServerAny(token, variants)[0], ServerAny(token, variants))
  }

  /** With at most one derivation there is nothing to resolve: the connection is wrapped as it
      is, and whatever its derivation the old one, the zero value, is reported. */
  method ServerHandshake(raw: RawConn, a: Aead, creds: ServerCreds)
    returns (r: Result<(AeadConn, Variant), HandshakeError>)
    modifies raw`arrived
    ensures |creds.accept| <= 1 ==>
      raw.arrived == old(raw.arrived) && r.Ok? && r.value.1 == Legacy256 &&
        Wraps(r.value.0, raw, a, creds.own, Reader(0, []))
    ensures |creds.accept| > 1 ==>
      raw.arrived == TakeRecord(old(raw.arrived)).1 && Tried(r, raw, a, creds.accept, old(raw.arrived))
  {
    if |creds.accept| > 1 {
      r := ServerHandshakeAny(raw, a, creds.accept);
    } else {
      var conn := new AeadConn(raw, a, creds.own.s2c, creds.own.c2s, false, Reader(0, []));
      r := Ok((conn, Legacy256));
    }
  }

  /** The dialer writes under the key the listener reads under, and reads under the one the
      listener writes under; the two directions of a connection never share a key, nor do
      different tokens or derivations. */
  lemma {:induction false} KeysAreApart(token: string, v: Variant, other: string, w: Variant)
    ensures var dial, listen := Pair(token, v), ServerOfAny(other, [w]).own;
      && dial.c2s != dial.s2c && dial.c2s != listen.s2c && dial.s2c != listen.c2s
      && (dial.c2s == listen.c2s <==> token == other && v == w)
      && (dial.s2c == listen.s2c <==> token == other && v == w)
  {}

  ghost predicate KeysInPlay(accept: seq<KeyPair>, keys: set<Key>) {
    forall i :: 0 <= i < |accept| ==> accept[i].c2s in keys
  }

  /** A record sealed by a client resolves to the client's own key pair if that is accepted
      and to nothing otherwise, so neither success nor outcome depends on the list's order. */
  lemma {:induction false} ResolveFindsClient(a: Aead, keys: set<Key>, accept: seq<KeyPair>, key: Key, chunk: seq<Byte>)
    requires Ideal(a, keys) && key in keys && KeysInPlay(accept, keys)
    ensures var r := Resolve(a, accept, a.seal(key, Nonce(0), chunk));
      && (r.Some? <==> exists i :: 0 <= i < |accept| && accept[i].c2s == key)
      && (r.Some? ==> r.value.0 in accept && r.value.0.c2s == key && r.value.1 == chunk)
  {
    var record := a.seal(key, Nonce(0), chunk);
    if accept == [] {
    } else {
      if accept[0].c2s == key {
        assert a.open(key, Nonce(0), record) == Some(chunk);
      } else {
        assert a.open(accept[0].c2s, Nonce(0), record).None?;
        assert KeysInPlay(accept[1..], keys);
        ResolveFindsClient(a, keys, accept[1..], key, chunk);
        forall i | 0 <= i < |accept| && accept[i].c2s == key
          ensures 0 <= i - 1 < |accept[1..]| && accept[1..][i - 1].c2s == key
        {
        }
        if Resolve(a, accept[1..], record).Some? {
          var i :| 0 <= i < |accept[1..]| && accept[1..][i].c2s == key;
          assert accept[i + 1].c2s == key;
        }
      }
    }
  }

  /** A client of one derivation is served by a listener exactly when the listener accepts
      that derivation and both hold the same token. */
  lemma {:induction false} ServedIffAccepted(a: Aead, keys: set<Key>, token: string, other: string, v: Variant,
      variants: seq<Variant>, chunk: seq<Byte>)
    requires Ideal(a, keys) && Pair(other, v).c2s in keys && KeysInPlay(ServerAny(token, variants), keys)
    ensures var accepted := if variants == [] then [Legacy256] else variants;
      var r := Resolve(a, ServerAny(token, variants), a.seal(Pair(other, v).c2s, Nonce(0), chunk));
      && (r.Some? <==> other == token && v in accepted)
      && (r.Some? ==> r.value == (Pair(token, v), chunk))
  {
    var accept := ServerAny(token, variants);
    var accepted := if variants == [] then [Legacy256] else variants;
    ResolveFindsClient(a, keys, accept, Pair(other, v).c2s, chunk);
    forall i | 0 <= i < |accept|
      ensures accept[i].c2s == Pair(other, v).c2s <==> other == token && accepted[i] == v
    {
    }
    if other == token && v in accepted {
      var i :| 0 <= i < |accepted| && accepted[i] == v;
      assert accept[i].c2s == Pair(other, v).c2s;
    }
  }

  /** The resolved connection reads on exactly like a plain single-derivation one: whatever
      the size of the first read, both return the same bytes and are in the same state after it. */
  lemma {:induction false} ResolvedReadsAlike(a: Aead, keys: set<Key>, kp: KeyPair, chunk: seq<Byte>, rest: seq<Byte>,
      cap: nat)
    requires Ideal(a, keys) && kp.c2s in keys && ChunkSized(chunk)
    ensures var data := Frame(a, kp.c2s, 0, chunk) + rest;
      var (record, left) := TakeRecord(data);
      && record == Ok(a.seal(kp.c2s, Nonce(0), chunk)) && left == rest
      && Reading(LinkOf(a, kp.c2s), Reader(0, []), data, cap)
        == Reading(LinkOf(a, kp.c2s), Reader(1, chunk), left, cap).(took := true)
  {
    TakeFrame(a, keys, kp.c2s, 0, chunk, rest);
  }

  // ---- the ideal cipher exists ----------------------------------------------------------

  function Index(k: Key): Byte {
    (if k.variant == SHA512 then 1 else 0) + (if k.use == S2C then 2 else 0)
  }

  /** A stand-in whose tag spells out the key and the nonce: it has every property asked of
      the cipher for the four keys of one token, so nothing above is about an empty world. */
  function Marked(): Aead {
    Aead((k, n, p) => p + [Index(k), 0, 0, 0] + n,
         (k, n, c) => if |n| == NONCE_LEN && |c| >= 16 && c[|c| - 16..] == [Index(k), 0, 0, 0] + n
                      then Some(c[..|c| - 16]) else None)
  }

  ghost function KeysOf(token: string): set<Key> {
    {Key(token, Legacy256, C2S), Key(token, Legacy256, S2C), Key(token, SHA512, C2S), Key(token, SHA512, S2C)}
  }

  lemma {:induction false} MarkedOpens(k: Key, n: seq<Byte>, p: seq<Byte>, j: Key, m: seq<Byte>)
    requires |n| == NONCE_LEN && |m| == NONCE_LEN
    ensures var c := Marked().seal(k, n, p);
      && |c| == |p| + 16
      && (Marked().open(j, m, c).Some? <==> Index(j) == Index(k) && m == n)
      && (Marked().open(j, m, c).Some? ==> Marked().open(j, m, c) == Some(p))
  {
    var tag: seq<Byte> := [Index(k), 0, 0, 0] + n;
    var other: seq<Byte> := [Index(j), 0, 0, 0] + m;
    var c := Marked().seal(k, n, p);
    assert c == p + tag;
    assert c[|c| - 16..] == tag && c[..|c| - 16] == p;
    assert tag[0] == Index(k) && other[0] == Index(j) && tag[4..] == n && other[4..] == m;
  }

  lemma {:induction false} IdealExists(token: string)
    ensures Ideal(Marked(), KeysOf(token))
  {
    var a, keys := Marked(), KeysOf(token);
    forall k, n, p | k in keys && |n| == NONCE_LEN ensures |a.seal(k, n, p)| == |p| + 16 {
      MarkedOpens(k, n, p, k, n);
    }
    forall k, n, p | k in keys && |n| == NONCE_LEN ensures a.open(k, n, a.seal(k, n, p)) == Some(p) {
      MarkedOpens(k, n, p, k, n);
    }
    forall k, n, p, j, m {:trigger a.open(j, m, a.seal(k, n, p))} |
        k in keys && j in keys && |n| == NONCE_LEN && |m| == NONCE_LEN && a.open(j, m, a.seal(k, n, p)).Some?
      ensures j == k && m == n
    {
      MarkedOpens(k, n, p, j, m);
    }
  }
}
