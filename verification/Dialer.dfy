/** The dialing side: it picks a derivation from memory on every handshake and reports back
    (internal/tokenaead/tokenaead.go). */
module Dialer {
  import opened Wrappers
  import opened Bytes
  import opened RecordStream
  import opened Handshake
  import opened Prefs = Preference

  /** A dialer's fixed key pair, and the token and peer to look up if it has a memory. */
  datatype ClientCreds = ClientCreds(fixed: KeyPair, token: string, peer: string)

  /** With a memory and a token the keys are derived afresh for each connection, whatever an
      earlier one used; without a memory nobody listens to the first read. */
  method ClientHandshake(raw: RawConn, a: Aead, creds: ClientCreds, pref: Preference?, now: int)
    returns (conn: AeadConn, v: Variant)
    ensures v == if pref != null && creds.token != "" then NextFor(At(pref.state, creds.peer), now)
      else creds.fixed.variant
    ensures var kp := if pref != null && creds.token != "" then Pair(creds.token, v) else creds.fixed;
      conn.writeKey == kp.c2s && conn.readKey == kp.s2c
    ensures conn.raw == raw && conn.aead == a && !conn.reported && (conn.hooked <==> pref != null)
    ensures conn.InState() == Reader(0, []) && conn.writeCounter == 0
  {
    var kp := creds.fixed;
    if pref != null && creds.token != "" {
      v := pref.Next(creds.peer, now);
      kp := Pair(creds.token, v);
    }
    v := kp.variant;
    conn := new AeadConn(raw, a, kp.c2s, kp.s2c, pref != null, Reader(0, []));
  }

  /** The first read of a connection goes into the memory, and only the first. */
  method ReadAndRemember(conn: AeadConn, cap: nat, peer: string, v: Variant, pref: Preference, now: int)
    returns (r: Result<seq<Byte>, ReadError>)
    modifies conn`readCounter, conn`readBuffer, conn`reported, conn.raw`arrived, pref
    ensures var g := Reading(LinkOf(conn.aead, conn.readKey), old(conn.InState()), old(conn.raw.arrived), cap);
      && r == g.bytes && conn.InState() == g.reader && conn.raw.arrived == g.left
      && pref.state == if g.took && conn.hooked && !old(conn.reported)
        then Remember(old(pref.state), Report(peer, v, g.bytes.Ok?, now)) else old(pref.state)
  {
    var fired;
    r, fired := conn.Read(cap);
    if fired == Some(true) {
      pref.Succeeded(peer, v, now);
    } else if fired == Some(false) {
      pref.Failed(peer, v, now);
    }
  }

  /** What a listener puts on the wire after a first record. With one derivation it does not
      wait for the record; with several it closes the connection if none of them opens it. */
  ghost function Reply(a: Aead, creds: ServerCreds, record: seq<Byte>, answer: seq<Byte>, rest: seq<Byte>): seq<Byte> {
    if |creds.accept| <= 1 then Frame(a, creds.own.s2c, 0, answer) + rest
    else
      var r := Resolve(a, creds.accept, record);
      if r.None? then [] else Frame(a, r.value.0.s2c, 0, answer) + rest
  }

  /** One round between a dialer and a listener of the same token: the dialer's first read
      succeeds if and only if the listener accepts the derivation the dialer chose, so what is
      reported is whether it does. A listener that closes without a word fails the read too. */
  lemma {:induction false} FirstRoundTellsTheTruth(a: Aead, keys: set<Key>, token: string, v: Variant,
      variants: seq<Variant>,
      hello: seq<Byte>, answer: seq<Byte>, rest: seq<Byte>, cap: nat)
    requires Ideal(a, keys) && forall w, use :: Key(token, w, use) in keys
    requires ChunkSized(hello) && ChunkSized(answer)
    ensures var accepted := if variants == [] then [Legacy256] else variants;
      var sent := Reply(a, ServerOfAny(token, variants), a.seal(Pair(token, v).c2s, Nonce(0), hello), answer, rest);
      var got := Reading(LinkOf(a, Pair(token, v).s2c), Reader(0, []), sent, cap);
      && got.took && (got.bytes.Ok? <==> v in accepted)
      && (v !in accepted ==> got.bytes == Err(if |variants| > 1 then EndOfStream else WrongKey))
      && Reading(LinkOf(a, Pair(token, v).s2c), Reader(0, []), [], cap).bytes == Err(EndOfStream)
  {
    var creds := ServerOfAny(token, variants);
    ServedIffAccepted(a, keys, token, token, v, variants, hello);
    if |variants| > 1 {
      TakeFrame(a, keys, Pair(token, v).s2c, 0, answer, rest);
    } else {
      TakeFrame(a, keys, creds.own.s2c, 0, answer, rest);
      WrongKeyFails(a, keys, creds.own.s2c, Pair(token, v).s2c, answer);
    }
  }

  lemma {:induction false} WrongKeyFails(a: Aead, keys: set<Key>, theirs: Key, ours: Key, text: seq<Byte>)
    requires Ideal(a, keys) && theirs in keys && ours in keys
    ensures a.open(ours, Nonce(0), a.seal(theirs, Nonce(0), text)) == if ours == theirs then Some(text) else None
  {}
}
