/** The token-keyed record transport (internal/tokenaead/tokenaead.go). */
module RecordStream {
  import opened Wrappers
  import opened Bytes

  const NONCE_LEN := 12
  const MAX_PLAIN_CHUNK := 16 * 1024
  const MAX_RECORD_CIPHER := MAX_PLAIN_CHUNK + 16
  const COUNTER_SPAN: nat := 0x1_0000_0000_0000_0000

  datatype Variant = Legacy256 | SHA512
  datatype Label = C2S | S2C

  /** A derived key, standing for the derivation's inputs. */
  datatype Key = Key(token: string, variant: Variant, use: Label)

  // ---- big-endian numbers and nonces --------------------------------------------------

  function Span(len: nat): nat { if len == 0 then 1 else 256 * Span(len - 1) }

  function BigEndian(n: nat, len: nat): (s: seq<Byte>)
    ensures |s| == len
  {
    if len == 0 then [] else BigEndian(n / 256, len - 1) + [n % 256]
  }

  function FromBigEndian(s: seq<Byte>): nat {
    if s == [] then 0 else 256 * FromBigEndian(s[..|s| - 1]) + s[|s| - 1]
  }

  lemma {:induction false} BigEndianRoundTrip(n: nat, len: nat)
    requires n < Span(len)
    ensures FromBigEndian(BigEndian(n, len)) == n
  {
    if len == 0 {
    } else {
      BigEndianRoundTrip(n / 256, len - 1);
      var s := BigEndian(n, len);
      assert s[..len - 1] == BigEndian(n / 256, len - 1);
    }
  }

  /** The first byte is the most significant. */
  lemma {:induction false} HeadIsMostSignificant(s: seq<Byte>)
    requires s != []
    ensures FromBigEndian(s) == s[0] * Span(|s| - 1) + FromBigEndian(s[1..])
  {
    var n := |s| - 1;
    if n == 0 {
    } else {
      HeadIsMostSignificant(s[..n]);
      assert s[..n][1..] == s[1..][..n - 1];
      assert 256 * (s[0] * Span(n - 1)) == s[0] * (256 * Span(n - 1));
    }
  }

  /** The record counter is a 64-bit unsigned number and wraps. */
  function Bump(counter: nat): nat { (counter + 1) % COUNTER_SPAN }

  function Nonce(counter: nat): (n: seq<Byte>)
    ensures |n| == NONCE_LEN
  {
    [0, 0, 0, 0] + BigEndian(counter % COUNTER_SPAN, 8)
  }

  lemma {:induction false} SpanOfEight()
    ensures Span(8) == COUNTER_SPAN && Span(4) == 0x1_0000_0000
  {
    assert Span(4) == 256 * 256 * 256 * 256;
    assert Span(8) == 256 * 256 * 256 * 256 * Span(4);
  }

  /** Two records of a direction share a nonce exactly when their numbers are congruent
      modulo 2^64, so none repeats among fewer records than that. */
  lemma {:induction false} NonceRepeats(i: nat, j: nat)
    ensures Nonce(i) == Nonce(j) <==> i % COUNTER_SPAN == j % COUNTER_SPAN
    ensures i < COUNTER_SPAN && j < COUNTER_SPAN && i != j ==> Nonce(i) != Nonce(j)
  {
    SpanOfEight();
    BigEndianRoundTrip(i % COUNTER_SPAN, 8);
    BigEndianRoundTrip(j % COUNTER_SPAN, 8);
    assert Nonce(i)[4..] == BigEndian(i % COUNTER_SPAN, 8);
    assert Nonce(j)[4..] == BigEndian(j % COUNTER_SPAN, 8);
  }

  // ---- the ideal cipher ------------------------------------------------------------------

  datatype Aead = Aead(
    seal: (Key, seq<Byte>, seq<Byte>) -> seq<Byte>,
    open: (Key, seq<Byte>, seq<Byte>) -> Option<seq<Byte>>)

  /** What is assumed of AES-GCM among the keys in play: a ciphertext is 16 bytes longer
      than its text, opens under its own key and nonce, and under no other. */
  ghost predicate Ideal(a: Aead, keys: set<Key>) {
    && (forall k, n, p :: k in keys && |n| == NONCE_LEN ==> |a.seal(k, n, p)| == |p| + 16)
    && (forall k, n, p :: k in keys && |n| == NONCE_LEN ==> a.open(k, n, a.seal(k, n, p)) == Some(p))
    && (forall k, n, p, j, m {:trigger a.open(j, m, a.seal(k, n, p))} ::
          k in keys && j in keys && |n| == NONCE_LEN && |m| == NONCE_LEN && a.open(j, m, a.seal(k, n, p)).Some?
          ==> j == k && m == n)
  }

  // ---- records -------------------------------------------------------------------------

  function Frame(a: Aead, key: Key, number: nat, chunk: seq<Byte>): seq<Byte> {
    var ct := a.seal(key, Nonce(number), chunk);
    BigEndian(|ct|, 4) + ct
  }

  datatype ReadError = EndOfStream | BadRecord | WrongKey

  /** One length-prefixed record off the front of what arrived, and what is left. The
      length is checked before anything is allocated for it. */
  function TakeRecord(data: seq<Byte>): (Result<seq<Byte>, ReadError>, seq<Byte>) {
    if |data| < 4 then (Err(EndOfStream), [])
    else
      var size := FromBigEndian(data[..4]);
      if size == 0 || size > MAX_RECORD_CIPHER then (Err(BadRecord), data[4..])
      else if |data| < 4 + size then (Err(EndOfStream), [])
      else (Ok(data[4..4 + size]), data[4 + size..])
  }

  predicate ChunkSized(chunk: seq<Byte>) { 1 <= |chunk| <= MAX_PLAIN_CHUNK }

  /** The reader takes back exactly the record the writer framed, whose ciphertext length
      is within the bound both ends agree on. */
  lemma {:induction false} TakeFrame(a: Aead, keys: set<Key>, key: Key, number: nat, chunk: seq<Byte>, rest: seq<Byte>)
    requires Ideal(a, keys) && key in keys && ChunkSized(chunk)
    ensures 17 <= |a.seal(key, Nonce(number), chunk)| <= MAX_RECORD_CIPHER
    ensures TakeRecord(Frame(a, key, number, chunk) + rest) == (Ok(a.seal(key, Nonce(number), chunk)), rest)
    ensures a.open(key, Nonce(number), a.seal(key, Nonce(number), chunk)) == Some(chunk)
  {
    var ct := a.seal(key, Nonce(number), chunk);
    SpanOfEight();
    BigEndianRoundTrip(|ct|, 4);
    var data := Frame(a, key, number, chunk) + rest;
    assert data[..4] == BigEndian(|ct|, 4);
    assert data[4..4 + |ct|] == ct;
    assert data[4 + |ct|..] == rest;
  }

  /** Four zero bytes, then the counter as eight, most significant first. */
  lemma {:induction false} NonceLayout(counter: nat)
    ensures Nonce(counter)[..4] == [0, 0, 0, 0]
    ensures FromBigEndian(Nonce(counter)[4..]) == counter % COUNTER_SPAN
  {
    SpanOfEight();
    BigEndianRoundTrip(counter % COUNTER_SPAN, 8);
    assert Nonce(counter)[4..] == BigEndian(counter % COUNTER_SPAN, 8);
  }

  /** A length outside 1 to 16400 is refused whatever follows, with nothing taken beyond the
      four bytes that gave it; any other length is met. */
  lemma {:induction false} SizeIsChecked(size: nat, rest: seq<Byte>)
    requires size < 0x1_0000_0000
    ensures var (record, left) := TakeRecord(BigEndian(size, 4) + rest);
      && (record == Err(BadRecord) <==> size < 1 || size > 16400)
      && (record == Err(BadRecord) ==> left == rest)
      && (record.Ok? ==> |record.value| == size && record.value + left == rest)
      && (record.Ok? <==> 1 <= size <= 16400 && size <= |rest|)
  {
    SpanOfEight();
    BigEndianRoundTrip(size, 4);
    var data := BigEndian(size, 4) + rest;
    assert data[..4] == BigEndian(size, 4) && data[4..] == rest;
    if 1 <= size <= 16400 && size <= |rest| {
      assert data[4..4 + size] == rest[..size] && data[4 + size..] == rest[size..];
    }
  }

  /** A frame that was cut short never reads as a record. */
  lemma {:induction false} CutFrame(a: Aead, keys: set<Key>, key: Key, number: nat, chunk: seq<Byte>, n: nat)
    requires Ideal(a, keys) && key in keys && ChunkSized(chunk) && n < |Frame(a, key, number, chunk)|
    ensures TakeRecord(Frame(a, key, number, chunk)[..n]) == (Err(EndOfStream), [])
  {
    var ct := a.seal(key, Nonce(number), chunk);
    SpanOfEight();
    BigEndianRoundTrip(|ct|, 4);
    var f := Frame(a, key, number, chunk);
    if n >= 4 { assert f[..n][..4] == BigEndian(|ct|, 4); }
  }

  // ---- a direction's framing, as two functions ---------------------------------------------

  /** How one direction turns a numbered text into bytes, and takes the next text back. */
  datatype Link = Link(
    frame: (nat, seq<Byte>) -> seq<Byte>,
    next: (nat, seq<Byte>) -> (Result<seq<Byte>, ReadError>, seq<Byte>))

  function LinkOf(a: Aead, key: Key): Link {
    Link((number, chunk) => Frame(a, key, number, chunk), (number, data) => NextText(a, key, number, data))
  }

  function NextText(a: Aead, key: Key, number: nat, data: seq<Byte>): (Result<seq<Byte>, ReadError>, seq<Byte>) {
    var (record, left) := TakeRecord(data);
    if record.Err? then (record, left)
    else
      var plain := a.open(key, Nonce(number), record.value);
      (if plain.None? then Err(WrongKey) else Ok(plain.value), left)
  }

  /** A framed text comes back as it was; a broken frame comes back as the end of the stream. */
  ghost predicate Faithful(l: Link) {
    && (forall n, chunk, rest {:trigger l.next(n, l.frame(n, chunk) + rest)} ::
          ChunkSized(chunk) ==> l.next(n, l.frame(n, chunk) + rest) == (Ok(chunk), rest))
    && (forall n, chunk, k {:trigger l.frame(n, chunk)[..k]} ::
          ChunkSized(chunk) && 0 <= k < |l.frame(n, chunk)| ==> Broken(l, l.frame(n, chunk)[..k]))
    && (forall n, chunk {:trigger l.frame(n, chunk)} :: ChunkSized(chunk) ==> l.frame(n, chunk) != [])
    && Broken(l, [])
  }

  ghost predicate Broken(l: Link, tail: seq<Byte>) {
    forall n {:trigger l.next(n, tail)} :: l.next(n, tail) == (Err(EndOfStream), [])
  }

  /** Under the ideal cipher the transport's framing is faithful. */
  lemma {:induction false} LinkIsFaithful(a: Aead, keys: set<Key>, key: Key)
    requires Ideal(a, keys) && key in keys
    ensures Faithful(LinkOf(a, key))
  {
    var l := LinkOf(a, key);
    forall n, chunk, rest | ChunkSized(chunk) ensures l.next(n, l.frame(n, chunk) + rest) == (Ok(chunk), rest) {
      TakeFrame(a, keys, key, n, chunk, rest);
    }
    forall n, chunk, k | ChunkSized(chunk) && 0 <= k < |l.frame(n, chunk)|
      ensures Broken(l, l.frame(n, chunk)[..k])
    {
      CutFrame(a, keys, key, n, chunk, k);
    }
    forall n, chunk | ChunkSized(chunk) ensures l.frame(n, chunk) != [] {
      assert |BigEndian(|a.seal(key, Nonce(n), chunk)|, 4)| == 4;
    }
  }

  // ---- one direction of a connection -------------------------------------------------------

  /** What one Write puts on a wire that accepts `room` more bytes before failing. */
  datatype Sent = Sent(bytes: seq<Byte>, count: nat, counter: nat, ok: bool)

  function FirstChunk(p: seq<Byte>): seq<Byte> {
    if |p| > MAX_PLAIN_CHUNK then p[..MAX_PLAIN_CHUNK] else p
  }

  ghost function Sending(l: Link, counter: nat, p: seq<Byte>, room: nat): Sent
    decreases |p|
  {
    if p == [] then Sent([], 0, counter, true)
    else
      var chunk := FirstChunk(p);
      var frame := l.frame(counter, chunk);
      if |frame| > room then Sent(frame[..room], 0, Bump(counter), false)
      else
        var more := Sending(l, Bump(counter), p[|chunk|..], room - |frame|);
        Sent(frame + more.bytes, |chunk| + more.count, more.counter, more.ok)
  }

  /** What has been sent so far, followed by what is still to come. */
  ghost function Joined(out: seq<Byte>, count: nat, s: Sent): Sent {
    Sent(out + s.bytes, count + s.count, s.counter, s.ok)
  }

  /** What one record leaves on a wire that accepts `room` more bytes. */
  ghost function Puts(frame: seq<Byte>, room: nat): seq<Byte> {
    if |frame| <= room then frame else frame[..room]
  }

  lemma {:induction false} SendingStep(l: Link, counter: nat, p: seq<Byte>, room: nat, out: seq<Byte>, count: nat)
    requires p != []
    ensures var chunk := FirstChunk(p);
      var frame := l.frame(counter, chunk);
      var put := Puts(frame, room);
      Joined(out, count, Sending(l, counter, p, room)) ==
        if |frame| > room then Sent(out + put, count, Bump(counter), false)
        else Joined(out + put, count + |chunk|, Sending(l, Bump(counter), p[|chunk|..], room - |put|))
  {
    var chunk := FirstChunk(p);
    var frame := l.frame(counter, chunk);
    if |frame| <= room {
      var more := Sending(l, Bump(counter), p[|chunk|..], room - |frame|);
      assert out + (frame + more.bytes) == out + frame + more.bytes;
    }
  }

  datatype Reader = Reader(counter: nat, buffer: seq<Byte>)

  datatype Got = Got(reader: Reader, left: seq<Byte>, bytes: Result<seq<Byte>, ReadError>, took: bool)

  function Hand(reader: Reader, left: seq<Byte>, cap: nat, took: bool): Got {
    var n := if cap < |reader.buffer| then cap else |reader.buffer|;
    Got(reader.(buffer := reader.buffer[n..]), left, Ok(reader.buffer[..n]), took)
  }

  /** One Read into a slice of length `cap`; `took` says that it went for a record. */
  ghost function Reading(l: Link, reader: Reader, data: seq<Byte>, cap: nat): Got {
    if reader.buffer != [] then Hand(reader, data, cap, false)
    else
      var (text, left) := l.next(reader.counter, data);
      if text.Err? then Got(reader, left, Err(text.error), true)
      else Hand(Reader(Bump(reader.counter), text.value), left, cap, true)
  }

  /** The byte stream below: what arrived, what was sent, and how much more it takes. */
  class RawConn {
    var arrived: seq<Byte>
    var sent: seq<Byte>
    var room: nat

    constructor (arrived: seq<Byte>, room: nat)
      ensures this.arrived == arrived && this.sent == [] && this.room == room
    {
      this.arrived, this.sent, this.room := arrived, [], room;
    }

    method Write(b: seq<Byte>) returns (ok: bool)
      modifies this`sent, this`room
      ensures ok <==> |b| <= old(room)
      ensures sent == old(sent) + (if ok then b else b[..old(room)])
      ensures room == if ok then old(room) - |b| else 0
    {
      if |b| <= room {
        sent, room, ok := sent + b, room - |b|, true;
      } else {
        sent, room, ok := sent + b[..room], 0, false;
      }
    }

    /** Reads exactly n bytes, or everything that was left when the stream ended. */
    method ReadFull(n: nat) returns (b: Option<seq<Byte>>)
      modifies this`arrived
      ensures b == if n <= |old(arrived)| then Some(old(arrived)[..n]) else None
      ensures arrived == if n <= |old(arrived)| then old(arrived)[n..] else []
    {
      if n <= |arrived| {
        b := Some(arrived[..n]);
        arrived := arrived[n..];
      } else {
        b, arrived := None, [];
      }
    }
  }

  method ReadRecord(conn: RawConn) returns (r: Result<seq<Byte>, ReadError>)
    modifies conn`arrived
    ensures (r, conn.arrived) == TakeRecord(old(conn.arrived))
  {
    var header := conn.ReadFull(4);
    if header.None? { return Err(EndOfStream); }
    var size := FromBigEndian(header.value);
    if size == 0 || size > MAX_RECORD_CIPHER { return Err(BadRecord); }
    ghost var data := old(conn.arrived);
    assert |data| >= 4 + size ==> data[4..][..size] == data[4..4 + size];
    assert |data| >= 4 + size ==> data[4..][size..] == data[4 + size..];
    var ct := conn.ReadFull(size);
    if ct.None? { return Err(EndOfStream); }
    r := Ok(ct.value);
  }

  /** A connection that seals each write into records and opens them on read. */
  class AeadConn {
    const raw: RawConn
    const aead: Aead
    const writeKey: Key
    const readKey: Key
    /** Whether the dialing side asked to hear how the first read went. */
    const hooked: bool
    var writeCounter: nat
    var readCounter: nat
    var readBuffer: seq<Byte>
    var reported: bool

    constructor (raw: RawConn, aead: Aead, writeKey: Key, readKey: Key, hooked: bool, reader: Reader)
      ensures this.raw == raw && this.aead == aead && this.writeKey == writeKey && this.readKey == readKey
      ensures this.hooked == hooked && writeCounter == 0 && InState() == reader && !reported
    {
      this.raw, this.aead, this.writeKey, this.readKey, this.hooked := raw, aead, writeKey, readKey, hooked;
      writeCounter, readCounter, readBuffer, reported := 0, reader.counter, reader.buffer, false;
    }

    ghost function InState(): Reader
      reads this
    {
      Reader(readCounter, readBuffer)
    }

    method Write(p: seq<Byte>) returns (written: nat, ok: bool)
      modifies this`writeCounter, raw`sent, raw`room
      ensures var s := Sending(LinkOf(aead, writeKey), old(writeCounter), p, old(raw.room));
        && raw.sent == old(raw.sent) + s.bytes && raw.room == old(raw.room) - |s.bytes|
        && written == s.count && writeCounter == s.counter && ok == s.ok
    {
      written, ok := 0, true;
      var rest := p;
      ghost var l := LinkOf(aead, writeKey);
      ghost var final := Joined(raw.sent, 0, Sending(l, writeCounter, p, raw.room));
      while |rest| > 0 && ok
        invariant raw.room + |raw.sent| == old(raw.room) + |old(raw.sent)|
        invariant final ==
          if ok then Joined(raw.sent, written, Sending(l, writeCounter, rest, raw.room))
          else Sent(raw.sent, written, writeCounter, false)
        decreases |rest| + (if ok then 1 else 0)
      {
        var chunk := FirstChunk(rest);
        SendingStep(l, writeCounter, rest, raw.room, raw.sent, written);
        ok := SendRecord(chunk);
        if ok {
          written := written + |chunk|;
          rest := rest[|chunk|..];
        }
      }
    }

    /** Seals one chunk and sends it: its length, then its ciphertext. */
    method SendRecord(chunk: seq<Byte>) returns (ok: bool)
      modifies this`writeCounter, raw`sent, raw`room
      ensures writeCounter == Bump(old(writeCounter))
      ensures var frame := LinkOf(aead, writeKey).frame(old(writeCounter), chunk);
        && ok == (|frame| <= old(raw.room))
        && raw.sent == old(raw.sent) + Puts(frame, old(raw.room))
        && raw.room == old(raw.room) - |Puts(frame, old(raw.room))|
    {
      var ct := aead.seal(writeKey, Nonce(writeCounter), chunk);
      writeCounter := Bump(writeCounter);
      var header := BigEndian(|ct|, 4);
      ok := raw.Write(header);
      if ok { ok := raw.Write(ct); }
    }

    /** The verdict on the first record is passed on once. */
    method Report(good: bool) returns (fired: Option<bool>)
      modifies this`reported
      ensures fired == if hooked && !old(reported) then Some(good) else None
      ensures reported == (old(reported) || hooked)
    {
      if reported || !hooked { return None; }
      reported := true;
      fired := Some(good);
    }

    method Read(cap: nat) returns (r: Result<seq<Byte>, ReadError>, fired: Option<bool>)
      modifies this`readCounter, this`readBuffer, this`reported, raw`arrived
      ensures var g := Reading(LinkOf(aead, readKey), old(InState()), old(raw.arrived), cap);
        && InState() == g.reader && raw.arrived == g.left && r == g.bytes
        && fired == (if g.took && hooked && !old(reported) then Some(g.bytes.Ok?) else None)
        && reported == (old(reported) || (g.took && hooked))
    {
      fired := None;
      if |readBuffer| == 0 {
        var record := ReadRecord(raw);
        if record.Err? {
          fired := Report(false);
          return Err(record.error), fired;
        }
        var plain := aead.open(readKey, Nonce(readCounter), record.value);
        fired := Report(plain.Some?);
        if plain.None? { return Err(WrongKey), fired; }
        readCounter := Bump(readCounter);
        readBuffer := plain.value;
      }
      var n := if cap < |readBuffer| then cap else |readBuffer|;
      r := Ok(readBuffer[..n]);
      readBuffer := readBuffer[n..];
    }
  }
}
