/** The record transport refines a plain byte stream, over every interleaving of reads and
    writes, and so does a server that resolves the derivation by trial. */
module StreamRefinement {
  import opened Wrappers
  import opened Bytes
  import opened RecordStream

  /** One direction: writer, wire and reader, and what the stream looks like from outside.
      `flight` holds the texts of the records on the wire, `tail` the start of a record
      that the wire broke off, `taken` the number of records read so far. */
  datatype Direction = Direction(
    writeCounter: nat, room: nat, wire: seq<Byte>, reader: Reader,
    accepted: seq<Byte>, delivered: seq<Byte>, taken: nat, flight: seq<seq<Byte>>, tail: seq<Byte>)

  ghost function Flat(chunks: seq<seq<Byte>>): seq<Byte> {
    if chunks == [] then [] else chunks[0] + Flat(chunks[1..])
  }

  ghost function Frames(l: Link, number: nat, chunks: seq<seq<Byte>>): seq<Byte>
    decreases |chunks|
  {
    if chunks == [] then [] else l.frame(number % COUNTER_SPAN, chunks[0]) + Frames(l, number + 1, chunks[1..])
  }

  lemma {:induction false} FlatAppend(chunks: seq<seq<Byte>>, more: seq<seq<Byte>>)
    ensures Flat(chunks + more) == Flat(chunks) + Flat(more)
  {
    var all := chunks + more;
    if chunks == [] {
      assert all == more;
    } else {
      assert all[0] == chunks[0] && all[1..] == chunks[1..] + more;
      FlatAppend(chunks[1..], more);
      assert Flat(all) == chunks[0] + Flat(all[1..]);
    }
  }

  lemma {:induction false} FramesAppend(l: Link, number: nat, chunks: seq<seq<Byte>>, more: seq<seq<Byte>>)
    ensures Frames(l, number, chunks + more) ==
      Frames(l, number, chunks) + Frames(l, number + |chunks|, more)
    decreases |chunks|
  {
    var all := chunks + more;
    if chunks == [] {
      assert all == more;
    } else {
      assert all[0] == chunks[0] && all[1..] == chunks[1..] + more;
      FramesAppend(l, number + 1, chunks[1..], more);
      assert Frames(l, number, all) == l.frame(number % COUNTER_SPAN, chunks[0]) + Frames(l, number + 1, all[1..]);
    }
  }

  /** The bytes on the wire are whole records of the text in flight, then perhaps a broken
      one; reader and writer agree on the count; nothing is lost, added or reordered. */
  ghost predicate Inv(l: Link, d: Direction) {
    && d.wire == Frames(l, d.taken, d.flight) + d.tail
    && (forall i :: 0 <= i < |d.flight| ==> ChunkSized(d.flight[i]))
    && d.reader.counter == d.taken % COUNTER_SPAN
    && (d.room > 0 ==> d.tail == [] && d.writeCounter == (d.taken + |d.flight|) % COUNTER_SPAN)
    && Broken(l, d.tail)
    && d.delivered + d.reader.buffer + Flat(d.flight) == d.accepted
  }

  function Start(room: nat): Direction {
    Direction(0, room, [], Reader(0, []), [], [], 0, [], [])
  }

  /** The texts of the records that went out whole, and the start of one that did not. */
  ghost function WholeChunks(l: Link, counter: nat, p: seq<Byte>, room: nat): (seq<seq<Byte>>, seq<Byte>)
    decreases |p|
  {
    if p == [] then ([], [])
    else
      var chunk := FirstChunk(p);
      var frame := l.frame(counter, chunk);
      if |frame| > room then ([], frame[..room])
      else
        var (more, stub) := WholeChunks(l, Bump(counter), p[|chunk|..], room - |frame|);
        ([chunk] + more, stub)
  }

  /** What was put on the wire, told as records: the bytes counted as written are exactly
      the text of the whole ones, and what follows them is not a record. */
  ghost predicate Tells(l: Link, number: nat, p: seq<Byte>, room: nat, s: Sent, chunks: seq<seq<Byte>>,
      stub: seq<Byte>) {
    && s.bytes == Frames(l, number, chunks) + stub && |s.bytes| <= room
    && s.count <= |p| && Flat(chunks) == p[..s.count]
    && (forall i :: 0 <= i < |chunks| ==> ChunkSized(chunks[i]))
    && Broken(l, stub)
    && (s.ok ==> stub == [] && s.count == |p| && s.counter == (number + |chunks|) % COUNTER_SPAN)
    && (!s.ok ==> |s.bytes| == room)
  }

  lemma {:induction false} TellsMore(l: Link, number: nat, p: seq<Byte>, room: nat, more: Sent,
      chunks: seq<seq<Byte>>, stub: seq<Byte>)
    requires p != []
    requires var frame := l.frame(number % COUNTER_SPAN, FirstChunk(p));
      |frame| <= room && Tells(l, number + 1, p[|FirstChunk(p)|..], room - |frame|, more, chunks, stub)
    ensures var chunk := FirstChunk(p);
      var frame := l.frame(number % COUNTER_SPAN, chunk);
      Tells(l, number, p, room,
        Sent(frame + more.bytes, |chunk| + more.count, more.counter, more.ok), [chunk] + chunks, stub)
  {
    var chunk := FirstChunk(p);
    var all := [chunk] + chunks;
    assert all[1..] == chunks && all[0] == chunk;
    assert Flat(all) == chunk + Flat(chunks);
    assert p == chunk + p[|chunk|..];
    assert p[..|chunk| + more.count] == chunk + p[|chunk|..][..more.count];
    assert l.frame(number % COUNTER_SPAN, chunk) + (Frames(l, number + 1, chunks) + stub)
      == l.frame(number % COUNTER_SPAN, chunk) + Frames(l, number + 1, chunks) + stub;
  }

  lemma {:induction false} BumpCounts(n: nat)
    ensures Bump(n % COUNTER_SPAN) == (n + 1) % COUNTER_SPAN
  {}

  lemma {:induction false} SendingIsFrames(l: Link, number: nat, p: seq<Byte>, room: nat)
    requires Faithful(l)
    ensures Tells(l, number, p, room, Sending(l, number % COUNTER_SPAN, p, room),
      WholeChunks(l, number % COUNTER_SPAN, p, room).0, WholeChunks(l, number % COUNTER_SPAN, p, room).1)
    decreases |p|
  {
    if p == [] {
    } else {
      var counter := number % COUNTER_SPAN;
      var chunk := FirstChunk(p);
      var frame := l.frame(counter, chunk);
      if |frame| > room {
        assert Broken(l, frame[..room]);
      } else {
        BumpCounts(number);
        SendingIsFrames(l, number + 1, p[|chunk|..], room - |frame|);
        var (chunks, stub) := WholeChunks(l, Bump(counter), p[|chunk|..], room - |frame|);
        TellsMore(l, number, p, room, Sending(l, Bump(counter), p[|chunk|..], room - |frame|), chunks, stub);
      }
    }
  }

  /** Every record but the last of a write is as large as a record may be. */
  lemma {:induction false} ChunksAreFull(l: Link, counter: nat, p: seq<Byte>, room: nat)
    ensures var chunks := WholeChunks(l, counter, p, room).0;
      forall i :: 0 <= i < |chunks| && (i + 1 < |chunks| || |Flat(chunks)| < |p|) ==> |chunks[i]| == 16384
    ensures |Flat(WholeChunks(l, counter, p, room).0)| <= |p|
    decreases |p|
  {
    if p == [] {
    } else {
      var chunk := FirstChunk(p);
      if |l.frame(counter, chunk)| <= room {
        var rest := WholeChunks(l, Bump(counter), p[|chunk|..], room - |l.frame(counter, chunk)|).0;
        ChunksAreFull(l, Bump(counter), p[|chunk|..], room - |l.frame(counter, chunk)|);
        var chunks := [chunk] + rest;
        assert chunks[1..] == rest && Flat(chunks) == chunk + Flat(rest);
        assert rest != [] ==> p[|chunk|..] != [];
      }
    }
  }

  // ---- one step ------------------------------------------------------------------------

  ghost function WriteStep(l: Link, d: Direction, p: seq<Byte>): Direction {
    var (chunks, stub) := WholeChunks(l, d.writeCounter, p, d.room);
    Written(d, p, Sending(l, d.writeCounter, p, d.room), chunks, stub)
  }

  ghost function Written(d: Direction, p: seq<Byte>, s: Sent, chunks: seq<seq<Byte>>, stub: seq<Byte>): Direction {
    d.(writeCounter := s.counter,
       room := if |s.bytes| <= d.room then d.room - |s.bytes| else 0,
       wire := d.wire + s.bytes,
       accepted := d.accepted + (if s.count <= |p| then p[..s.count] else p),
       flight := d.flight + chunks,
       tail := d.tail + stub)
  }

  /** Nothing is buffered and no whole record is on the wire: the reader waits. */
  ghost predicate Waiting(d: Direction) {
    d.reader.buffer == [] && d.flight == []
  }

  ghost function ReadStep(l: Link, d: Direction, cap: nat): Direction {
    var g := Reading(l, d.reader, d.wire, cap);
    if Waiting(d) || g.bytes.Err? then d else TakenIn(d, g)
  }

  ghost function TakenIn(d: Direction, g: Got): Direction
    requires g.bytes.Ok?
  {
    var took := d.reader.buffer == [] && d.flight != [];
    d.(reader := g.reader, wire := g.left, delivered := d.delivered + g.bytes.value,
       taken := if took then d.taken + 1 else d.taken,
       flight := if took then d.flight[1..] else d.flight)
  }

  lemma {:induction false} WriteOnBrokenWire(l: Link, counter: nat, p: seq<Byte>)
    requires Faithful(l)
    ensures var s := Sending(l, counter, p, 0); s.bytes == [] && s.count == 0
    ensures WholeChunks(l, counter, p, 0) == ([], [])
  {
    if p != [] {
      assert ChunkSized(FirstChunk(p)) && l.frame(counter, FirstChunk(p)) != [];
    }
  }

  lemma {:induction false} WrittenWire(l: Link, d: Direction, chunks: seq<seq<Byte>>, stub: seq<Byte>)
    requires Inv(l, d) && d.room > 0
    ensures d.wire + (Frames(l, d.taken + |d.flight|, chunks) + stub) == Frames(l, d.taken, d.flight + chunks) + stub
  {
    FramesAppend(l, d.taken, d.flight, chunks);
    assert d.wire == Frames(l, d.taken, d.flight);
  }

  lemma {:induction false} WrittenText(l: Link, d: Direction, chunks: seq<seq<Byte>>)
    requires Inv(l, d)
    ensures d.delivered + d.reader.buffer + Flat(d.flight + chunks) == d.accepted + Flat(chunks)
  {
    FlatAppend(d.flight, chunks);
    assert d.delivered + d.reader.buffer + (Flat(d.flight) + Flat(chunks))
      == d.delivered + d.reader.buffer + Flat(d.flight) + Flat(chunks);
  }

  lemma {:induction false} WrittenKeepsInv(l: Link, d: Direction, p: seq<Byte>, s: Sent, chunks: seq<seq<Byte>>,
      stub: seq<Byte>)
    requires Faithful(l) && Inv(l, d) && d.room > 0
    requires Tells(l, d.taken + |d.flight|, p, d.room, s, chunks, stub)
    ensures Inv(l, Written(d, p, s, chunks, stub))
  {
    WrittenWire(l, d, chunks, stub);
    WrittenText(l, d, chunks);
    assert d.tail + stub == stub;
    var flight := d.flight + chunks;
    forall i | 0 <= i < |flight| ensures ChunkSized(flight[i]) {
      assert flight[i] == if i < |d.flight| then d.flight[i] else chunks[i - |d.flight|];
    }
  }

  lemma {:induction false} WriteKeepsInv(l: Link, d: Direction, p: seq<Byte>)
    requires Faithful(l) && Inv(l, d)
    ensures Inv(l, WriteStep(l, d, p))
  {
    var (chunks, stub) := WholeChunks(l, d.writeCounter, p, d.room);
    if d.room == 0 {
      WriteOnBrokenWire(l, d.writeCounter, p);
      BrokenKeepsInv(l, d, p, Sending(l, d.writeCounter, p, d.room));
    } else {
      SendingIsFrames(l, d.taken + |d.flight|, p, d.room);
      WrittenKeepsInv(l, d, p, Sending(l, d.writeCounter, p, d.room), chunks, stub);
    }
  }

  lemma {:induction false} BrokenKeepsInv(l: Link, d: Direction, p: seq<Byte>, s: Sent)
    requires Inv(l, d) && d.room == 0 && s.bytes == [] && s.count == 0
    ensures Inv(l, Written(d, p, s, [], []))
  {
    var e := Written(d, p, s, [], []);
    assert e.wire == d.wire && e.flight == d.flight && e.tail == d.tail && e.accepted == d.accepted;
  }

  /** Reading never fails while a whole record is there, and a waiting reader would only
      ever see the end of the stream, never a record that was not sent. */
  lemma {:induction false} ReadGetsNextRecord(l: Link, d: Direction, cap: nat)
    requires Faithful(l) && Inv(l, d)
    ensures var g := Reading(l, d.reader, d.wire, cap);
      if Waiting(d) then g.bytes == Err(EndOfStream)
      else if d.reader.buffer != [] then g == Hand(d.reader, d.wire, cap, false)
      else g == Hand(Reader((d.taken + 1) % COUNTER_SPAN, d.flight[0]),
                     Frames(l, d.taken + 1, d.flight[1..]) + d.tail, cap, true)
  {
    if d.reader.buffer == [] && d.flight != [] {
      NextOnWire(l, d);
      BumpCounts(d.taken);
    } else if d.reader.buffer == [] {
      assert d.wire == d.tail;
    }
  }

  lemma {:induction false} NextOnWire(l: Link, d: Direction)
    requires Faithful(l) && Inv(l, d) && d.flight != []
    ensures l.next(d.reader.counter, d.wire) == (Ok(d.flight[0]), Frames(l, d.taken + 1, d.flight[1..]) + d.tail)
  {
    var head, rest := l.frame(d.reader.counter, d.flight[0]), Frames(l, d.taken + 1, d.flight[1..]);
    assert ChunkSized(d.flight[0]);
    assert head + rest + d.tail == head + (rest + d.tail);
  }

  /** The text a read has at hand: what is buffered, else that of the next record. */
  ghost function AtHand(d: Direction): seq<Byte>
    requires !Waiting(d)
  {
    if d.reader.buffer != [] then d.reader.buffer else d.flight[0]
  }

  /** A read that need not wait delivers as much of the text at hand as fits, from its start,
      and keeps exactly the rest. */
  lemma {:induction false} ReadDelivers(l: Link, d: Direction, cap: nat)
    requires Faithful(l) && Inv(l, d) && !Waiting(d)
    ensures var e := ReadStep(l, d, cap);
      && d.delivered <= e.delivered && e.delivered[|d.delivered|..] + e.reader.buffer == AtHand(d)
      && |e.delivered| - |d.delivered| == (if cap < |AtHand(d)| then cap else |AtHand(d)|)
      && e.flight == (if d.reader.buffer != [] then d.flight else d.flight[1..])
      && e.accepted == d.accepted
    ensures Reading(l, d.reader, d.wire, cap).bytes == Ok(ReadStep(l, d, cap).delivered[|d.delivered|..])
  {
    ReadGetsNextRecord(l, d, cap);
    var text := AtHand(d);
    var n := if cap < |text| then cap else |text|;
    var e := ReadStep(l, d, cap);
    assert e.delivered == d.delivered + text[..n];
    assert text == text[..n] + text[n..];
  }

  lemma {:induction false} HandKeepsText(buffer: seq<Byte>, cap: nat, before: seq<Byte>, after: seq<Byte>)
    ensures var n := if cap < |buffer| then cap else |buffer|;
      (before + buffer[..n]) + buffer[n..] + after == before + buffer + after
  {
    var n := if cap < |buffer| then cap else |buffer|;
    assert buffer == buffer[..n] + buffer[n..];
  }

  lemma {:induction false} FromBufferKeepsInv(l: Link, d: Direction, cap: nat)
    requires Inv(l, d)
    requires d.reader.buffer != []
    ensures Inv(l, TakenIn(d, Hand(d.reader, d.wire, cap, false)))
  {
    HandKeepsText(d.reader.buffer, cap, d.delivered, Flat(d.flight));
  }

  lemma {:induction false} FromWireKeepsInv(l: Link, d: Direction, cap: nat)
    requires Inv(l, d)
    requires d.reader.buffer == [] && d.flight != []
    ensures var reader := Reader((d.taken + 1) % COUNTER_SPAN, d.flight[0]);
      Inv(l, TakenIn(d, Hand(reader, Frames(l, d.taken + 1, d.flight[1..]) + d.tail, cap, true)))
  {
    HandKeepsText(d.flight[0], cap, d.delivered, Flat(d.flight[1..]));
    assert d.delivered + d.reader.buffer + (d.flight[0] + Flat(d.flight[1..]))
      == d.delivered + d.flight[0] + Flat(d.flight[1..]);
  }

  lemma {:induction false} ReadKeepsInv(l: Link, d: Direction, cap: nat)
    requires Faithful(l) && Inv(l, d)
    ensures Inv(l, ReadStep(l, d, cap))
  {
    ReadGetsNextRecord(l, d, cap);
    if d.reader.buffer != [] {
      FromBufferKeepsInv(l, d, cap);
    } else if d.flight != [] {
      FromWireKeepsInv(l, d, cap);
    }
  }

  // ---- every run ---------------------------------------------------------------------------

  datatype Step = DoWrite(p: seq<Byte>) | DoRead(cap: nat)

  ghost function Run(l: Link, room: nat, steps: seq<Step>): Direction {
    if steps == [] then Start(room)
    else
      var n := |steps| - 1;
      var d := Run(l, room, steps[..n]);
      match steps[n]
      case DoWrite(p) => WriteStep(l, d, p)
      case DoRead(cap) => ReadStep(l, d, cap)
  }

  lemma {:induction false} RunsKeepInv(l: Link, room: nat, steps: seq<Step>)
    requires Faithful(l)
    ensures Inv(l, Run(l, room, steps))
  {
    if steps == [] {
      assert Inv(l, Start(room));
    } else {
      var n := |steps| - 1;
      RunsKeepInv(l, room, steps[..n]);
      match steps[n]
      case DoWrite(p) => WriteKeepsInv(l, Run(l, room, steps[..n]), p);
      case DoRead(cap) => ReadKeepsInv(l, Run(l, room, steps[..n]), cap);
    }
  }

  // ---- whoever reads on gets all of it --------------------------------------------------------

  ghost function Reads(caps: seq<nat>): seq<Step> {
    seq(|caps|, i requires 0 <= i < |caps| => DoRead(caps[i]))
  }

  lemma {:induction false} FlatOfChunks(chunks: seq<seq<Byte>>)
    requires forall i :: 0 <= i < |chunks| ==> ChunkSized(chunks[i])
    ensures |Flat(chunks)| >= |chunks|
  {
    if chunks == [] {
    } else {
      FlatOfChunks(chunks[1..]);
    }
  }

  /** After n reads nothing was lost, and unless the reader waits each delivered a byte. */
  ghost predicate ReadOn(d: Direction, e: Direction, n: nat) {
    e.accepted == d.accepted && |e.delivered| >= |d.delivered| && (!Waiting(e) ==> |e.delivered| >= |d.delivered| + n)
  }

  lemma {:induction false} OneMoreRead(l: Link, d: Direction, e: Direction, n: nat, cap: nat)
    requires Faithful(l) && Inv(l, e) && ReadOn(d, e, n) && cap > 0
    ensures ReadOn(d, ReadStep(l, e, cap), n + 1)
  {
    if !Waiting(e) {
      ReadDelivers(l, e, cap);
      assert AtHand(e) != [];
    }
  }

  lemma {:induction false} ReadsReadOn(l: Link, room: nat, steps: seq<Step>, caps: seq<nat>)
    requires Faithful(l) && forall i :: 0 <= i < |caps| ==> caps[i] > 0
    ensures ReadOn(Run(l, room, steps), Run(l, room, steps + Reads(caps)), |caps|)
  {
    if caps == [] {
      assert steps + Reads(caps) == steps;
    } else {
      var n := |caps| - 1;
      ReadsReadOn(l, room, steps, caps[..n]);
      var all := steps + Reads(caps);
      assert all[..|all| - 1] == steps + Reads(caps[..n]);
      RunsKeepInv(l, room, all[..|all| - 1]);
      OneMoreRead(l, Run(l, room, steps), Run(l, room, all[..|all| - 1]), n, caps[n]);
    }
  }

  lemma {:induction false} NothingMissing(l: Link, e: Direction)
    requires Inv(l, e)
    ensures |e.delivered| <= |e.accepted|
    ensures !Waiting(e) ==> |e.delivered| < |e.accepted|
    ensures Waiting(e) ==> e.delivered == e.accepted
  {
    FlatOfChunks(e.flight);
    assert |e.accepted| == |e.delivered| + |e.reader.buffer| + |Flat(e.flight)|;
  }

  /** From every reachable state, as many reads as bytes are missing, of any sizes but zero,
      deliver everything that was accepted and leave nothing buffered or in flight. */
  lemma {:induction false} ReadingOnDrains(l: Link, room: nat, steps: seq<Step>, caps: seq<nat>)
    requires Faithful(l) && forall i :: 0 <= i < |caps| ==> caps[i] > 0
    requires var d := Run(l, room, steps); |d.delivered| + |caps| >= |d.accepted|
    ensures var d, e := Run(l, room, steps), Run(l, room, steps + Reads(caps));
      Waiting(e) && e.delivered == e.accepted == d.accepted
  {
    ReadsReadOn(l, room, steps, caps);
    RunsKeepInv(l, room, steps + Reads(caps));
    NothingMissing(l, Run(l, room, steps + Reads(caps)));
  }

  /** For every interleaving of writes and reads of any size, and wherever the wire breaks:
      what was delivered is a prefix of what the writes reported as written, and what is still
      missing is exactly the buffer and the text in flight. */
  lemma {:induction false} StreamRefinesBytes(l: Link, room: nat, steps: seq<Step>)
    requires Faithful(l)
    ensures var d := Run(l, room, steps);
      && d.delivered <= d.accepted
      && d.delivered + d.reader.buffer + Flat(d.flight) == d.accepted
      && (Waiting(d) ==> d.delivered == d.accepted)
      && d.reader.counter == d.taken % COUNTER_SPAN
      && (d.room > 0 ==> d.writeCounter == (d.taken + |d.flight|) % COUNTER_SPAN)
  {
    RunsKeepInv(l, room, steps);
  }

  /** The same for the transport itself, under the ideal cipher. */
  lemma {:induction false} TransportRefinesBytes(a: Aead, keys: set<Key>, key: Key, room: nat, steps: seq<Step>)
    requires Ideal(a, keys) && key in keys
    ensures var d := Run(LinkOf(a, key), room, steps);
      && d.delivered + d.reader.buffer + Flat(d.flight) == d.accepted
      && (Waiting(d) ==> d.delivered == d.accepted)
  {
    LinkIsFaithful(a, keys, key);
    StreamRefinesBytes(LinkOf(a, key), room, steps);
  }
}
