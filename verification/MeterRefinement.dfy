/** The panel's tables keep the ledger of every client: what accumulation and resets charge is
    what ClientMeter says about the client's records and counter rows
    (internal/storage/clienttraffic.go). */
module MeterRefinement {
  import opened Wrappers
  import opened Sums
  import opened Traffic
  import opened Metering
  import ClientMeter
  import Enforcement

  type Panel = Enforcement.Panel
  type Ledger = ClientMeter.Ledger
  type Peer = ClientMeter.Peer
  type Line = ClientMeter.Line

  /** The peers whose records the client holds. */
  ghost function PeersOf(s: Panel, c: string): set<Peer> {
    set k | k in s.peers && k.0 == c :: (k.1, s.peers[k])
  }

  ghost function LinesIn(counters: Enforcement.Counters): set<Line> {
    (set p | p in counters :: (p, Rx)) + (set p | p in counters :: (p, Tx))
  }

  /** The counter rows, line by line. */
  ghost function TableOf(counters: Enforcement.Counters): map<Line, nat> {
    map x | x in LinesIn(counters) :: Val(counters[x.0], x.1)
  }

  lemma {:induction false} TableAt(counters: Enforcement.Counters, p: Peer, d: Way)
    ensures (p, d) in TableOf(counters) <==> p in counters
    ensures Weight(TableOf(counters), (p, d)) == if p in counters then Val(counters[p], d) else 0
  {}

  // ---- the reading ---------------------------------------------------------------------------

  ghost function PeersAt(s: Panel, keys: set<(string, string)>): set<Peer> {
    set k | k in keys && k in s.peers :: (k.1, s.peers[k])
  }

  lemma {:induction false} KeysToLines(s: Panel, c: string, keys: set<(string, string)>, d: Way)
    requires forall k :: k in keys ==> k in s.peers && k.0 == c
    ensures Sum(keys, Enforcement.PeerColumn(s.peers, s.counters, d)) ==
      Sum(ClientMeter.LinesOf(PeersAt(s, keys), d), TableOf(s.counters))
  {
    if keys == {} {
      assert ClientMeter.LinesOf(PeersAt(s, keys), d) == {};
    } else {
      var k := Pick(keys);
      var rest := keys - {k};
      KeysToLines(s, c, rest, d);
      SumWithout(keys, k, Enforcement.PeerColumn(s.peers, s.counters, d));
      OneKeyOneLine(s, c, rest, k, d);
      assert rest + {k} == keys;
    }
  }

  lemma {:induction false} OneKeyOneLine(s: Panel, c: string, rest: set<(string, string)>, k: (string, string), d: Way)
    requires k in s.peers && k.0 == c && k !in rest && forall j :: j in rest ==> j in s.peers && j.0 == c
    ensures Sum(ClientMeter.LinesOf(PeersAt(s, rest + {k}), d), TableOf(s.counters)) ==
      Sum(ClientMeter.LinesOf(PeersAt(s, rest), d), TableOf(s.counters)) +
      Weight(Enforcement.PeerColumn(s.peers, s.counters, d), k)
  {
    var p := (k.1, s.peers[k]);
    assert PeersAt(s, rest + {k}) == PeersAt(s, rest) + {p};
    NotTwice(s, c, rest, k);
    ClientMeter.SumJoin(PeersAt(s, rest), TableOf(s.counters), p, d);
    TableAt(s.counters, p, d);
  }

  /** A client has one record on a node. */
  lemma {:induction false} NotTwice(s: Panel, c: string, rest: set<(string, string)>, k: (string, string))
    requires k in s.peers && k.0 == c && k !in rest && forall j :: j in rest ==> j in s.peers && j.0 == c
    ensures (k.1, s.peers[k]) !in PeersAt(s, rest)
  {
    forall j | j in rest ensures j.1 != k.1 {
      assert j == (j.0, j.1) && k == (k.0, k.1);
    }
  }

  /** The summed counters of a client's records, in either direction: the reading the panel
      charges is the ledger's. */
  lemma {:induction false} ReadingRefines(s: Panel, c: string, d: Way)
    ensures Val(Enforcement.ReadingOf(s.peers, s.counters, c), d) ==
      Val(ClientMeter.Total(PeersOf(s, c), TableOf(s.counters)), d)
  {
    ReadingIs(s, c, d);
    HeldLines(s, c, d);
  }

  lemma {:induction false} ReadingIs(s: Panel, c: string, d: Way)
    ensures Val(Enforcement.ReadingOf(s.peers, s.counters, c), d) ==
      Sum(KeysOf(s, c), Enforcement.PeerColumn(s.peers, s.counters, d))
  {
    UncountedAddNothing(s, c, d);
  }

  lemma {:induction false} HeldLines(s: Panel, c: string, d: Way)
    ensures Sum(KeysOf(s, c), Enforcement.PeerColumn(s.peers, s.counters, d)) ==
      Sum(ClientMeter.LinesOf(PeersOf(s, c), d), TableOf(s.counters))
  {
    assert PeersAt(s, KeysOf(s, c)) == PeersOf(s, c);
    KeysToLines(s, c, KeysOf(s, c), d);
  }

  ghost function KeysOf(s: Panel, c: string): set<(string, string)> { set k | k in s.peers && k.0 == c }

  lemma {:induction false} UncountedAddNothing(s: Panel, c: string, d: Way)
    ensures var column := Enforcement.PeerColumn(s.peers, s.counters, d);
      Sum(KeysOf(s, c), column) == Sum(Enforcement.Counted(s.peers, s.counters, c), column)
  {
    var counted := Enforcement.Counted(s.peers, s.counters, c);
    var rest := KeysOf(s, c) - counted;
    assert KeysOf(s, c) == counted + rest;
    SumUnion(counted, rest, Enforcement.PeerColumn(s.peers, s.counters, d));
    SumOfNothing(rest, Enforcement.PeerColumn(s.peers, s.counters, d));
  }

  lemma {:induction false} SumOfNothing<K>(s: set<K>, w: map<K, nat>)
    requires forall k :: k in s ==> Weight(w, k) == 0
    ensures Sum(s, w) == 0
  {
    if s != {} {
      var k := Pick(s);
      SumWithout(s, k, w);
      SumOfNothing(s - {k}, w);
    }
  }

  lemma {:induction false} CountedRefines(s: Panel, c: string, l: Ledger)
    requires l.present == PeersOf(s, c) && l.table == TableOf(s.counters)
    ensures Enforcement.Counted(s.peers, s.counters, c) != {} <==> ClientMeter.Counted(l)
    ensures c in Enforcement.ReadClients(s.peers, s.counters) <==> ClientMeter.Counted(l)
  {
    if k :| k in Enforcement.Counted(s.peers, s.counters, c) {
      TableAt(s.counters, (k.1, s.peers[k]), Rx);
      assert ((k.1, s.peers[k]), Rx).0 in l.present;
      assert k.0 in Enforcement.ReadClients(s.peers, s.counters);
    }
    if ClientMeter.Counted(l) {
      var x: Line :| x in l.table && x.0 in l.present;
      var k :| k in s.peers && k.0 == c && (k.1, s.peers[k]) == x.0;
      TableAt(s.counters, x.0, x.1);
      assert x == (x.0, x.1);
      assert k in Enforcement.Counted(s.peers, s.counters, c);
    }
    if c in Enforcement.ReadClients(s.peers, s.counters) {
      var k :| k in s.peers && (k.1, s.peers[k]) in s.counters && k.0 == c;
      assert k in Enforcement.Counted(s.peers, s.counters, c);
    }
  }

  // ---- a world of panel, relays and true traffic -----------------------------------------------

  /** The panel's tables beside the relays' live counters, the true traffic, and the true
      traffic the polls have seen. */
  datatype World = World(panel: Panel, live: map<Line, nat>, moved: map<Line, nat>, mark: map<Line, nat>)

  datatype Event = Moves(line: Line, bytes: nat) | Restarts(line: Line, lower: nat) | Polled(peer: Peer)
    | RecordSet(client: string, node: string, key: string) | RecordGone(client: string, node: string)
    | AccumulateAll | ResetOne(client: string, now: int) | ResetsDue(now: int)

  ghost function Happen(w: World, e: Event): World {
    match e
    case Moves(x, bytes) =>
      w.(live := w.live[x := Weight(w.live, x) + bytes], moved := w.moved[x := Weight(w.moved, x) + bytes])
    case Restarts(x, lower) => if lower >= Weight(w.live, x) then w else w.(live := w.live[x := lower])
    case Polled(p) =>
      w.(panel := w.panel.(counters := w.panel.counters[p := ClientMeter.PeerPair(w.live, p)]),
         mark := ClientMeter.Copy(w.mark, w.moved, p))
    case RecordSet(c, n, key) => w.(panel := w.panel.(peers := w.panel.peers[(c, n) := key]))
    case RecordGone(c, n) => w.(panel := w.panel.(peers := w.panel.peers - {(c, n)}))
    case AccumulateAll => w.(panel := Enforcement.Accumulated(w.panel))
    case ResetOne(c, now) => w.(panel := w.panel.(usage := w.panel.usage[c := ResetOf(w.panel, c, now)]))
    case ResetsDue(now) => w.(panel := Enforcement.DueReset(w.panel, now))
  }

  ghost function ResetOf(s: Panel, c: string, now: int): ClientRow {
    ResetRow(Enforcement.RowIn(s.usage, c), Enforcement.ReadingOf(s.peers, s.counters, c), now)
  }

  /** What the event means to one client. */
  ghost function Seen(w: World, e: Event, c: string): seq<ClientMeter.Action> {
    match e
    case Moves(x, bytes) => [ClientMeter.LineMoves(x, bytes)]
    case Restarts(x, lower) => [ClientMeter.LineRestarts(x, lower)]
    case Polled(p) => [ClientMeter.PeerPolled(p)]
    case RecordSet(other, n, key) =>
      if other != c then []
      else if (c, n) !in w.panel.peers then [ClientMeter.Join((n, key))]
      else if w.panel.peers[(c, n)] == key then []
      else [ClientMeter.Leave((n, w.panel.peers[(c, n)])), ClientMeter.Join((n, key))]
    case RecordGone(other, n) =>
      if other != c || (c, n) !in w.panel.peers then [] else [ClientMeter.Leave((n, w.panel.peers[(c, n)]))]
    case AccumulateAll => [ClientMeter.Accumulate]
    case ResetOne(other, now) => if other == c then [ClientMeter.Reset(now)] else []
    case ResetsDue(now) =>
      if c in w.panel.usage && Due(w.panel.usage[c], now) then [ClientMeter.Reset(now)] else []
  }

  ghost function HappenAll(w: World, events: seq<Event>): World {
    if events == [] then w else Happen(HappenAll(w, events[..|events| - 1]), events[|events| - 1])
  }

  ghost function SeenAll(w: World, events: seq<Event>, c: string): seq<ClientMeter.Action> {
    if events == [] then []
    else
      var n := |events| - 1;
      SeenAll(w, events[..n], c) + Seen(HappenAll(w, events[..n]), events[n], c)
  }

  /** The ledger holds what the panel holds of the client. */
  ghost predicate Mirrors(w: World, c: string, l: Ledger) {
    && l.present == PeersOf(w.panel, c) && l.table == TableOf(w.panel.counters)
    && l.live == w.live && l.moved == w.moved && l.mark == w.mark
    && c in w.panel.usage && l.row == w.panel.usage[c]
  }

  lemma {:induction false} ReadingMirrors(w: World, c: string, l: Ledger)
    requires l.present == PeersOf(w.panel, c) && l.table == TableOf(w.panel.counters)
    ensures Enforcement.ReadingOf(w.panel.peers, w.panel.counters, c) == ClientMeter.Reading(l)
  {
    ReadingRefines(w.panel, c, Rx);
    ReadingRefines(w.panel, c, Tx);
  }

  lemma {:induction false} PollMirrors(w: World, p: Peer)
    ensures TableOf(w.panel.counters[p := ClientMeter.PeerPair(w.live, p)]) ==
      ClientMeter.Copy(TableOf(w.panel.counters), w.live, p)
  {
    var a := TableOf(w.panel.counters[p := ClientMeter.PeerPair(w.live, p)]);
    var b := ClientMeter.Copy(TableOf(w.panel.counters), w.live, p);
    forall q: Peer, d: Way
      ensures (q, d) in a <==> (q, d) in b
      ensures Weight(a, (q, d)) == Weight(b, (q, d))
    {
      TableAt(w.panel.counters, q, d);
      TableAt(w.panel.counters[p := ClientMeter.PeerPair(w.live, p)], q, d);
      CopyAt(TableOf(w.panel.counters), w.live, p, q, d);
    }
    SameTable(a, b);
  }

  lemma {:induction false} CopyAt(to: map<Line, nat>, of: map<Line, nat>, p: Peer, q: Peer, d: Way)
    ensures (q, d) in ClientMeter.Copy(to, of, p) <==> q == p || (q, d) in to
    ensures Weight(ClientMeter.Copy(to, of, p), (q, d)) == if q == p then Weight(of, (q, d)) else Weight(to, (q, d))
  {}

  lemma {:induction false} SameTable(a: map<Line, nat>, b: map<Line, nat>)
    requires forall q, d :: (q, d) in a <==> (q, d) in b
    requires forall q, d :: Weight(a, (q, d)) == Weight(b, (q, d))
    ensures a == b
  {
    forall x: Line
      ensures x in a <==> x in b
      ensures Weight(a, x) == Weight(b, x)
    {
      assert x == (x.0, x.1);
    }
    assert a.Keys == b.Keys;
    assert forall x :: x in a ==> a[x] == Weight(a, x) && b[x] == Weight(b, x);
  }

  lemma {:induction false} AccumulateMirrors(w: World, c: string, l: Ledger)
    requires Mirrors(w, c, l)
    ensures Mirrors(Happen(w, AccumulateAll), c, ClientMeter.Act(l, ClientMeter.Accumulate))
  {
    ReadingMirrors(w, c, l);
    CountedRefines(w.panel, c, l);
    AccumulatedUsage(w.panel, c);
    var t := ClientMeter.Act(l, ClientMeter.Accumulate);
    assert t.row == if ClientMeter.Counted(l) then UsageFold(Some(l.row), ClientMeter.Reading(l)) else l.row;
    assert t.present == l.present && t.table == l.table && t.live == l.live && t.moved == l.moved && t.mark == l.mark;
  }

  /** What accumulating does to one client's row. */
  lemma {:induction false} AccumulatedUsage(s: Panel, c: string)
    ensures var t := Enforcement.Accumulated(s);
      var counted := c in Enforcement.ReadClients(s.peers, s.counters);
      var folded := UsageFold(Enforcement.RowIn(s.usage, c), Enforcement.ReadingOf(s.peers, s.counters, c));
      && t.peers == s.peers && t.counters == s.counters
      && (c in t.usage <==> c in s.usage || counted)
      && (counted ==> c in t.usage && t.usage[c] == folded)
      && (!counted && c in s.usage ==> t.usage[c] == s.usage[c])
  {}

  lemma {:induction false} ResetMirrors(w: World, c: string, l: Ledger, now: int)
    requires Mirrors(w, c, l)
    ensures ResetOf(w.panel, c, now) == ClientMeter.Act(l, ClientMeter.Reset(now)).row
  {
    ReadingMirrors(w, c, l);
  }

  /** The same meters with other records. */
  ghost predicate OnlyPresent(l: Ledger, e: Ledger, present: set<Peer>) {
    && e.present == present && e.row == l.row
    && e.live == l.live && e.moved == l.moved && e.table == l.table && e.mark == l.mark
  }

  lemma {:induction false} JoinAndLeave(l: Ledger, p: Peer)
    ensures OnlyPresent(l, ClientMeter.Act(l, ClientMeter.Join(p)), l.present + {p})
    ensures OnlyPresent(l, ClientMeter.Act(l, ClientMeter.Leave(p)), l.present - {p})
  {}

  lemma {:induction false} RecordActs(w: World, c: string, l: Ledger, n: string, key: string)
    requires Mirrors(w, c, l)
    ensures OnlyPresent(l, ClientMeter.Acts(l, Seen(w, RecordSet(c, n, key), c)),
      l.present - (if (c, n) in w.panel.peers then {(n, w.panel.peers[(c, n)])} else {}) + {(n, key)})
  {
    ActsOneOrTwo(l, Seen(w, RecordSet(c, n, key), c));
    if (c, n) !in w.panel.peers {
      JoinAndLeave(l, (n, key));
      assert l.present - {} == l.present;
    } else if w.panel.peers[(c, n)] == key {
      HeldPeer(w.panel, c, (n, key));
      assert l.present - {(n, key)} + {(n, key)} == l.present;
    } else {
      JoinAndLeave(l, (n, w.panel.peers[(c, n)]));
      JoinAndLeave(ClientMeter.Act(l, ClientMeter.Leave((n, w.panel.peers[(c, n)]))), (n, key));
    }
  }

  lemma {:induction false} RecordMirrors(w: World, c: string, l: Ledger, n: string, key: string)
    requires Mirrors(w, c, l)
    ensures Mirrors(Happen(w, RecordSet(c, n, key)), c, ClientMeter.Acts(l, Seen(w, RecordSet(c, n, key), c)))
  {
    PeersAfterSet(w.panel, c, n, key);
    RecordActs(w, c, l, n, key);
  }

  /** The peer that was on record at the node, if any, makes way for the new one. */
  lemma {:induction false} PeersAfterSet(s: Panel, c: string, n: string, key: string)
    ensures PeersOf(s.(peers := s.peers[(c, n) := key]), c) ==
      PeersOf(s, c) - (if (c, n) in s.peers then {(n, s.peers[(c, n)])} else {}) + {(n, key)}
  {
    var t := s.(peers := s.peers[(c, n) := key]);
    forall p
      ensures p in PeersOf(t, c) <==> p == (n, key) || (p in PeersOf(s, c) && p.0 != n)
      ensures p in PeersOf(s, c) && p.0 == n ==> (c, n) in s.peers && p == (n, s.peers[(c, n)])
    {
      HeldPeer(s, c, p);
      HeldPeer(t, c, p);
    }
  }

  lemma {:induction false} HeldPeer(s: Panel, c: string, p: Peer)
    ensures p in PeersOf(s, c) <==> (c, p.0) in s.peers && s.peers[(c, p.0)] == p.1
  {
    if (c, p.0) in s.peers && s.peers[(c, p.0)] == p.1 {
      assert (c, p.0).0 == c && p == ((c, p.0).1, s.peers[(c, p.0)]);
    }
    if p in PeersOf(s, c) {
      var k :| k in s.peers && k.0 == c && (k.1, s.peers[k]) == p;
      assert k == (k.0, k.1);
    }
  }

  lemma {:induction false} ActsOneOrTwo(l: Ledger, actions: seq<ClientMeter.Action>)
    ensures actions == [] ==> ClientMeter.Acts(l, actions) == l
    ensures |actions| == 1 ==> ClientMeter.Acts(l, actions) == ClientMeter.Act(l, actions[0])
    ensures |actions| == 2 ==>
      ClientMeter.Acts(l, actions) == ClientMeter.Act(ClientMeter.Act(l, actions[0]), actions[1])
  {
    if |actions| == 2 {
      assert actions[..1] == [actions[0]];
      assert ClientMeter.Acts(l, []) == l;
      assert [actions[0]][..0] == [];
      assert ClientMeter.Acts(l, [actions[0]]) == ClientMeter.Act(l, actions[0]);
    }
  }

  lemma {:induction false} GoneMirrors(w: World, c: string, l: Ledger, n: string)
    requires Mirrors(w, c, l)
    ensures Mirrors(Happen(w, RecordGone(c, n)), c, ClientMeter.Acts(l, Seen(w, RecordGone(c, n), c)))
  {
    var s, t := w.panel, Happen(w, RecordGone(c, n)).panel;
    var gone := if (c, n) in s.peers then {(n, s.peers[(c, n)])} else {};
    forall p ensures p in PeersOf(t, c) <==> p in PeersOf(s, c) - gone {
      HeldPeer(s, c, p);
      HeldPeer(t, c, p);
    }
    assert PeersOf(t, c) == PeersOf(s, c) - gone;
    ActsOneOrTwo(l, Seen(w, RecordGone(c, n), c));
  }

  lemma {:induction false} OthersMirror(w: World, e: Event, c: string, l: Ledger)
    requires Mirrors(w, c, l) && (e.RecordSet? || e.RecordGone?) && e.client != c
    ensures Mirrors(Happen(w, e), c, l)
  {
    var t := Happen(w, e).panel;
    forall p ensures p in PeersOf(t, c) <==> p in PeersOf(w.panel, c) {
      HeldPeer(w.panel, c, p);
      HeldPeer(t, c, p);
    }
    assert PeersOf(t, c) == PeersOf(w.panel, c);
  }

  lemma {:induction false} LineMirrors(w: World, e: Event, c: string, l: Ledger)
    requires Mirrors(w, c, l) && (e.Moves? || e.Restarts?)
    ensures Mirrors(Happen(w, e), c, ClientMeter.Acts(l, Seen(w, e, c)))
  {
    ActsOneOrTwo(l, Seen(w, e, c));
    if e.Moves? { MoveMirrors(w, e, c, l); } else { RestartMirrors(w, e, c, l); }
  }

  lemma {:induction false} MoveMirrors(w: World, e: Event, c: string, l: Ledger)
    requires Mirrors(w, c, l) && e.Moves?
    ensures Mirrors(Happen(w, e), c, ClientMeter.Act(l, ClientMeter.LineMoves(e.line, e.bytes)))
  {
    var m, v := ClientMeter.Act(l, ClientMeter.LineMoves(e.line, e.bytes)), Happen(w, e);
    assert m.present == l.present && m.table == l.table && m.mark == l.mark && m.row == l.row;
    assert v.panel == w.panel && v.mark == w.mark;
    assert m.live == v.live && m.moved == v.moved;
  }

  lemma {:induction false} RestartMirrors(w: World, e: Event, c: string, l: Ledger)
    requires Mirrors(w, c, l) && e.Restarts?
    ensures Mirrors(Happen(w, e), c, ClientMeter.Act(l, ClientMeter.LineRestarts(e.line, e.lower)))
  {}

  lemma {:induction false} PolledMirrors(w: World, p: Peer, c: string, l: Ledger)
    requires Mirrors(w, c, l)
    ensures Mirrors(Happen(w, Polled(p)), c, ClientMeter.Acts(l, Seen(w, Polled(p), c)))
  {
    ActsOneOrTwo(l, Seen(w, Polled(p), c));
    PollMirrors(w, p);
  }

  lemma {:induction false} AnyResetMirrors(w: World, e: Event, c: string, l: Ledger)
    requires Mirrors(w, c, l) && (e.ResetOne? || e.ResetsDue?)
    ensures Mirrors(Happen(w, e), c, ClientMeter.Acts(l, Seen(w, e, c)))
  {
    ActsOneOrTwo(l, Seen(w, e, c));
    ResetMirrors(w, c, l, e.now);
    if e.ResetOne? { OneResetMirrors(w, e, c, l); } else { DueResetMirrors(w, e, c, l); }
  }

  lemma {:induction false} OneResetMirrors(w: World, e: Event, c: string, l: Ledger)
    requires Mirrors(w, c, l) && e.ResetOne?
    requires ResetOf(w.panel, c, e.now) == ClientMeter.Act(l, ClientMeter.Reset(e.now)).row
    ensures Mirrors(Happen(w, e), c, if e.client == c then ClientMeter.Act(l, ClientMeter.Reset(e.now)) else l)
  {}

  lemma {:induction false} DueResetMirrors(w: World, e: Event, c: string, l: Ledger)
    requires Mirrors(w, c, l) && e.ResetsDue?
    requires ResetOf(w.panel, c, e.now) == ClientMeter.Act(l, ClientMeter.Reset(e.now)).row
    ensures Mirrors(Happen(w, e), c,
      if Due(w.panel.usage[c], e.now) then ClientMeter.Act(l, ClientMeter.Reset(e.now)) else l)
  {
    DueResetAt(w.panel, c, e.now);
    var r := ClientMeter.Act(l, ClientMeter.Reset(e.now));
    assert r.present == l.present && r.table == l.table && r.live == l.live && r.moved == l.moved && r.mark == l.mark;
  }

  /** What the scheduled resets do to one client's row. */
  lemma {:induction false} DueResetAt(s: Panel, c: string, now: int)
    requires c in s.usage
    ensures var t := Enforcement.DueReset(s, now);
      && t.peers == s.peers && t.counters == s.counters && c in t.usage
      && t.usage[c] == if Due(s.usage[c], now) then ResetOf(s, c, now) else s.usage[c]
  {}

  lemma {:induction false} EventMirrors(w: World, e: Event, c: string, l: Ledger)
    requires Mirrors(w, c, l)
    ensures Mirrors(Happen(w, e), c, ClientMeter.Acts(l, Seen(w, e, c)))
  {
    match e
    case Moves(_, _) => LineMirrors(w, e, c, l);
    case Restarts(_, _) => LineMirrors(w, e, c, l);
    case Polled(p) => PolledMirrors(w, p, c, l);
    case RecordSet(other, n, key) => if other == c { RecordMirrors(w, c, l, n, key); }
      else { OthersMirror(w, e, c, l); }
    case RecordGone(other, n) => if other == c { GoneMirrors(w, c, l, n); } else { OthersMirror(w, e, c, l); }
    case AccumulateAll => AccumulateMirrors(w, c, l); ActsOneOrTwo(l, Seen(w, e, c));
    case ResetOne(_, _) => AnyResetMirrors(w, e, c, l);
    case ResetsDue(_) => AnyResetMirrors(w, e, c, l);
  }

  /** In every run the panel keeps the client's ledger, whatever it does for other clients. */
  lemma {:induction false} PanelKeepsLedgers(w: World, events: seq<Event>, c: string, l: Ledger)
    requires Mirrors(w, c, l)
    ensures Mirrors(HappenAll(w, events), c, ClientMeter.Acts(l, SeenAll(w, events, c)))
  {
    if events == [] {
    } else {
      var n := |events| - 1;
      PanelKeepsLedgers(w, events[..n], c, l);
      var past := SeenAll(w, events[..n], c);
      var now := Seen(HappenAll(w, events[..n]), events[n], c);
      EventMirrors(HappenAll(w, events[..n]), events[n], c, ClientMeter.Acts(l, past));
      ClientMeter.ActsTogether(l, past, now);
    }
  }

  /** So what the panel has on record as used never exceeds what the client's peers moved, as
      long as nobody returns under an old key. */
  lemma {:induction false} PanelNeverOvercharges(w: World, events: seq<Event>, c: string, l: Ledger)
    requires Mirrors(w, c, l) && ClientMeter.Fair(l) && ClientMeter.Clean(l, SeenAll(w, events, c))
    ensures var e := ClientMeter.Acts(l, SeenAll(w, events, c));
      && c in HappenAll(w, events).panel.usage
      && HappenAll(w, events).panel.usage[c].used + e.base.rx + e.base.tx
           <= e.carried + ClientMeter.Moved(e).rx + ClientMeter.Moved(e).tx
  {
    PanelKeepsLedgers(w, events, c, l);
    ClientMeter.ClientNeverOvercharged(l, SeenAll(w, events, c));
  }

  /** And without restarts and with no record going it is exactly what was seen. */
  lemma {:induction false} PanelChargesExactly(w: World, events: seq<Event>, c: string, l: Ledger)
    requires Mirrors(w, c, l) && ClientMeter.Exact(l) && ClientMeter.Clean(l, SeenAll(w, events, c))
    requires forall i :: 0 <= i < |SeenAll(w, events, c)| ==>
      !SeenAll(w, events, c)[i].LineRestarts? && !SeenAll(w, events, c)[i].Leave?
    ensures var e := ClientMeter.Acts(l, SeenAll(w, events, c));
      && c in HappenAll(w, events).panel.usage
      && HappenAll(w, events).panel.usage[c].used + e.base.rx + e.base.tx
           == e.carried + e.accounted.rx + e.accounted.tx
  {
    PanelKeepsLedgers(w, events, c, l);
    ClientMeter.ClientChargedExactly(l, SeenAll(w, events, c));
  }

  /** A client that has no row yet gets one when first accumulated with a counted record, and its
      account starts with nothing used and the present reading. */
  lemma {:induction false} FirstRowMirrors(w: World, c: string, l: Ledger)
    requires l.present == PeersOf(w.panel, c) && l.table == TableOf(w.panel.counters) && c !in w.panel.usage
    ensures var t := Happen(w, AccumulateAll).panel;
      && (c in t.usage <==> ClientMeter.Counted(l))
      && (c in t.usage ==> t.usage[c].used == 0 && t.usage[c].last == ClientMeter.Reading(l))
  {
    ReadingMirrors(w, c, l);
    CountedRefines(w.panel, c, l);
  }
}
