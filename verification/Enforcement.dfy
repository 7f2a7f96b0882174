/** Cutting off clients that are disabled or over their limit
    (internal/storage/clienttraffic.go, internal/collector/collector.go,
    internal/provisioning/service.go). */
module Enforcement {
  import opened Wrappers
  import opened Sorting
  import opened Sums
  import opened Traffic
  import opened Metering

  datatype Client = Client(owner: int, disabled: bool, limit: nat)

  /** A peer record is keyed by client and node and holds the peer's public key; counters
      are keyed by node and public key. */
  type Peers = map<(string, string), string>
  type Counters = map<(string, string), Pair>

  datatype Panel = Panel(clients: map<string, Client>, usage: map<string, ClientRow>, peers: Peers, counters: Counters)

  function UsedBytes(usage: map<string, ClientRow>, c: string): nat {
    if c in usage then usage[c].used else 0
  }

  /** Disabled by hand, or at or over a limit that is set. */
  predicate Blocked(c: Client, used: nat) {
    c.disabled || (c.limit > 0 && used >= c.limit)
  }

  ghost predicate IsBlocked(s: Panel, c: string) {
    c in s.clients && Blocked(s.clients[c], UsedBytes(s.usage, c))
  }

  ghost predicate HasPeer(s: Panel, c: string) {
    exists n :: (c, n) in s.peers
  }

  // ---- a client's reading ----------------------------------------------------------------

  /** The client's peers that have a counter row. */
  ghost function Counted(peers: Peers, counters: Counters, c: string): set<(string, string)> {
    set k | k in peers && k.0 == c && (k.1, peers[k]) in counters
  }

  ghost function PeerColumn(peers: Peers, counters: Counters, d: Way): map<(string, string), nat> {
    map k | k in peers && (k.1, peers[k]) in counters :: Val(counters[(k.1, peers[k])], d)
  }

  ghost function ReadingOf(peers: Peers, counters: Counters, c: string): Pair {
    Pair(Sum(Counted(peers, counters, c), PeerColumn(peers, counters, Rx)),
         Sum(Counted(peers, counters, c), PeerColumn(peers, counters, Tx)))
  }

  method SumClientPeers(peers: Peers, counters: Counters, c: string) returns (some: bool, sum: Pair)
    ensures some <==> Counted(peers, counters, c) != {}
    ensures sum == ReadingOf(peers, counters, c)
  {
    var todo := set k | k in peers && k.0 == c && (k.1, peers[k]) in counters;
    some, sum := todo != {}, Pair(0, 0);
    ghost var done: set<(string, string)> := {};
    ghost var rx, tx := PeerColumn(peers, counters, Rx), PeerColumn(peers, counters, Tx);
    while todo != {}
      invariant done !! todo && done + todo == Counted(peers, counters, c)
      invariant sum == Pair(Sum(done, rx), Sum(done, tx))
      decreases todo
    {
      var k := AnyOf(todo);
      todo := todo - {k};
      SumUnion(done, {k}, rx);
      SumUnion(done, {k}, tx);
      SumOne(k, rx);
      SumOne(k, tx);
      done := done + {k};
      sum := Plus(sum, counters[(k.1, peers[k])]);
    }
    assert done == Counted(peers, counters, c);
  }

  // ---- what each operation does -------------------------------------------------------------

  /** Folds the given readings in; a client without one keeps its row. */
  ghost function FoldReadings(usage: map<string, ClientRow>, readings: map<string, Pair>): map<string, ClientRow> {
    map c | c in usage.Keys + readings.Keys ::
      if c in readings then UsageFold(RowIn(usage, c), readings[c]) else usage[c]
  }

  function RowIn(usage: map<string, ClientRow>, c: string): Option<ClientRow> {
    if c in usage then Some(usage[c]) else None
  }

  lemma {:induction false} FoldOneMore(usage: map<string, ClientRow>, readings: map<string, Pair>, c: string, r: Pair)
    requires c !in readings
    ensures FoldReadings(usage, readings[c := r]) == FoldReadings(usage, readings)[c := UsageFold(RowIn(usage, c), r)]
    ensures RowIn(FoldReadings(usage, readings), c) == RowIn(usage, c)
  {
    assert FoldReadings(usage, readings[c := r]).Keys == FoldReadings(usage, readings).Keys + {c};
  }

  /** The readings of every client that has a counted peer. */
  ghost function Readings(s: Panel): map<string, Pair> {
    map c | c in ReadClients(s.peers, s.counters) :: ReadingOf(s.peers, s.counters, c)
  }

  function ReadClients(peers: Peers, counters: Counters): set<string> {
    set k | k in peers && (k.1, peers[k]) in counters :: k.0
  }

  ghost function Accumulated(s: Panel): Panel {
    s.(usage := FoldReadings(s.usage, Readings(s)))
  }

  ghost function DueReset(s: Panel, now: int): Panel {
    s.(usage := map c | c in s.usage ::
      if Due(s.usage[c], now) then ResetRow(Some(s.usage[c]), ReadingOf(s.peers, s.counters, c), now) else s.usage[c])
  }

  ghost function ResetSome(s: Panel, some: set<string>, now: int): map<string, ClientRow> {
    map c | c in s.usage ::
      if c in some then ResetRow(Some(s.usage[c]), ReadingOf(s.peers, s.counters, c), now) else s.usage[c]
  }

  lemma {:induction false} ResetOneMore(s: Panel, some: set<string>, c: string, now: int)
    requires c in s.usage && c !in some
    ensures ResetSome(s, some, now)[c] == s.usage[c]
    ensures ResetSome(s, some + {c}, now) ==
      ResetSome(s, some, now)[c := ResetRow(Some(s.usage[c]), ReadingOf(s.peers, s.counters, c), now)]
  {}

  lemma {:induction false} ResetAllDue(s: Panel, now: int)
    ensures ResetSome(s, (set c | c in s.usage && Due(s.usage[c], now)), now) == DueReset(s, now).usage
    ensures ResetSome(s, {}, now) == s.usage
  {}

  ghost function ToCut(s: Panel): set<string> {
    set k | k in s.peers && IsBlocked(s, k.0) :: k.0
  }

  ghost function Deprovisioned(s: Panel, c: string): Panel {
    s.(peers := map k | k in s.peers && k.0 != c :: s.peers[k])
  }

  ghost function DeprovisionedAll(s: Panel, cut: set<string>): Panel {
    s.(peers := map k | k in s.peers && k.0 !in cut :: s.peers[k])
  }

  /** One completed cycle without other steps in between. */
  ghost function Cycled(s: Panel, now: int): Panel {
    var t := DueReset(Accumulated(s), now);
    DeprovisionedAll(t, ToCut(t))
  }

  datatype Backend = OwnWireguard | Xui(configured: bool, minted: Option<string>)

  /** A node a fresh peer is offered to, and whether it takes it. */
  datatype Offer = Offer(node: string, took: bool)

  /** A resolve call: who asks, where, whether each check of the caller passes, the peer the
      node reports having made, the node's backend, and the nodes a copy is offered to. */
  datatype Request = Request(
    client: string, node: string, tokenOk: bool, nodeKnown: bool, bearerOk: bool, allowed: bool,
    reported: string, backend: Backend, offers: seq<Offer>)

  datatype Answer = Unauthenticated | ResourceExhausted | UnknownNode | BadBearer | PermissionDenied
    | Internal | Config(key: string) | ProvisionLocally

  /** The node the client asked from has its record already; one that is down is skipped. */
  ghost function Replicated(peers: Peers, c: string, origin: string, key: string, offers: seq<Offer>): Peers {
    if offers == [] then peers
    else
      var k := |offers| - 1;
      var before := Replicated(peers, c, origin, key, offers[..k]);
      if offers[k].node == origin || !offers[k].took then before else before[(c, offers[k].node) := key]
  }

  ghost function Resolved(s: Panel, r: Request): (Panel, Answer) {
    if r.client !in s.clients || !r.tokenOk then (s, Unauthenticated)
    else if IsBlocked(s, r.client) then (s, ResourceExhausted)
    else PastGate(s, r)
  }

  /** What a resolve does once the client was found not to be blocked. */
  ghost function PastGate(s: Panel, r: Request): (Panel, Answer) {
    if !r.nodeKnown then (s, UnknownNode)
    else if !r.bearerOk then (s, BadBearer)
    else if !r.allowed then (s, PermissionDenied)
    else if r.reported != "" then
      (s.(peers := Replicated(s.peers[(r.client, r.node) := r.reported], r.client, r.node, r.reported, r.offers)),
       Config(r.reported))
    else if (r.client, r.node) in s.peers then (s, Config(s.peers[(r.client, r.node)]))
    else match r.backend
      case OwnWireguard => (s, ProvisionLocally)
      case Xui(configured, minted) =>
        if !configured || minted.None? then (s, Internal)
        else (s.(peers := s.peers[(r.client, r.node) := minted.value]), Config(minted.value))
  }

  /** The tables behind provisioning and enforcement. */
  class PanelStore {
    var clients: map<string, Client>
    var usage: map<string, ClientRow>
    var peers: Peers
    var counters: Counters

    ghost function State(): Panel
      reads this
    {
      Panel(clients, usage, peers, counters)
    }

    constructor ()
      ensures State() == Panel(map[], map[], map[], map[])
    {
      clients, usage, peers, counters := map[], map[], map[], map[];
    }

    method SetClientDisabled(c: string, owner: int, disabled: bool) returns (found: bool)
      modifies this`clients
      ensures found <==> c in old(clients) && old(clients)[c].owner == owner
      ensures clients == if found then old(clients)[c := old(clients)[c].(disabled := disabled)] else old(clients)
    {
      if c !in clients || clients[c].owner != owner { return false; }
      clients := clients[c := clients[c].(disabled := disabled)];
      found := true;
    }

    /** Sets cap and period; usage is untouched, and a first row starts from now. */
    method SetClientTrafficLimit(c: string, owner: int, limit: nat, periodDays: int, now: int) returns (found: bool)
      modifies this`clients, this`usage
      ensures found <==> c in old(clients) && old(clients)[c].owner == owner
      ensures !found ==> State() == old(State())
      ensures found ==>
        && clients == old(clients)[c := old(clients)[c].(limit := limit)]
        && usage == old(usage)[c := LimitRow(RowIn(old(usage), c), ReadingOf(peers, counters, c), periodDays, now)]
        && UsedBytes(usage, c) == UsedBytes(old(usage), c)
    {
      if c !in clients || clients[c].owner != owner { return false; }
      clients := clients[c := clients[c].(limit := limit)];
      var _, reading := SumClientPeers(peers, counters, c);
      usage := usage[c := LimitRow(RowIn(usage, c), reading, periodDays, now)];
      found := true;
    }

    method ResetClientTraffic(c: string, owner: int, now: int) returns (found: bool)
      modifies this`usage
      ensures found <==> c in clients && clients[c].owner == owner
      ensures usage == if found
        then old(usage)[c := ResetRow(RowIn(old(usage), c), ReadingOf(peers, counters, c), now)] else old(usage)
      ensures found ==> UsedBytes(usage, c) == 0
    {
      if c !in clients || clients[c].owner != owner { return false; }
      var _, reading := SumClientPeers(peers, counters, c);
      usage := usage[c := ResetRow(RowIn(usage, c), reading, now)];
      found := true;
    }

    /** The grouped query: one reading for each client with a counted peer. */
    method ClientReadings() returns (rows: map<string, Pair>)
      ensures rows == Readings(State())
    {
      rows := map[];
      var who := ReadClients(peers, counters);
      var todo := who;
      while todo != {}
        invariant rows.Keys !! todo && rows.Keys + todo == who
        invariant forall c :: c in rows ==> rows[c] == ReadingOf(peers, counters, c)
        decreases todo
      {
        var c := AnyOf(todo);
        todo := todo - {c};
        var _, reading := SumClientPeers(peers, counters, c);
        rows := rows[c := reading];
      }
      assert rows.Keys == Readings(State()).Keys;
    }

    method AccumulateClientTraffic()
      modifies this`usage
      ensures State() == Accumulated(old(State()))
    {
      var rows := ClientReadings();
      ghost var was, done := usage, map[];
      var todo := rows.Keys;
      assert FoldReadings(was, map[]) == usage;
      while todo != {}
        invariant done.Keys !! todo && done.Keys + todo == rows.Keys
        invariant forall c :: c in done ==> done[c] == rows[c]
        invariant usage == FoldReadings(was, done)
        decreases todo
      {
        var c := AnyOf(todo);
        todo := todo - {c};
        FoldOneMore(was, done, c, rows[c]);
        usage := usage[c := UsageFold(RowIn(usage, c), rows[c])];
        done := done[c := rows[c]];
      }
      assert done == rows;
    }

    method RunDueTrafficResets(now: int) returns (reset: set<string>)
      modifies this`usage
      ensures State() == DueReset(old(State()), now)
      ensures reset == set c | c in old(usage) && Due(old(usage)[c], now)
    {
      ghost var s := State();
      reset := set c | c in usage && Due(usage[c], now);
      var todo := reset;
      while todo != {}
        invariant todo <= reset && usage == ResetSome(s, reset - todo, now)
        decreases todo
      {
        var c := AnyOf(todo);
        var _, reading := SumClientPeers(peers, counters, c);
        ResetOneMore(s, reset - todo, c, now);
        usage := usage[c := ResetRow(Some(usage[c]), reading, now)];
        assert reset - (todo - {c}) == reset - todo + {c};
        todo := todo - {c};
      }
      assert reset - todo == reset;
      ResetAllDue(s, now);
    }

    /** The query's own condition; it lists exactly the blocked clients with a record. */
    method BlockedProvisionedClientIDs() returns (ids: set<string>)
      ensures ids == ToCut(State())
      ensures forall c :: c in ids <==> IsBlocked(State(), c) && HasPeer(State(), c)
    {
      ids := set k | k in peers && k.0 in clients &&
        (clients[k.0].disabled ||
          (clients[k.0].limit > 0 && (if k.0 in usage then usage[k.0].used else 0) >= clients[k.0].limit)) :: k.0;
      CutIsBlockedWithPeer(State());
      assert ids == ToCut(State());
    }

    /** Clears the client's records; what the relay answered does not matter. */
    method DeprovisionClient(c: string)
      modifies this`peers
      ensures State() == Deprovisioned(old(State()), c)
    {
      ghost var s := State();
      var todo := set k | k in peers && k.0 == c;
      while todo != {}
        invariant forall k :: k in todo ==> k in peers && k.0 == c
        invariant forall k :: k in peers <==> k in s.peers && (k.0 == c ==> k in todo)
        invariant forall k :: k in peers ==> peers[k] == s.peers[k]
        decreases todo
      {
        var k := AnyOf(todo);
        todo := todo - {k};
        peers := peers - {k};
      }
      assert peers == Deprovisioned(s, c).peers;
    }

    method EnforceTrafficLimits(now: int)
      modifies this`usage, this`peers
      ensures State() == Cycled(old(State()), now)
    {
      AccumulateClientTraffic();
      var reset := RunDueTrafficResets(now);
      var blocked := BlockedProvisionedClientIDs();
      DeprovisionEach(blocked);
    }

    method DeprovisionEach(blocked: set<string>)
      modifies this`peers
      ensures State() == DeprovisionedAll(old(State()), blocked)
    {
      ghost var t := State();
      var todo := blocked;
      ghost var done: set<string> := {};
      assert DeprovisionedAll(t, {}).peers == peers;
      while todo != {}
        invariant done !! todo && done + todo == blocked
        invariant peers == DeprovisionedAll(t, done).peers
        decreases todo
      {
        var c := AnyOf(todo);
        todo := todo - {c};
        DeprovisionClient(c);
        done := done + {c};
        assert peers == DeprovisionedAll(t, done).peers;
      }
      assert done == blocked;
    }

    method ResolveClientConfig(r: Request) returns (a: Answer)
      modifies this`peers
      ensures (State(), a) == Resolved(old(State()), r)
    {
      if r.client !in clients { return Unauthenticated; }
      if !r.tokenOk { return Unauthenticated; }
      if Blocked(clients[r.client], if r.client in usage then usage[r.client].used else 0) { return ResourceExhausted; }
      if !r.nodeKnown { return UnknownNode; }
      if !r.bearerOk { return BadBearer; }
      if !r.allowed { return PermissionDenied; }
      if r.reported != "" {
        peers := peers[(r.client, r.node) := r.reported];
        ReplicatePeer(r.client, r.node, r.reported, r.offers);
        return Config(r.reported);
      }
      if (r.client, r.node) in peers { return Config(peers[(r.client, r.node)]); }
      match r.backend {
        case OwnWireguard => return ProvisionLocally;
        case Xui(configured, minted) =>
          if !configured { return Internal; }
          if minted.None? { return Internal; }
          peers := peers[(r.client, r.node) := minted.value];
          return Config(minted.value);
      }
    }

    /** Copies a fresh peer to the other nodes that take it. */
    method ReplicatePeer(c: string, origin: string, key: string, offers: seq<Offer>)
      modifies this`peers
      ensures peers == Replicated(old(peers), c, origin, key, offers)
    {
      ghost var before := peers;
      for i := 0 to |offers|
        invariant peers == Replicated(before, c, origin, key, offers[..i])
      {
        assert offers[..i + 1][..i] == offers[..i];
        if offers[i].node == origin { continue; }
        if !offers[i].took { continue; }
        peers := peers[(c, offers[i].node) := key];
      }
      assert offers[..|offers|] == offers;
    }
  }

  // ---- what the gate and the cycle guarantee ----------------------------------------------

  lemma {:induction false} CutIsBlockedWithPeer(s: Panel)
    ensures forall c :: c in ToCut(s) <==> IsBlocked(s, c) && HasPeer(s, c)
  {
    forall c | IsBlocked(s, c) && HasPeer(s, c) ensures c in ToCut(s) {
      var n :| (c, n) in s.peers;
      assert (c, n).0 == c;
    }
    forall c | c in ToCut(s) ensures HasPeer(s, c) {
      var k :| k in s.peers && IsBlocked(s, k.0) && k.0 == c;
      assert k == (c, k.1);
    }
  }

  /** A record is a copy exactly when another node took the offer, and no record is lost. */
  ghost predicate Copied(k: (string, string), c: string, origin: string, offers: seq<Offer>) {
    k.0 == c && k.1 != origin && Offer(k.1, true) in offers
  }

  lemma {:induction false} ReplicasExactly(peers: Peers, c: string, origin: string, key: string, offers: seq<Offer>,
      k: (string, string))
    ensures var after := Replicated(peers, c, origin, key, offers);
      && (k in after <==> k in peers || Copied(k, c, origin, offers))
      && (k in after ==> after[k] == if Copied(k, c, origin, offers) then key else peers[k])
  {
    if offers == [] {
    } else {
      var n := |offers| - 1;
      ReplicasExactly(peers, c, origin, key, offers[..n], k);
      assert offers == offers[..n] + [offers[n]];
    }
  }

  /** The records a resolve adds or replaces. */
  ghost predicate Written(r: Request, k: (string, string)) {
    k == (r.client, r.node) || (r.reported != "" && Copied(k, r.client, r.node, r.offers))
  }

  /** A blocked client gets nothing and no record changes. Otherwise a configured client has
      the key it was told on record at the calling node and, if it was just reported, on
      exactly the other nodes that took a copy; every other record is as it was. */
  lemma {:induction false} ResolveRespectsTheGate(s: Panel, r: Request, k: (string, string))
    ensures var (t, a) := Resolved(s, r);
      && (IsBlocked(s, r.client) ==> t == s && a in {Unauthenticated, ResourceExhausted})
      && (a.Config? && Written(r, k) ==> k in t.peers && t.peers[k] == a.key)
      && (!(a.Config? && Written(r, k)) ==>
            (k in t.peers <==> k in s.peers) && (k in t.peers ==> t.peers[k] == s.peers[k]))
      && (!a.Config? ==> t == s)
      && t.clients == s.clients && t.usage == s.usage && t.counters == s.counters
  {
    ReplicasExactly(s.peers[(r.client, r.node) := r.reported], r.client, r.node, r.reported, r.offers, k);
  }

  /** Every check of the caller passes and the client is not blocked. */
  ghost predicate Admitted(s: Panel, r: Request) {
    && r.client in s.clients && r.tokenOk && !IsBlocked(s, r.client)
    && r.nodeKnown && r.bearerOk && r.allowed
  }

  /** Nobody is served and no record changes unless every check passes. Then a reported key is
      always taken, a record already held always answered, and only for a client with neither
      does the node's backend decide. */
  lemma {:induction false} OnlyTheAdmittedAreServed(s: Panel, r: Request)
    ensures var (t, a) := Resolved(s, r);
      var held := (r.client, r.node) in s.peers;
      && (a.Config? || a.ProvisionLocally? || t != s ==> Admitted(s, r))
      && (Admitted(s, r) && r.reported != "" ==> a == Config(r.reported))
      && (Admitted(s, r) && r.reported == "" && held ==> a == Config(s.peers[(r.client, r.node)]) && t == s)
      && (a.ProvisionLocally? <==> Admitted(s, r) && r.reported == "" && !held && r.backend.OwnWireguard?)
      && (Admitted(s, r) && r.reported == "" && !held && r.backend.Xui? ==>
            a == if r.backend.configured && r.backend.minted.Some? then Config(r.backend.minted.value) else Internal)
  {}

  /** Each refusal names the first check that fails; only a backend that cannot mint is an
      internal error. */
  lemma {:induction false} RefusalNamesTheCheck(s: Panel, r: Request)
    ensures var a := Resolved(s, r).1;
      var proven := r.client in s.clients && r.tokenOk;
      var open := proven && !IsBlocked(s, r.client);
      && (a == Unauthenticated <==> !proven)
      && (a == ResourceExhausted <==> proven && IsBlocked(s, r.client))
      && (a == UnknownNode <==> open && !r.nodeKnown)
      && (a == BadBearer <==> open && r.nodeKnown && !r.bearerOk)
      && (a == PermissionDenied <==> open && r.nodeKnown && r.bearerOk && !r.allowed)
      && (a == Internal ==> Admitted(s, r) && r.backend.Xui? && !(r.backend.configured && r.backend.minted.Some?))
  {}

  /** A client is blocked exactly if somebody switched it off or it has used up a limit; a client
      never accumulated has used nothing. */
  lemma {:induction false} BlockedExactly(s: Panel, c: string)
    requires c in s.clients
    ensures var used := if c in s.usage then s.usage[c].used else 0;
      !IsBlocked(s, c) <==> !s.clients[c].disabled && (s.clients[c].limit == 0 || used < s.clients[c].limit)
  {}

  /** After an undisturbed cycle no blocked client has a record, and every record of a
      client that is not blocked is kept. */
  lemma {:induction false} CycleLeavesNoneBlocked(s: Panel, now: int)
    ensures var t := Cycled(s, now);
      && (forall c :: !(IsBlocked(t, c) && HasPeer(t, c)))
      && (forall k :: k in s.peers && !IsBlocked(t, k.0) ==> k in t.peers && t.peers[k] == s.peers[k])
  {
    var u := DueReset(Accumulated(s), now);
    var t := Cycled(s, now);
    CutIsBlockedWithPeer(u);
    forall c | HasPeer(t, c) ensures !IsBlocked(t, c) {
      var n :| (c, n) in t.peers;
      assert (c, n) in u.peers && c !in ToCut(u);
      assert HasPeer(u, c);
    }
  }

  // ---- every run, statement by statement ---------------------------------------------------

  /** The panel; the clients the running cycle still has to cut; the one it is cutting, with
      the nodes it listed and has not cleared; the resolves that have passed the gate; the
      clients that became blocked since the cycle listed whom to cut; and the records that a
      resolve wrote while their client was blocked. */
  datatype Machine = Machine(panel: Panel, pending: set<string>, cutting: Option<(string, set<string>)>,
    gated: map<int, string>, turned: set<string>, late: set<(string, string)>)

  datatype Step =
    | Gate(request: int, client: string)
    | WriteRecord(request: int, node: string, key: string)
    | Finish(request: int)
    | Change(clients: map<string, Client>, usage: map<string, ClientRow>, counters: Counters)
    | DropPeer(client: string, node: string)
    | Accumulate
    | RunResets(now: int)
    | List
    | BeginCut(client: string)
    | CutPeer(node: string)
    | EndCut

  ghost function NewlyBlocked(s: Panel, t: Panel): set<string> {
    set c | c in t.clients && IsBlocked(t, c) && !IsBlocked(s, c)
  }

  ghost function Turned(m: Machine, t: Panel): Machine {
    m.(panel := t, turned := m.turned + NewlyBlocked(m.panel, t))
  }

  ghost function Cleared(m: Machine, c: string, n: string): Machine {
    m.(panel := m.panel.(peers := m.panel.peers - {(c, n)}), late := m.late - {(c, n)})
  }

  ghost function NodesOf(s: Panel, c: string): set<string> { set k | k in s.peers && k.0 == c :: k.1 }

  /** Resolves pass the gate and write each record in statements of their own; so does the
      cycle accumulate, reset, list, and clear each listed record. Change stands for any edit
      of clients, usage rows and counters: limits, switches, resets, polls, new clients. */
  ghost function Next(m: Machine, step: Step): Machine {
    match step
    case Gate(request, c) =>
      if request !in m.gated && c in m.panel.clients && !IsBlocked(m.panel, c)
        then m.(gated := m.gated[request := c]) else m
    case WriteRecord(request, node, key) =>
      if request !in m.gated then m
      else
        var c := m.gated[request];
        m.(panel := m.panel.(peers := m.panel.peers[(c, node) := key]),
           late := if IsBlocked(m.panel, c) then m.late + {(c, node)} else m.late - {(c, node)})
    case Finish(request) => m.(gated := m.gated - {request})
    case Change(clients, usage, counters) => Turned(m, Panel(clients, usage, m.panel.peers, counters))
    case DropPeer(c, n) => Cleared(m, c, n)
    case Accumulate => Turned(m, Accumulated(m.panel))
    case RunResets(now) => Turned(m, DueReset(m.panel, now))
    case List =>
      if m.pending != {} || m.cutting.Some? then m
      else m.(pending := ToCut(m.panel), turned := {})
    case BeginCut(c) =>
      if c !in m.pending || m.cutting.Some? then m else m.(cutting := Some((c, NodesOf(m.panel, c))))
    case CutPeer(n) =>
      if m.cutting.None? || n !in m.cutting.value.1 then m
      else
        var (c, rest) := m.cutting.value;
        Cleared(m, c, n).(cutting := Some((c, rest - {n})))
    case EndCut =>
      if m.cutting.None? || m.cutting.value.1 != {} then m
      else m.(pending := m.pending - {m.cutting.value.0}, cutting := None)
  }

  ghost function Run(m: Machine, steps: seq<Step>): Machine {
    if steps == [] then m else Next(Run(m, steps[..|steps| - 1]), steps[|steps| - 1])
  }

  ghost predicate Explained(m: Machine, c: string, n: string) { c in m.turned || (c, n) in m.late }

  /** Every record of a blocked client is still to be cut or explained, those of the client
      being cut are still to be cleared or explained, and late records exist. */
  ghost predicate Accounted(m: Machine) {
    && (forall c, n :: (c, n) in m.panel.peers && IsBlocked(m.panel, c) ==> c in m.pending || Explained(m, c, n))
    && (m.cutting.Some? ==> BeingCut(m, m.cutting.value.0, m.cutting.value.1))
    && forall k :: k in m.late ==> k in m.panel.peers
  }

  ghost predicate BeingCut(m: Machine, c: string, rest: set<string>) {
    forall n :: (c, n) in m.panel.peers && IsBlocked(m.panel, c) ==> n in rest || Explained(m, c, n)
  }

  /** Edits of everything but the records. */
  lemma {:induction false} TurnedKeepsAccounted(m: Machine, t: Panel)
    requires Accounted(m) && t.peers == m.panel.peers
    ensures Accounted(Turned(m, t))
  {
    forall c | IsBlocked(t, c) ensures IsBlocked(m.panel, c) || c in NewlyBlocked(m.panel, t) {}
  }

  lemma {:induction false} WriteKeepsAccounted(m: Machine, request: int, node: string, key: string)
    requires Accounted(m)
    ensures Accounted(Next(m, WriteRecord(request, node, key)))
  {
    var n := Next(m, WriteRecord(request, node, key));
    forall c, k | (c, k) in n.panel.peers && IsBlocked(n.panel, c)
      ensures IsBlocked(m.panel, c)
      ensures (c, k) in n.late || ((c, k) in m.panel.peers &&
        (Explained(m, c, k) ==> c in m.turned || (c, k) in n.late))
    {
    }
  }

  lemma {:induction false} ListKeepsAccounted(m: Machine)
    requires Accounted(m)
    ensures Accounted(Next(m, List))
  {
    forall c, n | (c, n) in m.panel.peers && IsBlocked(m.panel, c) ensures c in ToCut(m.panel) {
      assert (c, n).0 == c;
    }
  }

  lemma {:induction false} CutKeepsAccounted(m: Machine, step: Step)
    requires Accounted(m) && (step.BeginCut? || step.CutPeer? || step.EndCut? || step.DropPeer?)
    ensures Accounted(Next(m, step))
  {
    var n := Next(m, step);
    forall c, k | (c, k) in n.panel.peers
      ensures (c, k) in m.panel.peers && k in NodesOf(m.panel, c) && ((c, k) in m.late <==> (c, k) in n.late)
    {
      assert (c, k).0 == c && (c, k).1 == k;
    }
    forall c ensures IsBlocked(n.panel, c) <==> IsBlocked(m.panel, c) {}
  }

  lemma {:induction false} RunsStayAccounted(m: Machine, steps: seq<Step>)
    requires Accounted(m)
    ensures Accounted(Run(m, steps))
  {
    if steps == [] {
    } else {
      var n := |steps| - 1;
      RunsStayAccounted(m, steps[..n]);
      StepKeepsAccounted(Run(m, steps[..n]), steps[n]);
    }
  }

  lemma {:induction false} StepKeepsAccounted(m: Machine, step: Step)
    requires Accounted(m)
    ensures Accounted(Next(m, step))
  {
    match step
    case Gate(_, _) =>
    case Finish(_) =>
    case WriteRecord(request, node, key) => WriteKeepsAccounted(m, request, node, key);
    case Change(clients, usage, counters) => TurnedKeepsAccounted(m, Panel(clients, usage, m.panel.peers, counters));
    case Accumulate => TurnedKeepsAccounted(m, Accumulated(m.panel));
    case RunResets(now) => TurnedKeepsAccounted(m, DueReset(m.panel, now));
    case List => ListKeepsAccounted(m);
    case DropPeer(_, _) => CutKeepsAccounted(m, step);
    case BeginCut(_) => CutKeepsAccounted(m, step);
    case CutPeer(_) => CutKeepsAccounted(m, step);
    case EndCut => CutKeepsAccounted(m, step);
  }

  /** Cut-off safety: in every run, once a cycle has gone through its list, a client that is
      blocked, and was not blocked only after the cycle listed whom to cut, holds a record
      if and only if a resolve wrote one while the client was blocked and it is still there. */
  lemma {:induction false} CutOffSafety(m: Machine, steps: seq<Step>, c: string)
    requires Accounted(m)
    requires Run(m, steps).pending == {}
    requires IsBlocked(Run(m, steps).panel, c)
    ensures var e := Run(m, steps);
      c !in e.turned ==> (HasPeer(e.panel, c) <==> exists n :: (c, n) in e.late)
  {
    RunsStayAccounted(m, steps);
  }

  // ---- what the two bookkeeping sets mean ---------------------------------------------------

  /** The step writes the record for a client that passed the gate and is blocked by now. */
  ghost predicate WritesLate(m: Machine, step: Step, c: string, n: string) {
    && step.WriteRecord? && step.node == n && step.request in m.gated && m.gated[step.request] == c
    && IsBlocked(m.panel, c)
  }

  /** The step removes the record, or writes it for a client that is not blocked. */
  ghost predicate EndsLate(m: Machine, step: Step, c: string, n: string) {
    || step == DropPeer(c, n)
    || (step == CutPeer(n) && m.cutting.Some? && m.cutting.value.0 == c && n in m.cutting.value.1)
    || (step.WriteRecord? && step.node == n && step.request in m.gated && m.gated[step.request] == c
        && !IsBlocked(m.panel, c))
  }

  /** Step j does not end the record's being late. */
  ghost predicate Leaves(m: Machine, steps: seq<Step>, j: nat, c: string, n: string)
    requires j < |steps|
  {
    !EndsLate(Run(m, steps[..j]), steps[j], c, n)
  }

  ghost predicate LateSince(m: Machine, steps: seq<Step>, i: nat, c: string, n: string) {
    && i < |steps| && WritesLate(Run(m, steps[..i]), steps[i], c, n)
    && forall j: nat :: i < j < |steps| ==> Leaves(m, steps, j, c, n)
  }

  lemma {:induction false} LeavesEarlier(m: Machine, steps: seq<Step>, j: nat, c: string, n: string)
    requires j < |steps| - 1
    ensures Leaves(m, steps[..|steps| - 1], j, c, n) <==> Leaves(m, steps, j, c, n)
    ensures steps[..|steps| - 1][..j] == steps[..j]
  {
    assert steps[..|steps| - 1][..j] == steps[..j];
  }

  lemma {:induction false} StepLate(m: Machine, step: Step, c: string, n: string)
    ensures (c, n) in Next(m, step).late <==>
      WritesLate(m, step, c, n) || (!EndsLate(m, step, c, n) && (c, n) in m.late)
  {}

  lemma {:induction false} LateBefore(m: Machine, steps: seq<Step>, i: nat, c: string, n: string)
    requires i < |steps| - 1
    ensures LateSince(m, steps, i, c, n) <==>
      LateSince(m, steps[..|steps| - 1], i, c, n) && Leaves(m, steps, |steps| - 1, c, n)
  {
    var k := |steps| - 1;
    LeavesEarlier(m, steps, i, c, n);
    if LateSince(m, steps, i, c, n) {
      forall j: nat | i < j < k ensures Leaves(m, steps[..k], j, c, n) { LeavesEarlier(m, steps, j, c, n); }
    }
    if LateSince(m, steps[..k], i, c, n) && Leaves(m, steps, k, c, n) {
      forall j: nat | i < j < |steps| ensures Leaves(m, steps, j, c, n) {
        if j < k { LeavesEarlier(m, steps, j, c, n); }
      }
    }
  }

  lemma {:induction false} LateNext(m: Machine, steps: seq<Step>, c: string, n: string)
    requires steps != []
    ensures var k := |steps| - 1;
      (exists i: nat :: LateSince(m, steps, i, c, n)) <==>
        WritesLate(Run(m, steps[..k]), steps[k], c, n)
        || (Leaves(m, steps, k, c, n) && exists i: nat :: LateSince(m, steps[..k], i, c, n))
  {
    var k := |steps| - 1;
    if i: nat :| LateSince(m, steps, i, c, n) {
      if i < k { LateBefore(m, steps, i, c, n); }
    }
    if WritesLate(Run(m, steps[..k]), steps[k], c, n) { assert LateSince(m, steps, k, c, n); }
    if i: nat :| Leaves(m, steps, k, c, n) && LateSince(m, steps[..k], i, c, n) { LateBefore(m, steps, i, c, n); }
  }

  /** In every run a record counts as late exactly when a resolve past the gate wrote it while
      its client was blocked, and nobody has removed or rightly rewritten it since. */
  lemma {:induction false} LateIsWrittenWhileBlocked(m: Machine, steps: seq<Step>, c: string, n: string)
    requires m.late == {}
    ensures (c, n) in Run(m, steps).late <==> exists i: nat :: LateSince(m, steps, i, c, n)
  {
    if steps == [] {
    } else {
      var k := |steps| - 1;
      LateIsWrittenWhileBlocked(m, steps[..k], c, n);
      StepLate(Run(m, steps[..k]), steps[k], c, n);
      LateNext(m, steps, c, n);
    }
  }

  /** Step i blocked the client, and it has stayed blocked. */
  ghost predicate BlockedSince(m: Machine, steps: seq<Step>, i: nat, c: string) {
    && i < |steps| && !IsBlocked(Run(m, steps[..i]).panel, c)
    && forall j: nat :: i < j <= |steps| ==> IsBlocked(Run(m, steps[..j]).panel, c)
  }

  /** A client that was not blocked at the gate is blocked when the record is written if and
      only if some step in between blocked it and it has stayed so. */
  lemma {:induction false} BlockedInBetween(m: Machine, steps: seq<Step>, c: string)
    requires !IsBlocked(m.panel, c)
    ensures IsBlocked(Run(m, steps).panel, c) <==> exists i: nat :: BlockedSince(m, steps, i, c)
  {
    if i: nat :| BlockedSince(m, steps, i, c) {
      assert steps[..|steps|] == steps;
    }
    if IsBlocked(Run(m, steps).panel, c) { var i := LastBlocking(m, steps, c); }
  }

  lemma {:induction false} LastBlocking(m: Machine, steps: seq<Step>, c: string) returns (i: nat)
    requires !IsBlocked(m.panel, c) && IsBlocked(Run(m, steps).panel, c)
    ensures BlockedSince(m, steps, i, c)
  {
    var k := |steps| - 1;
    assert steps[..k + 1] == steps;
    if IsBlocked(Run(m, steps[..k]).panel, c) {
      i := LastBlocking(m, steps[..k], c);
      StaysSince(m, steps, i, c);
    } else {
      i := k;
    }
  }

  lemma {:induction false} StaysSince(m: Machine, steps: seq<Step>, i: nat, c: string)
    requires steps != [] && BlockedSince(m, steps[..|steps| - 1], i, c) && IsBlocked(Run(m, steps).panel, c)
    ensures BlockedSince(m, steps, i, c)
  {
    var k := |steps| - 1;
    assert steps[..k][..i] == steps[..i] && steps[..|steps|] == steps;
    forall j: nat | i < j <= |steps| ensures IsBlocked(Run(m, steps[..j]).panel, c) {
      if j <= k {
        assert steps[..k][..j] == steps[..j];
        assert IsBlocked(Run(m, steps[..k][..j]).panel, c);
      }
    }
  }

  const OPEN := Client(1, false, 0)
  const SHUT := map["c" := Client(1, true, 0)]
  const NOBODY_BLOCKED := Machine(Panel(map["c" := OPEN], map[], map[], map[]), {}, None, map[], {}, {})

  lemma {:induction false} GateThenShut()
    ensures Next(Next(NOBODY_BLOCKED, Gate(0, "c")), Change(SHUT, map[], map[])) ==
      Machine(Panel(SHUT, map[], map[], map[]), {}, None, map[0 := "c"], {"c"}, {})
  {
    assert OPEN == Client(1, false, 0) && !Blocked(OPEN, 0) && SHUT["c"].disabled;
    assert !IsBlocked(NOBODY_BLOCKED.panel, "c") && IsBlocked(Panel(SHUT, map[], map[], map[]), "c");
    assert NewlyBlocked(NOBODY_BLOCKED.panel, Panel(SHUT, map[], map[], map[])) == {"c"};
  }

  lemma {:induction false} ListThenWrite()
    ensures var shut := Machine(Panel(SHUT, map[], map[], map[]), {}, None, map[0 := "c"], {"c"}, {});
      Next(Next(shut, List), WriteRecord(0, "n", "k")) ==
        Machine(Panel(SHUT, map[], map[("c", "n") := "k"], map[]), {}, None, map[0 := "c"], {}, {("c", "n")})
  {
    var shut := Machine(Panel(SHUT, map[], map[], map[]), {}, None, map[0 := "c"], {"c"}, {});
    assert ToCut(shut.panel) == {};
    assert Next(shut, List) == shut.(turned := {});
  }

  /** It happens: the gate, then the client is disabled, then a whole cycle that finds no
      record to clear, then the write. Until the next cycle the record stays. */
  lemma {:induction false} LateWriteRevives()
    ensures var end := Run(NOBODY_BLOCKED, [Gate(0, "c"), Change(SHUT, map[], map[]), List, WriteRecord(0, "n", "k")]);
      && Accounted(NOBODY_BLOCKED) && end.pending == {}
      && IsBlocked(end.panel, "c") && HasPeer(end.panel, "c") && "c" !in end.turned
  {
    var m := NOBODY_BLOCKED;
    var steps := [Gate(0, "c"), Change(SHUT, map[], map[]), List, WriteRecord(0, "n", "k")];
    assert steps[..3][..2] == steps[..2] && steps[..2][..1] == steps[..1] && steps[..1][..0] == [];
    assert Run(m, []) == m;
    assert Run(m, steps[..1]) == Next(m, steps[0]);
    assert Run(m, steps[..2]) == Next(Run(m, steps[..1]), steps[1]);
    assert Run(m, steps[..3]) == Next(Run(m, steps[..2]), steps[2]);
    GateThenShut();
    ListThenWrite();
    var end := Machine(Panel(SHUT, map[], map[("c", "n") := "k"], map[]), {}, None, map[0 := "c"], {}, {("c", "n")});
    assert Run(m, steps) == end;
    assert ("c", "n") in end.panel.peers && SHUT["c"].disabled;
  }

  // ---- a key that returns ---------------------------------------------------------------------

  /** The client holds one record, of this key on this node. */
  ghost predicate HoldsOnly(s: Panel, c: string, n: string, key: string) {
    && (c, n) in s.peers && s.peers[(c, n)] == key
    && forall m :: (c, m) in s.peers ==> m == n
  }

  lemma {:induction false} CutLosesRecords(s: Panel, c: string, n: string)
    requires IsBlocked(s, c) && (c, n) in s.peers
    ensures var t := DeprovisionedAll(s, ToCut(s));
      && !HasPeer(t, c) && t.clients == s.clients && t.usage == s.usage && t.counters == s.counters
  {
    assert (c, n).0 == c;
    assert c in ToCut(s);
    forall m ensures (c, m) !in DeprovisionedAll(s, ToCut(s)).peers { assert (c, m).0 == c; }
  }

  /** Without a record a client reads zero and is not accumulated. */
  lemma {:induction false} NothingRead(s: Panel, c: string)
    requires !HasPeer(s, c)
    ensures ReadingOf(s.peers, s.counters, c) == Pair(0, 0) && c !in ReadClients(s.peers, s.counters)
  {
    forall k | k in s.peers ensures k.0 != c { assert k == (k.0, k.1); }
    assert Counted(s.peers, s.counters, c) == {};
  }

  lemma {:induction false} ResetReadsNothing(s: Panel, c: string, now: int)
    requires !HasPeer(s, c) && c in s.usage && Due(s.usage[c], now)
    ensures var t := DueReset(Accumulated(s), now);
      && t.peers == s.peers && t.counters == s.counters && t.clients == s.clients
      && c in t.usage && t.usage[c].used == 0 && t.usage[c].last == Pair(0, 0)
  {
    NothingRead(s, c);
    assert Accumulated(s).usage[c] == s.usage[c];
  }

  lemma {:induction false} OneRead(s: Panel, c: string, n: string, key: string)
    requires HoldsOnly(s, c, n, key) && (n, key) in s.counters
    ensures ReadingOf(s.peers, s.counters, c) == s.counters[(n, key)] && c in ReadClients(s.peers, s.counters)
  {
    assert (c, n).0 == c && (c, n).1 == n;
    forall k | k in Counted(s.peers, s.counters, c) ensures k == (c, n) { assert k == (k.0, k.1); }
    assert Counted(s.peers, s.counters, c) == {(c, n)};
    SumOne((c, n), PeerColumn(s.peers, s.counters, Rx));
    SumOne((c, n), PeerColumn(s.peers, s.counters, Tx));
  }

  lemma {:induction false} OldCounterIsCharged(s: Panel, c: string, n: string, key: string)
    requires HoldsOnly(s, c, n, key) && (n, key) in s.counters
    requires c in s.usage && s.usage[c].used == 0 && s.usage[c].last == Pair(0, 0)
    ensures var t := Accumulated(s);
      && t.counters == s.counters && t.clients == s.clients
      && c in t.usage && t.usage[c].used == s.counters[(n, key)].rx + s.counters[(n, key)].tx
  {
    OneRead(s, c, n, key);
  }

  /** The request of a client whose checks all pass, on a node that mints this key for it. */
  ghost function MintRequest(c: string, n: string, key: string): Request {
    Request(c, n, true, true, true, true, "", Xui(true, Some(key)), [])
  }

  lemma {:induction false} MintedAgain(s: Panel, c: string, n: string, key: string)
    requires c in s.clients && !IsBlocked(s, c) && !HasPeer(s, c)
    ensures var t := Resolved(s, MintRequest(c, n, key)).0;
      HoldsOnly(t, c, n, key) && t.clients == s.clients && t.usage == s.usage && t.counters == s.counters
  {
    assert (c, n) !in s.peers;
  }

  /** A client at its limit loses its record but not its counter row; the due reset sums no
      records and starts from zero; resolving again on a 3x-ui node, which mints the same key
      for a client, brings the row back, and the whole of it is charged. If the row alone holds
      the limit, the client is blocked again without a byte having moved. */
  lemma {:induction false} ReturningKeyIsCharged(s: Panel, c: string, n: string, key: string, now: int)
    requires c in s.clients && !s.clients[c].disabled && IsBlocked(s, c) && HoldsOnly(s, c, n, key)
    requires c in s.usage && Due(s.usage[c], now) && (n, key) in s.counters
    ensures var reset := DueReset(Accumulated(DeprovisionedAll(s, ToCut(s))), now);
      var end := Accumulated(Resolved(reset, MintRequest(c, n, key)).0);
      var row := s.counters[(n, key)];
      && c in reset.usage && reset.usage[c].used == 0 && !IsBlocked(reset, c) && !HasPeer(reset, c)
      && end.counters == s.counters && c in end.usage && end.usage[c].used == row.rx + row.tx
      && (row.rx + row.tx >= s.clients[c].limit ==> IsBlocked(end, c))
  {
    var cut := DeprovisionedAll(s, ToCut(s));
    CutLosesRecords(s, c, n);
    ResetReadsNothing(cut, c, now);
    var reset := DueReset(Accumulated(cut), now);
    MintedAgain(reset, c, n, key);
    OldCounterIsCharged(Resolved(reset, MintRequest(c, n, key)).0, c, n, key);
  }
}
