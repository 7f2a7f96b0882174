/** Live delivery to devices and panel sessions, on one replica and across several
    (internal/guardianhub/hub.go). */
module Hub {
  import opened Wrappers
  import opened Sums

  /** Connections are known by number; an event stands for its whole payload. */
  type Sink = int
  type Event = int

  /** A connection in its role: a panel session of one admin, or a device's session. A
      connection registered for two admins is two sessions and hears a broadcast twice. */
  datatype Session = Panel(id: int, sink: Sink) | Device(client: string, sink: Sink)

  /** Whom a message is for: one admin's sessions, every session, or one device. */
  datatype Target = ToAdmin(id: int) | ToAll | ToClient(client: string)

  datatype Envelope = Envelope(origin: string, target: Target, event: Event)

  datatype State = State(clients: map<string, Sink>, admins: map<int, set<Sink>>)

  ghost function SessionsOf(h: State, target: Target): set<Session> {
    match target
    case ToAdmin(id) => if id in h.admins then set k | k in h.admins[id] :: Panel(id, k) else {}
    case ToAll => set id, k | id in h.admins && k in h.admins[id] :: Panel(id, k)
    case ToClient(c) => if c in h.clients then {Device(c, h.clients[c])} else {}
  }

  ghost function Attached(h: State, c: string, k: Sink): State { h.(clients := h.clients[c := k]) }

  ghost function Detached(h: State, c: string, k: Sink): State {
    if c in h.clients && h.clients[c] == k then h.(clients := h.clients - {c}) else h
  }

  ghost function AdminAttached(h: State, id: int, k: Sink): State {
    h.(admins := h.admins[id := (if id in h.admins then h.admins[id] else {}) + {k}])
  }

  ghost function AdminDetached(h: State, id: int, k: Sink): State {
    if id !in h.admins then h
    else if h.admins[id] - {k} == {} then h.(admins := h.admins - {id})
    else h.(admins := h.admins[id := h.admins[id] - {k}])
  }

  /** One replica's hub. `log` is what its connections were sent, `outbox` what it published. */
  class Hub {
    const instance: string
    const hasBus: bool
    var clients: map<string, Sink>
    var admins: map<int, set<Sink>>
    var log: seq<(Session, Event)>
    var outbox: seq<Envelope>

    ghost function Here(): State
      reads this
    {
      State(clients, admins)
    }

    constructor (instance: string, hasBus: bool)
      ensures this.instance == instance && this.hasBus == hasBus
      ensures Here() == State(map[], map[]) && log == [] && outbox == []
    {
      this.instance, this.hasBus := instance, hasBus;
      clients, admins, log, outbox := map[], map[], [], [];
    }

    /** The connection that was there before, if any, is to be closed as replaced. */
    method AttachClient(c: string, k: Sink) returns (replaced: Option<Sink>)
      modifies this`clients
      ensures Here() == Attached(old(Here()), c, k)
      ensures replaced == if c in old(clients) then Some(old(clients)[c]) else None
    {
      replaced := if c in clients then Some(clients[c]) else None;
      clients := clients[c := k];
    }

    method DetachClient(c: string, k: Sink)
      modifies this`clients
      ensures Here() == Detached(old(Here()), c, k)
    {
      if c in clients && clients[c] == k { clients := clients - {c}; }
    }

    method AttachAdmin(id: int, k: Sink)
      modifies this`admins
      ensures Here() == AdminAttached(old(Here()), id, k)
    {
      var before := if id in admins then admins[id] else {};
      admins := admins[id := before + {k}];
    }

    method DetachAdmin(id: int, k: Sink)
      modifies this`admins
      ensures Here() == AdminDetached(old(Here()), id, k)
    {
      if id in admins {
        var left := admins[id] - {k};
        if left == {} { admins := admins - {id}; } else { admins := admins[id := left]; }
      }
    }

    /** Sends an event once to each of a set of sessions, in no particular order. */
    method DeliverTo(sessions: set<Session>, event: Event)
      modifies this`log
      ensures multiset(log) == multiset(old(log)) + Each(sessions, event)
    {
      var todo := sessions;
      ghost var done: set<Session> := {};
      while todo != {}
        invariant done !! todo && done + todo == sessions
        invariant multiset(log) == multiset(old(log)) + Each(done, event)
        decreases todo
      {
        var k := AnyOf(todo);
        todo := todo - {k};
        EachMore(done, k, event);
        done := done + {k};
        log := log + [(k, event)];
      }
      assert done == sessions;
    }

    method FanoutToAdmin(id: int, event: Event)
      modifies this`log, this`outbox
      ensures multiset(log) == multiset(old(log)) + Each(SessionsOf(Here(), ToAdmin(id)), event)
      ensures outbox == if hasBus then old(outbox) + [Envelope(instance, ToAdmin(id), event)] else old(outbox)
    {
      DeliverTo(if id in admins then set k | k in admins[id] :: Panel(id, k) else {}, event);
      if hasBus { outbox := outbox + [Envelope(instance, ToAdmin(id), event)]; }
    }

    method BroadcastToAdmins(event: Event)
      modifies this`log, this`outbox
      ensures multiset(log) == multiset(old(log)) + Each(SessionsOf(Here(), ToAll), event)
      ensures outbox == if hasBus then old(outbox) + [Envelope(instance, ToAll, event)] else old(outbox)
    {
      DeliverTo(set id, k | id in admins && k in admins[id] :: Panel(id, k), event);
      if hasBus { outbox := outbox + [Envelope(instance, ToAll, event)]; }
    }

    /** Sent here, or published for the replica that holds the device, or refused. */
    method SendToClient(c: string, event: Event, online: bool) returns (ok: bool)
      modifies this`log, this`outbox
      ensures ok <==> c in clients || (online && hasBus)
      ensures log == if c in clients then old(log) + [(Device(c, clients[c]), event)] else old(log)
      ensures outbox == if c !in clients && online && hasBus
        then old(outbox) + [Envelope(instance, ToClient(c), event)] else old(outbox)
    {
      if c in clients {
        log := log + [(Device(c, clients[c]), event)];
        return true;
      }
      if !online || !hasBus { return false; }
      outbox := outbox + [Envelope(instance, ToClient(c), event)];
      ok := true;
    }

    /** What the bus hands over: admin messages of our own are skipped, device frames are not. */
    method OnBus(e: Envelope)
      modifies this`log
      ensures multiset(log) == multiset(old(log)) +
        (if e.target.ToClient? || e.origin != instance then Each(SessionsOf(Here(), e.target), e.event) else multiset{})
    {
      match e.target {
        case ToClient(c) =>
          if c in clients {
            EachMore({}, Device(c, clients[c]), e.event);
            log := log + [(Device(c, clients[c]), e.event)];
          }
        case ToAdmin(id) =>
          if e.origin == instance { return; }
          DeliverTo(if id in admins then set k | k in admins[id] :: Panel(id, k) else {}, e.event);
        case ToAll =>
          if e.origin == instance { return; }
          DeliverTo(set id, k | id in admins && k in admins[id] :: Panel(id, k), e.event);
      }
    }
  }

  ghost function Each(sessions: set<Session>, event: Event): multiset<(Session, Event)> {
    multiset(set k | k in sessions :: (k, event))
  }

  lemma {:induction false} EachMore(done: set<Session>, k: Session, event: Event)
    requires k !in done
    ensures Each(done + {k}, event) == Each(done, event) + multiset{(k, event)}
    ensures Each({}, event) == multiset{}
  {
    assert (set j | j in done + {k} :: (j, event)) == (set j | j in done :: (j, event)) + {(k, event)};
  }

  /** Each of the sessions hears this event once, and nobody hears anything else. */
  lemma {:induction false} EachHearsOnce(sessions: set<Session>, event: Event, k: Session, e: Event)
    ensures Each(sessions, event)[(k, e)] == if k in sessions && e == event then 1 else 0
  {
    assert (k, e) in (set j | j in sessions :: (j, event)) <==> k in sessions && e == event;
  }

  // ---- several replicas on one bus ----------------------------------------------------------

  /** Messages are numbered in the order they are published; `pending` holds what the bus
      still owes to each replica, and `got` who was sent which message, how often. */
  datatype Fleet = Fleet(hubs: map<string, State>, messages: seq<Envelope>, pending: set<(nat, string)>,
    got: multiset<(nat, Session)>)

  datatype Step =
    | Publish(replica: string, target: Target, event: Event, online: bool)
    | Deliver(message: nat, replica: string)
    | ClientComes(replica: string, client: string, sink: Sink)
    | ClientGoes(replica: string, client: string, sink: Sink)
    | AdminComes(replica: string, id: int, sink: Sink)
    | AdminGoes(replica: string, id: int, sink: Sink)

  ghost function Marked(m: nat, sessions: set<Session>): multiset<(nat, Session)> {
    multiset(set k | k in sessions :: (m, k))
  }

  /** A device frame is refused if the device is not here and not known to be online. */
  ghost predicate Refused(f: Fleet, s: Step) {
    s.Publish? && (s.replica !in f.hubs ||
      (s.target.ToClient? && SessionsOf(f.hubs[s.replica], s.target) == {} && !s.online))
  }

  /** Publishing serves the publisher's own sessions at once. A device frame goes to the bus
      only if the device is not here. The bus hands every message once to every replica. */
  ghost function Next(f: Fleet, s: Step): Fleet {
    match s
    case Publish(r, target, event, _) =>
      if Refused(f, s) then f
      else
        var m := |f.messages|;
        var here := SessionsOf(f.hubs[r], target);
        var owed := if target.ToClient? && here != {} then {} else set q | q in f.hubs :: (m, q);
        Fleet(f.hubs, f.messages + [Envelope(r, target, event)], f.pending + owed, f.got + Marked(m, here))
    case Deliver(m, r) =>
      if (m, r) !in f.pending || m >= |f.messages| || r !in f.hubs then f
      else
        var e := f.messages[m];
        var sessions := if e.target.ToClient? || e.origin != r then SessionsOf(f.hubs[r], e.target) else {};
        f.(pending := f.pending - {(m, r)}, got := f.got + Marked(m, sessions))
    case ClientComes(r, c, k) => if r in f.hubs then f.(hubs := f.hubs[r := Attached(f.hubs[r], c, k)]) else f
    case ClientGoes(r, c, k) => if r in f.hubs then f.(hubs := f.hubs[r := Detached(f.hubs[r], c, k)]) else f
    case AdminComes(r, id, k) => if r in f.hubs then f.(hubs := f.hubs[r := AdminAttached(f.hubs[r], id, k)]) else f
    case AdminGoes(r, id, k) => if r in f.hubs then f.(hubs := f.hubs[r := AdminDetached(f.hubs[r], id, k)]) else f
  }

  /** A message is refused exactly if it is for a device that no replica is said to hold while
      this one does not; every other is sent here or put on the bus for every replica. */
  lemma {:induction false} SentUnlessRefused(f: Fleet, r: string, target: Target, event: Event, online: bool)
    requires r in f.hubs
    ensures var n := Next(f, Publish(r, target, event, online));
      var absent := target.ToClient? && target.client !in f.hubs[r].clients;
      && (n == f <==> absent && !online)
      && (n != f ==> n.messages == f.messages + [Envelope(r, target, event)])
      && (n != f && (absent || !target.ToClient?) ==> forall q :: q in f.hubs ==> (|f.messages|, q) in n.pending)
  {
    var n := Next(f, Publish(r, target, event, online));
    assert |n.messages| == |f.messages| || n.messages != f.messages;
  }

  ghost function Run(f: Fleet, steps: seq<Step>): Fleet {
    if steps == [] then f else Next(Run(f, steps[..|steps| - 1]), steps[|steps| - 1])
  }

  /** The step ends the registration of connection k for device c on replica r. */
  ghost predicate Ends(s: Step, r: string, c: string, k: Sink) {
    s == ClientGoes(r, c, k) || (s.ClientComes? && s.replica == r && s.client == c)
  }

  ghost predicate LastWord(steps: seq<Step>, i: nat, r: string, c: string, k: Sink) {
    && i < |steps| && steps[i] == ClientComes(r, c, k)
    && forall j :: i < j < |steps| ==> !Ends(steps[j], r, c, k)
  }

  ghost predicate Registered(f: Fleet, r: string, c: string, k: Sink) {
    r in f.hubs && c in f.hubs[r].clients && f.hubs[r].clients[c] == k
  }

  lemma {:induction false} LastWordNext(steps: seq<Step>, r: string, c: string, k: Sink)
    requires steps != []
    ensures var n := |steps| - 1;
      (exists i: nat :: LastWord(steps, i, r, c, k)) <==>
        steps[n] == ClientComes(r, c, k) ||
          (!Ends(steps[n], r, c, k) && exists i: nat :: LastWord(steps[..n], i, r, c, k))
  {
    var n := |steps| - 1;
    if i: nat :| LastWord(steps, i, r, c, k) {
      if i < n { assert LastWord(steps[..n], i, r, c, k); }
    }
    if steps[n] == ClientComes(r, c, k) { assert LastWord(steps, n, r, c, k); }
    if i: nat :| !Ends(steps[n], r, c, k) && LastWord(steps[..n], i, r, c, k) {
      assert LastWord(steps, i, r, c, k);
    }
  }

  /** In every run a connection is the registered one exactly when it came last and has not
      itself gone since. A late goodbye of a connection it replaced changes nothing. */
  lemma {:induction false} LastToComeStays(f: Fleet, steps: seq<Step>, r: string, c: string, k: Sink)
    requires r in f.hubs && c !in f.hubs[r].clients
    ensures Registered(Run(f, steps), r, c, k) <==> exists i: nat :: LastWord(steps, i, r, c, k)
    ensures Run(f, steps).hubs.Keys == f.hubs.Keys
  {
    if steps == [] {
    } else {
      LastToComeStays(f, steps[..|steps| - 1], r, c, k);
      StepRegisters(Run(f, steps[..|steps| - 1]), steps[|steps| - 1], r, c, k);
      LastWordNext(steps, r, c, k);
    }
  }

  lemma {:induction false} StepRegisters(f: Fleet, s: Step, r: string, c: string, k: Sink)
    requires r in f.hubs
    ensures Registered(Next(f, s), r, c, k) <==>
      s == ClientComes(r, c, k) || (!Ends(s, r, c, k) && Registered(f, r, c, k))
    ensures Next(f, s).hubs.Keys == f.hubs.Keys
  {}

  ghost predicate PanelWord(steps: seq<Step>, i: nat, r: string, id: int, k: Sink) {
    && i < |steps| && steps[i] == AdminComes(r, id, k)
    && forall j :: i < j < |steps| ==> steps[j] != AdminGoes(r, id, k)
  }

  lemma {:induction false} PanelWordNext(steps: seq<Step>, r: string, id: int, k: Sink)
    requires steps != []
    ensures var n := |steps| - 1;
      (exists i: nat :: PanelWord(steps, i, r, id, k)) <==>
        steps[n] == AdminComes(r, id, k)
        || (steps[n] != AdminGoes(r, id, k) && exists i: nat :: PanelWord(steps[..n], i, r, id, k))
  {
    var n := |steps| - 1;
    if i: nat :| PanelWord(steps, i, r, id, k) {
      if i < n { assert PanelWord(steps[..n], i, r, id, k); }
    }
    if steps[n] == AdminComes(r, id, k) { assert PanelWord(steps, n, r, id, k); }
    if i: nat :| steps[n] != AdminGoes(r, id, k) && PanelWord(steps[..n], i, r, id, k) {
      assert PanelWord(steps, i, r, id, k);
    }
  }

  /** No admin is kept without connections. */
  ghost predicate NoEmptySets(h: State) { forall id :: id in h.admins ==> h.admins[id] != {} }

  lemma {:induction false} StepOpens(f: Fleet, s: Step, r: string, id: int, k: Sink)
    requires r in f.hubs
    ensures r in Next(f, s).hubs
    ensures Open(Next(f, s).hubs[r], Panel(id, k)) <==>
      s == AdminComes(r, id, k) || (s != AdminGoes(r, id, k) && Open(f.hubs[r], Panel(id, k)))
  {
    match s
    case AdminComes(q, j, i) => if q == r { ComingOpens(f.hubs[r], j, i, Panel(id, k)); }
    case AdminGoes(q, j, i) => if q == r { GoingCloses(f.hubs[r], j, i, Panel(id, k)); }
    case ClientComes(_, _, _) =>
    case ClientGoes(_, _, _) =>
    case Publish(_, _, _, _) =>
    case Deliver(_, _) =>
  }

  lemma {:induction false} ComingOpens(h: State, id: int, k: Sink, s: Session)
    requires s.Panel?
    ensures Open(AdminAttached(h, id, k), s) <==> s == Panel(id, k) || Open(h, s)
  {}

  lemma {:induction false} GoingCloses(h: State, id: int, k: Sink, s: Session)
    requires s.Panel?
    ensures Open(AdminDetached(h, id, k), s) <==> s != Panel(id, k) && Open(h, s)
  {
    if id in h.admins && s.id == id {
      assert s.sink in h.admins[id] - {k} <==> s.sink in h.admins[id] && s.sink != k;
    }
  }

  lemma {:induction false} StepKeepsNoneEmpty(f: Fleet, s: Step, r: string)
    requires r in f.hubs && NoEmptySets(f.hubs[r])
    ensures r in Next(f, s).hubs && NoEmptySets(Next(f, s).hubs[r])
  {}

  /** In every run a panel connection is registered for an admin exactly when it came for that
      admin and has not gone for them since, whatever other connections of the admin do; and an
      admin without connections is not kept. */
  lemma {:induction false} PanelsStayUntilTheyGo(f: Fleet, steps: seq<Step>, r: string, id: int, k: Sink)
    requires r in f.hubs && !Open(f.hubs[r], Panel(id, k)) && NoEmptySets(f.hubs[r])
    ensures r in Run(f, steps).hubs && NoEmptySets(Run(f, steps).hubs[r])
    ensures Open(Run(f, steps).hubs[r], Panel(id, k)) <==> exists i: nat :: PanelWord(steps, i, r, id, k)
  {
    if steps == [] {
    } else {
      PanelsStayUntilTheyGo(f, steps[..|steps| - 1], r, id, k);
      StepOpens(Run(f, steps[..|steps| - 1]), steps[|steps| - 1], r, id, k);
      StepKeepsNoneEmpty(Run(f, steps[..|steps| - 1]), steps[|steps| - 1], r);
      PanelWordNext(steps, r, id, k);
    }
  }

  /** The bus owes only messages that exist, to replicas that exist. */
  ghost predicate Sane(f: Fleet) {
    && (forall p :: p in f.pending ==> p.0 < |f.messages| && p.1 in f.hubs)
    && (forall g :: g in f.got ==> g.0 < |f.messages|)
  }

  lemma {:induction false} MarkedIsOf(m: nat, sessions: set<Session>)
    ensures forall g :: g in Marked(m, sessions) ==> g.0 == m
  {
    var s := set k | k in sessions :: (m, k);
    assert forall g :: g in Marked(m, sessions) <==> g in s;
  }

  lemma {:induction false} PublishIsSane(f: Fleet, s: Step)
    requires Sane(f) && s.Publish? && !Refused(f, s)
    ensures Sane(Next(f, s))
  {
    MarkedIsOf(|f.messages|, SessionsOf(f.hubs[s.replica], s.target));
  }

  lemma {:induction false} DeliverIsSane(f: Fleet, s: Step)
    requires Sane(f) && s.Deliver? && (s.message, s.replica) in f.pending
    ensures Sane(Next(f, s))
  {
    MarkedIsOf(s.message, SessionsOf(f.hubs[s.replica], f.messages[s.message].target));
    MarkedIsOf(s.message, {});
  }

  lemma {:induction false} StepIsSane(f: Fleet, s: Step)
    requires Sane(f)
    ensures Sane(Next(f, s)) && Next(f, s).hubs.Keys == f.hubs.Keys && f.messages <= Next(f, s).messages
  {
    match s
    case Publish(_, _, _, _) => if !Refused(f, s) { PublishIsSane(f, s); }
    case Deliver(n, q) => if (n, q) in f.pending { DeliverIsSane(f, s); }
    case ClientComes(_, _, _) =>
    case ClientGoes(_, _, _) =>
    case AdminComes(_, _, _) =>
    case AdminGoes(_, _, _) =>
  }

  lemma {:induction false} RunsStaySane(f: Fleet, steps: seq<Step>)
    requires Sane(f)
    ensures Sane(Run(f, steps)) && Run(f, steps).hubs.Keys == f.hubs.Keys
    ensures f.messages <= Run(f, steps).messages
  {
    if steps == [] {
    } else {
      var n := |steps| - 1;
      RunsStaySane(f, steps[..n]);
      StepIsSane(Run(f, steps[..n]), steps[n]);
    }
  }

  /** The table of this replica holds the connection under the session's admin. */
  ghost predicate Open(h: State, k: Session) {
    k.Panel? && k.id in h.admins && k.sink in h.admins[k.id]
  }

  /** The panel session is open on this replica and on no other. */
  ghost predicate OpenOnlyAt(f: Fleet, k: Session, r: string) {
    && k.Panel? && r in f.hubs
    && forall q :: q in f.hubs ==> (Open(f.hubs[q], k) <==> q == r)
  }

  ghost predicate Concerns(e: Envelope, k: Session) {
    k.Panel? && (e.target == ToAll || e.target == ToAdmin(k.id))
  }

  /** What the session has been sent of message m so far. */
  ghost predicate Served(f: Fleet, m: nat, k: Session, r: string)
    requires m < |f.messages|
  {
    f.got[(m, k)] ==
      if !Concerns(f.messages[m], k) then 0
      else if f.messages[m].origin == r || (m, r) !in f.pending then 1 else 0
  }

  lemma {:induction false} AudienceOf(f: Fleet, k: Session, r: string, q: string, e: Envelope)
    requires OpenOnlyAt(f, k, r) && q in f.hubs
    ensures k in SessionsOf(f.hubs[q], e.target) <==> q == r && Concerns(e, k)
  {
    assert Open(f.hubs[q], k) <==> q == r;
  }

  lemma {:induction false} MarkedCount(m: nat, sessions: set<Session>, n: nat, k: Session)
    ensures Marked(m, sessions)[(n, k)] == if n == m && k in sessions then 1 else 0
  {
    var s := set j | j in sessions :: (m, j);
    assert (n, k) in s <==> n == m && k in sessions;
  }

  lemma {:induction false} PublishServes(f: Fleet, s: Step, m: nat, k: Session, r: string)
    requires Sane(f) && OpenOnlyAt(f, k, r) && s.Publish? && !Refused(f, s) && m <= |f.messages|
    requires m < |f.messages| ==> Served(f, m, k, r)
    ensures Served(Next(f, s), m, k, r)
  {
    var n := |f.messages|;
    var e := Envelope(s.replica, s.target, s.event);
    AudienceOf(f, k, r, s.replica, e);
    MarkedCount(n, SessionsOf(f.hubs[s.replica], s.target), m, k);
    if m == n {
      assert (m, k) !in f.got;
      assert !s.target.ToClient? ==> (n, r) in Next(f, s).pending;
    }
  }

  lemma {:induction false} DeliverServes(f: Fleet, s: Step, m: nat, k: Session, r: string)
    requires Sane(f) && OpenOnlyAt(f, k, r) && s.Deliver? && (s.message, s.replica) in f.pending
    requires m < |f.messages| && Served(f, m, k, r)
    ensures Served(Next(f, s), m, k, r)
  {
    var e := f.messages[s.message];
    AudienceOf(f, k, r, s.replica, e);
    MarkedCount(s.message, SessionsOf(f.hubs[s.replica], e.target), m, k);
    MarkedCount(s.message, {}, m, k);
  }

  lemma {:induction false} StepServes(f: Fleet, s: Step, m: nat, k: Session, r: string)
    requires Sane(f) && OpenOnlyAt(f, k, r) && m < |Next(f, s).messages|
    requires m < |f.messages| ==> Served(f, m, k, r)
    ensures Served(Next(f, s), m, k, r)
  {
    match s
    case Publish(_, _, _, _) => if !Refused(f, s) { PublishServes(f, s, m, k, r); }
    case Deliver(n, q) => if (n, q) in f.pending { DeliverServes(f, s, m, k, r); }
    case ClientComes(_, _, _) =>
    case ClientGoes(_, _, _) =>
    case AdminComes(_, _, _) =>
    case AdminGoes(_, _, _) =>
  }

  ghost predicate OpenThroughout(f: Fleet, steps: seq<Step>, k: Session, r: string) {
    forall n :: 0 <= n <= |steps| ==> OpenOnlyAt(Run(f, steps[..n]), k, r)
  }

  lemma {:induction false} RunServes(f: Fleet, steps: seq<Step>, m: nat, k: Session, r: string)
    requires Sane(f) && OpenThroughout(f, steps, k, r)
    requires |f.messages| <= m < |Run(f, steps).messages|
    ensures Served(Run(f, steps), m, k, r)
  {
    if steps == [] {
    } else {
      var n := |steps| - 1;
      forall i | 0 <= i <= n ensures OpenOnlyAt(Run(f, steps[..n][..i]), k, r) {
        assert steps[..n][..i] == steps[..i];
      }
      RunsStaySane(f, steps[..n]);
      var before := Run(f, steps[..n]);
      assert steps[..|steps|] == steps;
      if m < |before.messages| { RunServes(f, steps[..n], m, k, r); }
      StepServes(before, steps[n], m, k, r);
    }
  }

  /** Exactly-once fan-out: once the bus owes nothing more, a session that was open
      throughout has been sent every fan-out to its admin and every broadcast exactly once,
      whichever replica published it, and nothing else. */
  lemma {:induction false} FanoutExactlyOnce(f: Fleet, steps: seq<Step>, m: nat, k: Session, r: string)
    requires Sane(f) && OpenThroughout(f, steps, k, r)
    requires |f.messages| <= m < |Run(f, steps).messages| && Run(f, steps).pending == {}
    ensures Run(f, steps).got[(m, k)] == if Concerns(Run(f, steps).messages[m], k) then 1 else 0
  {
    RunServes(f, steps, m, k, r);
  }

  /** The device is connected to one replica only, by this connection. */
  ghost predicate HeldOnlyAt(f: Fleet, c: string, h: string, k: Sink) {
    && h in f.hubs && c in f.hubs[h].clients && f.hubs[h].clients[c] == k
    && forall q :: q in f.hubs && c in f.hubs[q].clients ==> q == h
  }

  ghost predicate HeldThroughout(f: Fleet, steps: seq<Step>, c: string, h: string, k: Sink) {
    forall n :: 0 <= n <= |steps| ==> HeldOnlyAt(Run(f, steps[..n]), c, h, k)
  }

  /** Of a device frame, the holding replica sends one copy to the holding connection. */
  ghost predicate FrameState(f: Fleet, m: nat, c: string, h: string, k: Sink)
    requires m < |f.messages|
  {
    f.messages[m].target == ToClient(c) ==>
      && f.got[(m, Device(c, k))] == (if (m, h) in f.pending then 0 else 1)
      && forall j :: j != Device(c, k) ==> f.got[(m, j)] == 0
  }

  lemma {:induction false} NewFrame(f: Fleet, s: Step, c: string, h: string, k: Sink)
    requires Sane(f) && HeldOnlyAt(f, c, h, k) && s.Publish? && !Refused(f, s)
    ensures FrameState(Next(f, s), |f.messages|, c, h, k)
  {
    var n := |f.messages|;
    if s.target == ToClient(c) {
      var here := SessionsOf(f.hubs[s.replica], s.target);
      assert here == if s.replica == h then {Device(c, k)} else {};
      forall j ensures Marked(n, here)[(n, j)] == (if j in here then 1 else 0) && f.got[(n, j)] == 0 {
        MarkedCount(n, here, n, j);
        assert (n, j) !in f.got;
      }
      assert s.replica != h ==> (n, h) in Next(f, s).pending;
      assert (n, h) !in f.pending;
    }
  }

  lemma {:induction false} OldFrameOnPublish(f: Fleet, s: Step, m: nat, c: string, h: string, k: Sink)
    requires s.Publish? && !Refused(f, s) && m < |f.messages| && FrameState(f, m, c, h, k)
    ensures FrameState(Next(f, s), m, c, h, k)
  {
    var n := |f.messages|;
    var here := SessionsOf(f.hubs[s.replica], s.target);
    forall j ensures Marked(n, here)[(m, j)] == 0 { MarkedCount(n, here, m, j); }
  }

  lemma {:induction false} FrameOnDeliver(f: Fleet, s: Step, m: nat, c: string, h: string, k: Sink)
    requires Sane(f) && HeldOnlyAt(f, c, h, k) && s.Deliver? && (s.message, s.replica) in f.pending
    requires m < |f.messages| && FrameState(f, m, c, h, k)
    ensures FrameState(Next(f, s), m, c, h, k)
  {
    var n, q := s.message, s.replica;
    var e := f.messages[n];
    var sessions := if e.target.ToClient? || e.origin != q then SessionsOf(f.hubs[q], e.target) else {};
    forall j ensures Marked(n, sessions)[(m, j)] == if m == n && j in sessions then 1 else 0 {
      MarkedCount(n, sessions, m, j);
    }
    if e.target == ToClient(c) { assert sessions == if q == h then {Device(c, k)} else {}; }
  }

  lemma {:induction false} StepFrames(f: Fleet, s: Step, m: nat, c: string, h: string, k: Sink)
    requires Sane(f) && HeldOnlyAt(f, c, h, k) && m < |Next(f, s).messages|
    requires m < |f.messages| ==> FrameState(f, m, c, h, k)
    ensures FrameState(Next(f, s), m, c, h, k)
  {
    match s
    case Publish(_, _, _, _) =>
      if !Refused(f, s) {
        if m == |f.messages| { NewFrame(f, s, c, h, k); } else { OldFrameOnPublish(f, s, m, c, h, k); }
      }
    case Deliver(n, q) => if (n, q) in f.pending { FrameOnDeliver(f, s, m, c, h, k); }
    case ClientComes(_, _, _) =>
    case ClientGoes(_, _, _) =>
    case AdminComes(_, _, _) =>
    case AdminGoes(_, _, _) =>
  }

  lemma {:induction false} RunFrames(f: Fleet, steps: seq<Step>, m: nat, c: string, h: string, k: Sink)
    requires Sane(f) && HeldThroughout(f, steps, c, h, k)
    requires |f.messages| <= m < |Run(f, steps).messages|
    ensures FrameState(Run(f, steps), m, c, h, k)
  {
    if steps == [] {
    } else {
      var n := |steps| - 1;
      forall i | 0 <= i <= n ensures HeldOnlyAt(Run(f, steps[..n][..i]), c, h, k) {
        assert steps[..n][..i] == steps[..i];
      }
      RunsStaySane(f, steps[..n]);
      var before := Run(f, steps[..n]);
      if m < |before.messages| { RunFrames(f, steps[..n], m, c, h, k); }
      StepFrames(before, steps[n], m, c, h, k);
    }
  }

  /** A frame that was not refused, for a device held on one replica, is sent exactly once and
      to nobody else, whether it was sent there directly or came over the bus. */
  lemma {:induction false} FrameExactlyOnce(f: Fleet, steps: seq<Step>, m: nat, c: string, h: string, k: Sink)
    requires Sane(f) && HeldThroughout(f, steps, c, h, k)
    requires |f.messages| <= m < |Run(f, steps).messages| && Run(f, steps).pending == {}
    requires Run(f, steps).messages[m].target == ToClient(c)
    ensures forall j :: Run(f, steps).got[(m, j)] == if j == Device(c, k) then 1 else 0
  {
    RunFrames(f, steps, m, c, h, k);
  }
}
