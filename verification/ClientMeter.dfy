/** What a client may be charged, against the bytes its peers really moved, while peers come
    and go (internal/storage/clienttraffic.go). */
module ClientMeter {
  import opened Wrappers
  import opened Sums
  import opened Traffic
  import opened Metering

  /** A peer is a public key on a node; each has a counter in either direction. */
  type Peer = (string, string)

  type Line = (Peer, Way)

  ghost function LinesOf(peers: set<Peer>, d: Way): set<Line> { set p | p in peers :: (p, d) }

  /** The peers whose records the client holds now and all it ever held; the live counters
      and the true traffic of every line; the counter table, which outlives the records, and
      the true traffic its last polls saw; the client's row. The rest are books: the observed
      traffic of the client's peers at the last accumulation and where the account starts, and
      the usage it starts with. */
  datatype Ledger = Ledger(
    present: set<Peer>, ever: set<Peer>, live: map<Line, nat>, moved: map<Line, nat>,
    table: map<Line, nat>, mark: map<Line, nat>, row: ClientRow, accounted: Pair, base: Pair, carried: nat)

  datatype Action = LineMoves(line: Line, bytes: nat) | LineRestarts(line: Line, lower: nat) | PeerPolled(peer: Peer)
    | Join(peer: Peer) | Leave(peer: Peer) | Accumulate | Reset(now: int)

  ghost function Total(peers: set<Peer>, m: map<Line, nat>): Pair {
    Pair(Sum(LinesOf(peers, Rx), m), Sum(LinesOf(peers, Tx), m))
  }

  /** The summed counters of the records the client holds. */
  ghost function Reading(l: Ledger): Pair { Total(l.present, l.table) }

  ghost function Observed(l: Ledger): Pair { Total(l.ever, l.mark) }

  ghost function Moved(l: Ledger): Pair { Total(l.ever, l.moved) }

  /** Without a counter row for any of its records a client is not accumulated. */
  ghost predicate Counted(l: Ledger) { exists x: Line :: x in l.table && x.0 in l.present }

  ghost function Copy(to: map<Line, nat>, of: map<Line, nat>, p: Peer): map<Line, nat> {
    to[(p, Rx) := Weight(of, (p, Rx))][(p, Tx) := Weight(of, (p, Tx))]
  }

  ghost function PeerPair(m: map<Line, nat>, p: Peer): Pair { Pair(Weight(m, (p, Rx)), Weight(m, (p, Tx))) }

  /** A poll stores both counters of a peer, whether or not anybody holds its record. What a
      peer moved before it first joined is not the client's. */
  ghost function Act(l: Ledger, a: Action): Ledger {
    match a
    case LineMoves(x, bytes) =>
      l.(live := l.live[x := Weight(l.live, x) + bytes], moved := l.moved[x := Weight(l.moved, x) + bytes])
    case LineRestarts(x, lower) => if lower >= Weight(l.live, x) then l else l.(live := l.live[x := lower])
    case PeerPolled(p) => l.(table := Copy(l.table, l.live, p), mark := Copy(l.mark, l.moved, p))
    case Join(p) =>
      if p in l.ever then l.(present := l.present + {p})
      else
        var seen := PeerPair(l.mark, p);
        l.(present := l.present + {p}, ever := l.ever + {p}, accounted := Plus(l.accounted, seen),
          base := Plus(l.base, seen))
    case Leave(p) => l.(present := l.present - {p})
    case Accumulate =>
      if !Counted(l) then l else l.(row := UsageFold(Some(l.row), Reading(l)), accounted := Observed(l))
    case Reset(now) =>
      l.(row := ResetRow(Some(l.row), Reading(l), now), accounted := Observed(l), base := Observed(l), carried := 0)
  }

  ghost function Acts(l: Ledger, actions: seq<Action>): Ledger {
    if actions == [] then l else Act(Acts(l, actions[..|actions| - 1]), actions[|actions| - 1])
  }

  /** The counter row is absent or zero, as under a fresh key. */
  ghost predicate RowZero(l: Ledger, p: Peer) { PeerPair(l.table, p) == Pair(0, 0) }

  ghost predicate CleanAct(l: Ledger, a: Action) { a.Join? ==> a.peer in l.present || RowZero(l, a.peer) }

  /** Nobody joins under a key that still has bytes in its counter row. */
  ghost predicate Clean(l: Ledger, actions: seq<Action>) {
    actions == [] || (Clean(l, actions[..|actions| - 1]) &&
      CleanAct(Acts(l, actions[..|actions| - 1]), actions[|actions| - 1]))
  }

  /** The lines whose counters can still be charged without a returning key. */
  ghost predicate Chargeable(l: Ledger, p: Peer) { p in l.present || RowZero(l, p) }

  // ---- the bound ----------------------------------------------------------------------------

  /** No chargeable line has gained more than it moved, and no more was used than observed. */
  ghost predicate Fair(l: Ledger) {
    && l.present <= l.ever
    && (forall x :: Weight(l.mark, x) <= Weight(l.moved, x))
    && (forall x: Line :: Chargeable(l, x.0) ==>
          Weight(l.live, x) <= Weight(l.table, x) + (Weight(l.moved, x) - Weight(l.mark, x)))
    && (forall d :: Val(l.base, d) <= Val(l.accounted, d) <= Val(Observed(l), d))
    && (forall d :: Val(Reading(l), d) + Val(l.accounted, d) <= Val(l.row.last, d) + Val(Observed(l), d))
    && l.row.used + l.base.rx + l.base.tx <= l.carried + l.accounted.rx + l.accounted.tx
  }

  /** A client's first row, made at any moment, starts a fair account. */
  lemma {:induction false} FirstRowIsFair(l: Ledger)
    requires l.row == UsageFold(None, Reading(l)) && l.accounted == l.base == Observed(l) && l.present <= l.ever
    requires forall x :: Weight(l.mark, x) <= Weight(l.moved, x)
    requires forall x: Line :: Chargeable(l, x.0) ==>
      Weight(l.live, x) <= Weight(l.table, x) + (Weight(l.moved, x) - Weight(l.mark, x))
    ensures Fair(l)
  {
    assert forall d :: Val(l.base, d) == Val(l.accounted, d) == Val(Observed(l), d);
  }

  lemma {:induction false} SumUpdate<K>(s: set<K>, w: map<K, nat>, k: K, v: nat)
    ensures Sum(s, w[k := v]) == if k in s then Sum(s, w) - Weight(w, k) + v else Sum(s, w)
    ensures k in s ==> Sum(s, w) >= Weight(w, k)
  {
    if k in s {
      SumWithout(s, k, w);
      SumWithout(s, k, w[k := v]);
      SumSame(s - {k}, w, w[k := v]);
    } else {
      SumSame(s, w, w[k := v]);
    }
  }

  lemma {:induction false} TotalCopy(peers: set<Peer>, to: map<Line, nat>, of: map<Line, nat>, p: Peer, d: Way)
    ensures Val(Total(peers, Copy(to, of, p)), d) ==
      if p in peers then Val(Total(peers, to), d) - Weight(to, (p, d)) + Weight(of, (p, d))
        else Val(Total(peers, to), d)
    ensures p in peers ==> Val(Total(peers, to), d) >= Weight(to, (p, d))
  {
    var once := to[(p, Rx) := Weight(of, (p, Rx))];
    SumUpdate(LinesOf(peers, d), to, (p, Rx), Weight(of, (p, Rx)));
    SumUpdate(LinesOf(peers, d), once, (p, Tx), Weight(of, (p, Tx)));
    SumUpdate(LinesOf(peers, d), to, (p, d), 0);
  }

  lemma {:induction false} SumJoin(peers: set<Peer>, m: map<Line, nat>, p: Peer, d: Way)
    requires p !in peers
    ensures Sum(LinesOf(peers + {p}, d), m) == Sum(LinesOf(peers, d), m) + Weight(m, (p, d))
  {
    var lines := LinesOf(peers + {p}, d);
    assert (p, d) in lines;
    SumWithout(lines, (p, d), m);
    assert lines - {(p, d)} == LinesOf(peers, d);
  }

  lemma {:induction false} TotalJoin(peers: set<Peer>, m: map<Line, nat>, p: Peer, d: Way)
    requires p !in peers
    ensures Val(Total(peers + {p}, m), d) == Val(Total(peers, m), d) + Weight(m, (p, d))
  {
    SumJoin(peers, m, p, d);
  }

  /** The total of some peers is at most that of more. */
  lemma {:induction false} TotalLeave(peers: set<Peer>, m: map<Line, nat>, p: Peer, d: Way)
    ensures Val(Total(peers - {p}, m), d) <= Val(Total(peers, m), d)
  {
    if p in peers {
      SumJoin(peers - {p}, m, p, d);
      assert peers - {p} + {p} == peers;
    } else {
      assert peers - {p} == peers;
    }
  }

  lemma {:induction false} PollIsFair(l: Ledger, p: Peer)
    requires Fair(l)
    ensures Fair(Act(l, PeerPolled(p)))
  {
    var m := Act(l, PeerPolled(p));
    forall d
      ensures Val(Reading(m), d) + Val(Observed(l), d) <= Val(Reading(l), d) + Val(Observed(m), d)
      ensures Val(Observed(l), d) <= Val(Observed(m), d)
    {
      TotalCopy(l.present, l.table, l.live, p, d);
      TotalCopy(l.ever, l.mark, l.moved, p, d);
      assert Weight(l.mark, (p, d)) <= Weight(l.moved, (p, d));
      if p in l.present {
        assert Weight(l.live, (p, d)) <= Weight(l.table, (p, d)) + (Weight(l.moved, (p, d)) - Weight(l.mark, (p, d)));
      }
    }
    PollKeepsLines(l, p);
  }

  lemma {:induction false} PolledLine(l: Ledger, x: Line)
    ensures var m := Act(l, PeerPolled(x.0));
      Weight(m.mark, x) == Weight(l.moved, x) && Weight(m.table, x) == Weight(l.live, x)
  {
    assert x == (x.0, x.1) && (x.1 == Rx || x.1 == Tx);
  }

  lemma {:induction false} PollKeepsLines(l: Ledger, p: Peer)
    requires Fair(l)
    ensures var m := Act(l, PeerPolled(p));
      && (forall x :: Weight(m.mark, x) <= Weight(m.moved, x))
      && (forall x: Line :: Chargeable(m, x.0) ==>
            Weight(m.live, x) <= Weight(m.table, x) + (Weight(m.moved, x) - Weight(m.mark, x)))
  {
    var m := Act(l, PeerPolled(p));
    forall x: Line
      ensures Weight(m.mark, x) <= Weight(m.moved, x)
      ensures Chargeable(m, x.0) ==> Weight(m.live, x) <= Weight(m.table, x) + (Weight(m.moved, x) - Weight(m.mark, x))
    {
      if x.0 == p {
        PolledLine(l, x);
      } else {
        assert RowZero(m, x.0) <==> RowZero(l, x.0);
      }
    }
  }

  /** Joining cleanly leaves the reading alone and moves the books by what was observed before. */
  lemma {:induction false} JoinTotals(l: Ledger, p: Peer, d: Way)
    requires CleanAct(l, Join(p)) && l.present <= l.ever
    ensures var m := Act(l, Join(p));
      var seen := if p in l.ever then 0 else Weight(l.mark, (p, d));
      && Val(Reading(m), d) == Val(Reading(l), d) && Val(Observed(m), d) == Val(Observed(l), d) + seen
      && Val(m.accounted, d) == Val(l.accounted, d) + seen && Val(m.base, d) == Val(l.base, d) + seen
  {
    if p in l.present {
      assert l.present + {p} == l.present;
    } else {
      TotalJoin(l.present, l.table, p, d);
      if p !in l.ever { TotalJoin(l.ever, l.mark, p, d); }
    }
  }

  lemma {:induction false} JoinIsFair(l: Ledger, p: Peer)
    requires Fair(l) && CleanAct(l, Join(p))
    ensures Fair(Act(l, Join(p)))
  {
    var m := Act(l, Join(p));
    forall q ensures Chargeable(m, q) ==> Chargeable(l, q) {}
    forall d: Way
      ensures Val(Reading(m), d) + Val(m.accounted, d) <= Val(m.row.last, d) + Val(Observed(m), d)
      ensures Val(m.base, d) <= Val(m.accounted, d) <= Val(Observed(m), d)
    {
      JoinTotals(l, p, d);
      assert Val(Reading(l), d) + Val(l.accounted, d) <= Val(l.row.last, d) + Val(Observed(l), d);
      assert Val(l.base, d) <= Val(l.accounted, d) <= Val(Observed(l), d);
    }
  }

  /** The positive part of a sum is at most the sum of the positive parts. */
  lemma {:induction false} AccumulateIsFair(l: Ledger)
    requires Fair(l)
    ensures Fair(Act(l, Accumulate))
  {
    var reading := Reading(l);
    forall d ensures Val(Gain(l.row.last, reading), d) + Val(l.accounted, d) <= Val(Observed(l), d) {
      assert Val(reading, d) + Val(l.accounted, d) <= Val(l.row.last, d) + Val(Observed(l), d);
    }
    assert Val(Gain(l.row.last, reading), Rx) + Val(l.accounted, Rx) <= Val(Observed(l), Rx);
    assert Val(Gain(l.row.last, reading), Tx) + Val(l.accounted, Tx) <= Val(Observed(l), Tx);
    assert Val(l.base, Rx) <= Val(l.accounted, Rx) && Val(l.base, Tx) <= Val(l.accounted, Tx);
  }

  lemma {:induction false} LeaveIsFair(l: Ledger, p: Peer)
    requires Fair(l)
    ensures Fair(Act(l, Leave(p)))
  {
    var m := Act(l, Leave(p));
    forall d ensures Val(Reading(m), d) + Val(m.accounted, d) <= Val(m.row.last, d) + Val(Observed(m), d) {
      TotalLeave(l.present, l.table, p, d);
    }
    forall x: Line | Chargeable(m, x.0) ensures Chargeable(l, x.0) {
      assert RowZero(m, x.0) <==> RowZero(l, x.0);
    }
  }

  lemma {:induction false} ActIsFair(l: Ledger, a: Action)
    requires Fair(l) && CleanAct(l, a)
    ensures Fair(Act(l, a))
  {
    match a
    case LineMoves(_, _) => LineIsFair(l, a);
    case LineRestarts(_, _) => LineIsFair(l, a);
    case PeerPolled(p) => PollIsFair(l, p);
    case Join(p) => JoinIsFair(l, p);
    case Leave(p) => LeaveIsFair(l, p);
    case Accumulate => AccumulateIsFair(l);
    case Reset(_) => assert forall d :: Val(Observed(l), d) <= Val(Observed(l), d);
  }

  lemma {:induction false} LineIsFair(l: Ledger, a: Action)
    requires Fair(l) && (a.LineMoves? || a.LineRestarts?)
    ensures Fair(Act(l, a))
  {
    var m := Act(l, a);
    forall p ensures Chargeable(m, p) <==> Chargeable(l, p) {}
  }

  lemma {:induction false} ActsStayFair(l: Ledger, actions: seq<Action>)
    requires Fair(l) && Clean(l, actions)
    ensures Fair(Acts(l, actions))
  {
    if actions == [] {
    } else {
      ActsStayFair(l, actions[..|actions| - 1]);
      ActIsFair(Acts(l, actions[..|actions| - 1]), actions[|actions| - 1]);
    }
  }

  /** As long as nobody joins under an old key, a client is never charged, since its last
      reset, for more than its peers moved between what that reset had observed and now,
      however their counters restart and whichever records come and go. */
  lemma {:induction false} ClientNeverOvercharged(l: Ledger, actions: seq<Action>)
    requires Fair(l) && Clean(l, actions)
    ensures var e := Acts(l, actions);
      e.row.used + e.base.rx + e.base.tx <= e.carried + Moved(e).rx + Moved(e).tx
  {
    ActsStayFair(l, actions);
    var e := Acts(l, actions);
    SumAtMost(LinesOf(e.ever, Rx), e.mark, e.moved);
    SumAtMost(LinesOf(e.ever, Tx), e.mark, e.moved);
    assert Val(e.accounted, Rx) <= Val(Observed(e), Rx) && Val(e.accounted, Tx) <= Val(Observed(e), Tx);
  }

  // ---- when nothing is lost either ------------------------------------------------------------

  /** Every chargeable line gained what it moved, and all that was observed by the last
      accumulation has been charged. */
  ghost predicate Exact(l: Ledger) {
    && l.present == l.ever
    && (forall x :: Weight(l.mark, x) <= Weight(l.moved, x))
    && (forall x: Line :: Chargeable(l, x.0) ==>
          Weight(l.live, x) == Weight(l.table, x) + (Weight(l.moved, x) - Weight(l.mark, x)))
    && (forall d :: Val(l.accounted, d) <= Val(Observed(l), d))
    && (forall d :: Val(Reading(l), d) + Val(l.accounted, d) == Val(l.row.last, d) + Val(Observed(l), d))
    && l.row.used + l.base.rx + l.base.tx == l.carried + l.accounted.rx + l.accounted.tx
  }

  lemma {:induction false} PollIsExact(l: Ledger, p: Peer)
    requires Exact(l)
    ensures Exact(Act(l, PeerPolled(p)))
  {
    var m := Act(l, PeerPolled(p));
    forall d
      ensures Val(Reading(m), d) + Val(Observed(l), d) == Val(Reading(l), d) + Val(Observed(m), d)
      ensures Val(Observed(l), d) <= Val(Observed(m), d)
    {
      TotalCopy(l.present, l.table, l.live, p, d);
      TotalCopy(l.ever, l.mark, l.moved, p, d);
      assert Weight(l.mark, (p, d)) <= Weight(l.moved, (p, d));
      if p in l.present {
        assert Weight(l.live, (p, d)) == Weight(l.table, (p, d)) + (Weight(l.moved, (p, d)) - Weight(l.mark, (p, d)));
      }
    }
    forall x: Line
      ensures Weight(m.mark, x) <= Weight(m.moved, x)
      ensures Chargeable(m, x.0) ==> Weight(m.live, x) == Weight(m.table, x) + (Weight(m.moved, x) - Weight(m.mark, x))
    {
      if x.0 == p {
        PolledLine(l, x);
      } else {
        assert RowZero(m, x.0) <==> RowZero(l, x.0);
      }
    }
  }

  lemma {:induction false} JoinIsExact(l: Ledger, p: Peer)
    requires Exact(l) && CleanAct(l, Join(p))
    ensures Exact(Act(l, Join(p)))
  {
    var m := Act(l, Join(p));
    forall q ensures Chargeable(m, q) ==> Chargeable(l, q) {}
    forall d: Way
      ensures Val(Reading(m), d) + Val(m.accounted, d) == Val(m.row.last, d) + Val(Observed(m), d)
      ensures Val(m.accounted, d) <= Val(Observed(m), d)
    {
      JoinTotals(l, p, d);
      assert Val(Reading(l), d) + Val(l.accounted, d) == Val(l.row.last, d) + Val(Observed(l), d);
      assert Val(l.accounted, d) <= Val(Observed(l), d);
    }
    JoinTotals(l, p, Rx);
    JoinTotals(l, p, Tx);
    assert m.accounted.rx == Val(m.accounted, Rx) && m.base.rx == Val(m.base, Rx);
    assert m.accounted.tx == Val(m.accounted, Tx) && m.base.tx == Val(m.base, Tx);
  }

  lemma {:induction false} AccumulateIsExact(l: Ledger)
    requires Exact(l)
    ensures Exact(Act(l, Accumulate))
  {
    var reading := Reading(l);
    forall d ensures Val(Gain(l.row.last, reading), d) + Val(l.accounted, d) == Val(Observed(l), d) {
      assert Val(reading, d) + Val(l.accounted, d) == Val(l.row.last, d) + Val(Observed(l), d);
    }
    assert Val(Gain(l.row.last, reading), Rx) + Val(l.accounted, Rx) == Val(Observed(l), Rx);
    assert Val(Gain(l.row.last, reading), Tx) + Val(l.accounted, Tx) == Val(Observed(l), Tx);
  }

  lemma {:induction false} MoveIsExact(l: Ledger, a: Action)
    requires Exact(l) && a.LineMoves?
    ensures Exact(Act(l, a))
  {
    var m := Act(l, a);
    forall p ensures Chargeable(m, p) <==> Chargeable(l, p) {}
  }

  lemma {:induction false} ActIsExact(l: Ledger, a: Action)
    requires Exact(l) && CleanAct(l, a) && !a.LineRestarts? && !a.Leave?
    ensures Exact(Act(l, a))
  {
    match a
    case LineMoves(_, _) => MoveIsExact(l, a);
    case PeerPolled(p) => PollIsExact(l, p);
    case Join(p) => JoinIsExact(l, p);
    case Accumulate => AccumulateIsExact(l);
    case Reset(_) =>
  }

  /** As long as no counter restarts, no record goes and none returns under an old key, a
      client is charged every byte its polls have seen by the last accumulation, no fewer and
      no more. */
  lemma {:induction false} ClientChargedExactly(l: Ledger, actions: seq<Action>)
    requires Exact(l) && Clean(l, actions)
    requires forall i :: 0 <= i < |actions| ==> !actions[i].LineRestarts? && !actions[i].Leave?
    ensures Exact(Acts(l, actions))
  {
    if actions == [] {
    } else {
      ClientChargedExactly(l, actions[..|actions| - 1]);
      ActIsExact(Acts(l, actions[..|actions| - 1]), actions[|actions| - 1]);
    }
  }

  // ---- exactly when nothing is charged that does not move -----------------------------------

  ghost predicate NoReset(actions: seq<Action>) {
    forall i :: 0 <= i < |actions| ==> !actions[i].Reset?
  }

  /** No more was charged between two moments than the client's peers moved between them. */
  ghost predicate ChargedAtMostMoved(from: Ledger, to: Ledger) {
    var before := Total(to.ever, from.moved);
    to.row.used + before.rx + before.tx <= from.row.used + Moved(to).rx + Moved(to).tx
  }

  /** From here on, whatever restarts, is polled, joins cleanly and leaves, until the next reset. */
  ghost predicate ChargesOnlyWhatMoves(l: Ledger) {
    forall actions :: NoReset(actions) && Clean(l, actions) ==> ChargedAtMostMoved(l, Acts(l, actions))
  }

  /** The counter rows hold no more than the last reading did, and no counter that can be
      charged is ahead of its row. */
  ghost predicate NothingOwed(l: Ledger) {
    && (forall d :: Val(Reading(l), d) <= Val(l.row.last, d))
    && forall x: Line :: Chargeable(l, x.0) ==> Weight(l.live, x) <= Weight(l.table, x)
  }

  /** The same meters and the same row, whatever the books say was observed. */
  ghost predicate SameMeters(l: Ledger, m: Ledger) {
    && l.present == m.present && l.ever == m.ever && l.row == m.row
    && l.live == m.live && l.moved == m.moved && l.table == m.table
  }

  /** The books cover what had moved at the start. */
  ghost predicate Covers(l: Ledger, start: map<Line, nat>) {
    && (forall x :: Weight(start, x) <= Weight(l.mark, x) <= Weight(l.moved, x))
    && forall d :: Val(Total(l.ever, start), d) <= Val(l.base, d)
  }

  lemma {:induction false} ActCovers(l: Ledger, a: Action, start: map<Line, nat>)
    requires Covers(l, start) && !a.Reset?
    ensures Covers(Act(l, a), start)
  {
    match a
    case LineMoves(_, _) =>
    case LineRestarts(_, _) =>
    case Leave(_) =>
    case Accumulate =>
    case PeerPolled(p) => PollCovers(l, p, start);
    case Join(p) => JoinCovers(l, p, start);
  }

  lemma {:induction false} PollCovers(l: Ledger, p: Peer, start: map<Line, nat>)
    requires Covers(l, start)
    ensures Covers(Act(l, PeerPolled(p)), start)
  {
    var m := Act(l, PeerPolled(p));
    forall x: Line ensures Weight(start, x) <= Weight(m.mark, x) <= Weight(m.moved, x) {
      if x.0 == p { PolledLine(l, x); }
    }
  }

  lemma {:induction false} JoinCovers(l: Ledger, p: Peer, start: map<Line, nat>)
    requires Covers(l, start)
    ensures Covers(Act(l, Join(p)), start)
  {
    if p !in l.ever {
      forall d ensures Val(Total(l.ever + {p}, start), d) <= Val(Plus(l.base, PeerPair(l.mark, p)), d) {
        TotalJoin(l.ever, start, p, d);
        assert Val(Total(l.ever, start), d) <= Val(l.base, d);
      }
    }
  }

  lemma {:induction false} ActIgnoresBooks(l: Ledger, m: Ledger, a: Action)
    requires SameMeters(l, m)
    ensures SameMeters(Act(l, a), Act(m, a)) && (CleanAct(l, a) <==> CleanAct(m, a))
    ensures !a.Reset? ==> Act(m, a).carried == m.carried
  {
    assert forall p :: RowZero(l, p) <==> RowZero(m, p);
    if a.Accumulate? || a.Reset? {
      AccountsIgnoreBooks(l, m, a);
    } else {
      RecordsIgnoreBooks(l, m, a);
    }
  }

  lemma {:induction false} AccountsIgnoreBooks(l: Ledger, m: Ledger, a: Action)
    requires SameMeters(l, m) && (a.Accumulate? || a.Reset?)
    ensures SameMeters(Act(l, a), Act(m, a))
  {
    assert Reading(l) == Reading(m) && (Counted(l) <==> Counted(m));
  }

  lemma {:induction false} RecordsIgnoreBooks(l: Ledger, m: Ledger, a: Action)
    requires SameMeters(l, m) && !a.Accumulate? && !a.Reset?
    ensures SameMeters(Act(l, a), Act(m, a))
  {
    match a
    case LineMoves(x, bytes) => LinesIgnoreBooks(l, m, a);
    case LineRestarts(x, lower) => LinesIgnoreBooks(l, m, a);
    case PeerPolled(p) => assert Act(l, a).table == Act(m, a).table;
    case Join(p) => assert Act(l, a).present == Act(m, a).present;
    case Leave(p) =>
  }

  lemma {:induction false} LinesIgnoreBooks(l: Ledger, m: Ledger, a: Action)
    requires SameMeters(l, m) && (a.LineMoves? || a.LineRestarts?)
    ensures SameMeters(Act(l, a), Act(m, a))
  {}

  lemma {:induction false} MetersIgnoreBooks(l: Ledger, m: Ledger, actions: seq<Action>, start: map<Line, nat>)
    requires SameMeters(l, m) && Covers(m, start) && NoReset(actions)
    ensures SameMeters(Acts(l, actions), Acts(m, actions)) && (Clean(l, actions) <==> Clean(m, actions))
    ensures Covers(Acts(m, actions), start) && Acts(m, actions).carried == m.carried
  {
    if actions == [] {
    } else {
      var n := |actions| - 1;
      MetersIgnoreBooks(l, m, actions[..n], start);
      ActIgnoresBooks(Acts(l, actions[..n]), Acts(m, actions[..n]), actions[n]);
      ActCovers(Acts(m, actions[..n]), actions[n], start);
    }
  }

  /** The books as if everything that has moved had been observed. */
  ghost function CaughtUp(l: Ledger): Ledger {
    l.(mark := l.moved, accounted := Moved(l), base := Moved(l), carried := l.row.used)
  }

  lemma {:induction false} NothingOwedIsEnough(l: Ledger, actions: seq<Action>)
    requires l.present <= l.ever && NothingOwed(l) && NoReset(actions) && Clean(l, actions)
    ensures ChargedAtMostMoved(l, Acts(l, actions))
  {
    var c := CaughtUp(l);
    assert forall d :: Val(c.base, d) == Val(c.accounted, d) == Val(Observed(c), d);
    assert Fair(c);
    MetersIgnoreBooks(l, c, actions, l.moved);
    ClientNeverOvercharged(c, actions);
    var e := Acts(c, actions);
    assert Val(Total(e.ever, l.moved), Rx) <= Val(e.base, Rx) && Val(Total(e.ever, l.moved), Tx) <= Val(e.base, Tx);
  }

  lemma {:induction false} SomeName(s: set<string>) returns (name: string)
    ensures forall x :: x in s ==> |x| < |name|
  {
    name := "k";
    if x :| x in s {
      var m := SomeName(s - {x});
      name := if |m| <= |x| then x + "k" else m;
      assert forall y :: y in s ==> y == x || y in s - {x};
    }
  }

  /** A peer nobody has ever heard of. */
  ghost predicate Unknown(l: Ledger, q: Peer) {
    q !in l.ever && q !in l.present && PeerPair(l.live, q) == Pair(0, 0) && RowZero(l, q)
  }

  /** Once a new peer's row is there, an accumulation settles what is owed by now. */
  ghost function Settled(l: Ledger, q: Peer): Ledger {
    Act(Act(Act(l, PeerPolled(q)), Join(q)), Accumulate)
  }

  lemma {:induction false} JoinReading(l: Ledger, p: Peer, d: Way)
    ensures Val(Reading(Act(l, Join(p))), d) ==
      Val(Reading(l), d) + if p in l.present then 0 else Weight(l.table, (p, d))
  {
    if p in l.present {
      assert l.present + {p} == l.present;
    } else {
      TotalJoin(l.present, l.table, p, d);
    }
  }

  lemma {:induction false} PolledReading(l: Ledger, p: Peer, d: Way)
    requires p in l.present
    ensures Val(Reading(Act(l, PeerPolled(p))), d) ==
      Val(Reading(l), d) - Weight(l.table, (p, d)) + Weight(l.live, (p, d))
  {
    TotalCopy(l.present, l.table, l.live, p, d);
  }

  lemma {:induction false} UnpolledReading(l: Ledger, p: Peer, d: Way)
    requires p !in l.present
    ensures Val(Reading(Act(l, PeerPolled(p))), d) == Val(Reading(l), d)
  {
    TotalCopy(l.present, l.table, l.live, p, d);
  }

  lemma {:induction false} AccumulateCharges(l: Ledger)
    requires Counted(l)
    ensures var a := Act(l, Accumulate);
      && a.row.last == Reading(l) && a.row.used >= l.row.used
      && ((exists d :: Val(Reading(l), d) > Val(l.row.last, d)) ==> a.row.used > l.row.used)
  {
    var gain := Gain(l.row.last, Reading(l));
    forall d ensures Val(Reading(l), d) > Val(l.row.last, d) ==> Val(gain, d) > 0 {}
    assert gain.rx == Val(gain, Rx) && gain.tx == Val(gain, Tx);
  }

  lemma {:induction false} PolledIsCounted(l: Ledger, p: Peer)
    requires p in l.present && (p, Rx) in l.table
    ensures Counted(l)
  {
    assert (p, Rx).0 in l.present;
  }

  lemma {:induction false} SettlingCharges(l: Ledger, q: Peer)
    requires Unknown(l, q)
    ensures var s := Settled(l, q);
      && s.moved == l.moved && s.live == l.live && s.present == l.present + {q}
      && (forall x: Line :: Weight(s.table, x) == Weight(l.table, x))
      && s.row.last == Reading(s) && s.row.used >= l.row.used
      && ((exists d :: Val(Reading(l), d) > Val(l.row.last, d)) ==> s.row.used > l.row.used)
  {
    var polled := Act(l, PeerPolled(q));
    var joined := Act(polled, Join(q));
    PolledIsCounted(joined, q);
    forall x: Line ensures Weight(polled.table, x) == Weight(l.table, x) {
      if x.0 == q { PolledLine(l, x); }
    }
    forall d ensures Val(Reading(joined), d) == Val(Reading(l), d) {
      UnpolledReading(l, q, d);
      JoinReading(polled, q, d);
    }
    AccumulateCharges(joined);
  }

  /** Then polling a line that is ahead of its row, and accumulating, charges the difference. */
  ghost function ChargedFor(s: Ledger, p: Peer): Ledger {
    Act(Act(Act(s, Join(p)), PeerPolled(p)), Accumulate)
  }

  lemma {:induction false} AheadIsCharged(s: Ledger, x: Line)
    requires Chargeable(s, x.0) && Weight(s.live, x) > Weight(s.table, x) && s.row.last == Reading(s)
    ensures ChargedFor(s, x.0).row.used > s.row.used
  {
    var polled := Act(Act(s, Join(x.0)), PeerPolled(x.0));
    assert x == (x.0, x.1);
    AheadReading(s, x.0, x.1);
    PolledIsCounted(polled, x.0);
    BooksOnly(s, x.0);
    MoreIsCharged(polled, x.1);
  }

  lemma {:induction false} BooksOnly(s: Ledger, p: Peer)
    ensures Act(Act(s, Join(p)), PeerPolled(p)).row == s.row && ChargedFor(s, p).moved == s.moved
    ensures p in Act(Act(s, Join(p)), PeerPolled(p)).present && (p, Rx) in Act(Act(s, Join(p)), PeerPolled(p)).table
  {}

  lemma {:induction false} AheadReading(s: Ledger, p: Peer, d: Way)
    requires Chargeable(s, p) && Weight(s.live, (p, d)) > Weight(s.table, (p, d))
    ensures Val(Reading(Act(Act(s, Join(p)), PeerPolled(p))), d) > Val(Reading(s), d)
  {
    JoinReading(s, p, d);
    assert PeerPair(s.table, p) == Pair(0, 0) ==> Weight(s.table, (p, d)) == 0;
    PolledReading(Act(s, Join(p)), p, d);
  }

  lemma {:induction false} MoreIsCharged(l: Ledger, d: Way)
    requires Counted(l) && Val(Reading(l), d) > Val(l.row.last, d)
    ensures Act(l, Accumulate).row.used > l.row.used
  {
    AccumulateCharges(l);
  }

  lemma {:induction false} ThreeActs(l: Ledger, a: Action, b: Action, c: Action)
    ensures Acts(l, [a, b, c]) == Act(Act(Act(l, a), b), c)
    ensures Clean(l, [a, b, c]) <==> CleanAct(l, a) && CleanAct(Act(l, a), b) && CleanAct(Act(Act(l, a), b), c)
  {
    assert [a, b, c][..2] == [a, b] && [a, b][..1] == [a] && [a][..0] == [];
    assert Clean(l, []) && (Clean(l, [a]) <==> CleanAct(l, a));
    assert Clean(l, [a, b]) <==> CleanAct(l, a) && CleanAct(Acts(l, [a]), b);
    assert Acts(l, []) == l;
    assert Acts(l, [a]) == Act(l, a);
    assert Acts(l, [a, b]) == Act(Act(l, a), b);
  }

  lemma {:induction false} ActsTogether(l: Ledger, a: seq<Action>, b: seq<Action>)
    ensures Acts(l, a + b) == Acts(Acts(l, a), b)
    ensures Clean(l, a + b) <==> Clean(l, a) && Clean(Acts(l, a), b)
  {
    if b == [] {
      assert a + b == a;
    } else {
      var n := |b| - 1;
      ActsTogether(l, a, b[..n]);
      assert (a + b)[..|a + b| - 1] == a + b[..n];
    }
  }

  /** In any state whatever, no continuation without a reset and without joins under old keys
      charges more than moves, if and only if nothing is owed: no reading is above the last
      one, and no chargeable counter ahead of its row. */
  lemma {:induction false} ChargesOnlyWhatMovesExactly(l: Ledger)
    requires l.present <= l.ever
    ensures ChargesOnlyWhatMoves(l) <==> NothingOwed(l)
  {
    if NothingOwed(l) {
      forall actions | NoReset(actions) && Clean(l, actions) ensures ChargedAtMostMoved(l, Acts(l, actions)) {
        NothingOwedIsEnough(l, actions);
      }
    } else {
      var actions := OwedIsCharged(l);
    }
  }

  lemma {:induction false} OwedIsCharged(l: Ledger) returns (actions: seq<Action>)
    requires l.present <= l.ever && !NothingOwed(l)
    ensures NoReset(actions) && Clean(l, actions) && !ChargedAtMostMoved(l, Acts(l, actions))
  {
    var q := UnknownPeer(l);
    var settle := [PeerPolled(q), Join(q), Accumulate];
    ThreeActs(l, PeerPolled(q), Join(q), Accumulate);
    SettlingCharges(l, q);
    UnknownJoins(l, q);
    if exists d :: Val(Reading(l), d) > Val(l.row.last, d) {
      actions := settle;
    } else {
      var x: Line :| Chargeable(l, x.0) && Weight(l.live, x) > Weight(l.table, x);
      var poll := PollIsCharged(Settled(l, q), x);
      actions := settle + poll;
      ActsTogether(l, settle, poll);
    }
  }

  lemma {:induction false} UnknownPeer(l: Ledger) returns (q: Peer)
    requires l.present <= l.ever
    ensures Unknown(l, q)
  {
    var names := (set p | p in l.ever :: p.1) + set x | x in l.live.Keys + l.table.Keys :: x.0.1;
    var name := SomeName(names);
    q := ("", name);
    assert name !in names;
    assert q in l.ever ==> q.1 in names;
    forall d ensures (q, d) !in l.live && (q, d) !in l.table {
      assert (q, d) in l.live.Keys + l.table.Keys ==> (q, d).0.1 in names;
    }
  }

  lemma {:induction false} UnknownJoins(l: Ledger, q: Peer)
    requires Unknown(l, q)
    ensures CleanAct(Act(l, PeerPolled(q)), Join(q))
  {
    PolledLine(l, (q, Rx));
    PolledLine(l, (q, Tx));
  }

  lemma {:induction false} PollIsCharged(s: Ledger, x: Line) returns (poll: seq<Action>)
    requires Chargeable(s, x.0) && Weight(s.live, x) > Weight(s.table, x) && s.row.last == Reading(s)
    ensures NoReset(poll) && Clean(s, poll) && Acts(s, poll).row.used > s.row.used && Acts(s, poll).moved == s.moved
  {
    poll := [Join(x.0), PeerPolled(x.0), Accumulate];
    ThreeActs(s, Join(x.0), PeerPolled(x.0), Accumulate);
    AheadIsCharged(s, x);
    BooksOnly(s, x.0);
  }

  /** After a reset nothing is ever charged that did not move since, if and only if at the reset
      no chargeable counter was ahead of its row, which polling the peers first would ensure. */
  lemma {:induction false} ResetStartsFromZero(l: Ledger, now: int)
    requires l.present <= l.ever
    ensures ChargesOnlyWhatMoves(Act(l, Reset(now))) <==>
      forall x: Line :: Chargeable(l, x.0) ==> Weight(l.live, x) <= Weight(l.table, x)
  {
    var r := Act(l, Reset(now));
    ChargesOnlyWhatMovesExactly(r);
    assert forall p :: Chargeable(r, p) <==> Chargeable(l, p);
  }

  /** The lines of the peer that joins become chargeable, and no others. */
  lemma {:induction false} AheadAfterJoin(l: Ledger, p: Peer)
    requires p !in l.present && forall x: Line :: Chargeable(l, x.0) ==> Weight(l.live, x) <= Weight(l.table, x)
    ensures var j := Act(l, Join(p));
      (forall x: Line :: Chargeable(j, x.0) ==> Weight(j.live, x) <= Weight(j.table, x)) <==>
        forall d :: Weight(l.live, (p, d)) <= Weight(l.table, (p, d))
  {
    var j := Act(l, Join(p));
    assert j.live == l.live && j.table == l.table && p in j.present;
    if forall x: Line :: Chargeable(j, x.0) ==> Weight(j.live, x) <= Weight(j.table, x) {
      forall d ensures Weight(l.live, (p, d)) <= Weight(l.table, (p, d)) { assert Chargeable(j, (p, d).0); }
    }
    if forall d :: Weight(l.live, (p, d)) <= Weight(l.table, (p, d)) {
      forall x: Line | Chargeable(j, x.0) ensures Weight(j.live, x) <= Weight(j.table, x) {
        if x.0 == p { assert x == (p, x.1); } else { assert Chargeable(l, x.0); }
      }
    }
  }

  lemma {:induction false} OwedAfterJoin(l: Ledger, p: Peer)
    requires NothingOwed(l) && p !in l.present
    ensures NothingOwed(Act(l, Join(p))) <==>
      && (forall d :: Val(Reading(l), d) + Weight(l.table, (p, d)) <= Val(l.row.last, d))
      && forall d :: Weight(l.live, (p, d)) <= Weight(l.table, (p, d))
  {
    forall d ensures Val(Reading(Act(l, Join(p))), d) == Val(Reading(l), d) + Weight(l.table, (p, d)) {
      JoinReading(l, p, d);
    }
    AheadAfterJoin(l, p);
  }

  /** A record that returns, under whatever key: where nothing was owed, nothing is owed after
      it if and only if the reading with its counter row is not above the last reading, and its
      counters are not ahead of the row. */
  lemma {:induction false} JoinIsFree(l: Ledger, p: Peer)
    requires l.present <= l.ever && NothingOwed(l) && p !in l.present
    ensures ChargesOnlyWhatMoves(Act(l, Join(p))) <==>
      && (forall d :: Val(Reading(l), d) + Weight(l.table, (p, d)) <= Val(l.row.last, d))
      && forall d :: Weight(l.live, (p, d)) <= Weight(l.table, (p, d))
  {
    ChargesOnlyWhatMovesExactly(Act(l, Join(p)));
    OwedAfterJoin(l, p);
  }

  /** Right after a reset, or once everything read has been charged, a returning record is free
      if and only if its counter row is empty and its counters have not run ahead. */
  lemma {:induction false} JoinAfterReset(l: Ledger, p: Peer)
    requires l.present <= l.ever && NothingOwed(l) && p !in l.present
    requires forall d :: Val(Reading(l), d) == Val(l.row.last, d)
    ensures ChargesOnlyWhatMoves(Act(l, Join(p))) <==> RowZero(l, p)
  {
    JoinIsFree(l, p);
    if RowZero(l, p) {
      forall d ensures Weight(l.live, (p, d)) <= Weight(l.table, (p, d)) {
        assert Chargeable(l, (p, d).0);
      }
    }
    assert PeerPair(l.table, p) == Pair(Weight(l.table, (p, Rx)), Weight(l.table, (p, Tx)));
  }

  const PEER: Peer := ("node", "key")

  /** Five bytes that moved before a reset but were polled after it are charged after it. */
  lemma {:induction false} UnpolledBytesAreChargedLate(now: int)
    ensures var x: Line := (PEER, Rx);
      var none := map[];
      var start := Ledger({PEER}, {PEER}, none, none, none, none, ClientRow(0, Pair(0, 0), 0, 0), Pair(0, 0),
        Pair(0, 0), 0);
      var reset := Act(Act(start, LineMoves(x, 5)), Reset(now));
      var end := Act(Act(reset, PeerPolled(PEER)), Accumulate);
      Moved(end) == Moved(reset) && reset.row.used == 0 && end.row.used == 5
  {
    var x: Line := (PEER, Rx);
    assert LinesOf({PEER}, Rx) == {x} && LinesOf({PEER}, Tx) == {(PEER, Tx)};
    var none: map<Line, nat> := map[];
    var start := Ledger({PEER}, {PEER}, none, none, none, none, ClientRow(0, Pair(0, 0), 0, 0), Pair(0, 0),
      Pair(0, 0), 0);
    var reset := Act(Act(start, LineMoves(x, 5)), Reset(now));
    var polled := Act(reset, PeerPolled(PEER));
    SumOne(x, reset.table);
    SumOne((PEER, Tx), reset.table);
    SumOne(x, polled.table);
    SumOne((PEER, Tx), polled.table);
    assert x in polled.table && x.0 in polled.present;
  }
}
