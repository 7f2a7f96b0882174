/** What the meters may charge, against the bytes that really moved
    (internal/storage/traffic.go, internal/storage/clienttraffic.go). */
module Metering {
  import opened Wrappers
  import opened Sums
  import opened Traffic

  // ---- one node, one direction ------------------------------------------------------------

  /** A relay's true traffic and counter in one direction beside the panel's row. `base` and
      `mark` are the true traffic at the first and the last reading; `lowered` says that a
      restart has set the counter back since the last reading, `lossy` that some bytes went
      unseen. */
  datatype Meter = Meter(moved: nat, counter: nat, row: Option<Row>, base: nat, mark: nat, lowered: bool, lossy: bool)

  /** A poll reads both directions; `other` is what it finds in the other one. */
  datatype Event = Move(bytes: nat) | Restart(lower: nat) | Poll(other: nat)

  const NEW_METER := Meter(0, 0, None, 0, 0, false, false)

  ghost function Both(d: Way, mine: nat, other: nat): Pair {
    if d == Rx then Pair(mine, other) else Pair(other, mine)
  }

  /** A restart leaves the counter no higher than it was; a poll folds the reading in. */
  ghost function Next(m: Meter, e: Event, d: Way): Meter {
    match e
    case Move(bytes) => m.(moved := m.moved + bytes, counter := m.counter + bytes)
    case Restart(lower) =>
      if lower >= m.counter then m else m.(counter := lower, lowered := true)
    case Poll(other) =>
      Meter(m.moved, m.counter, Some(Fold(m.row, Both(d, m.counter, other))),
        if m.row.None? then m.moved else m.base, m.moved, false,
        m.row.Some? && (m.lossy || (m.lowered && m.moved > m.mark)))
  }

  ghost function Run(events: seq<Event>, d: Way): Meter {
    if events == [] then NEW_METER else Next(Run(events[..|events| - 1], d), events[|events| - 1], d)
  }

  ghost predicate Honest(m: Meter, d: Way) {
    m.row.Some? ==>
      var total, last := Val(m.row.value.total, d), Val(m.row.value.last, d);
      && m.base <= m.mark <= m.moved
      && total <= m.mark - m.base && (total == m.mark - m.base <==> !m.lossy)
      && m.counter <= last + (m.moved - m.mark) && (m.counter == last + (m.moved - m.mark) <==> !m.lowered)
  }

  /** With arbitrary restarts between polls the total of either direction never exceeds what
      truly moved since the first reading, and equals what had moved by the last one exactly
      when no interval between two readings held both a setback of the counter and traffic. */
  lemma {:induction false} NeverOvercharges(events: seq<Event>, d: Way)
    requires Run(events, d).row.Some?
    ensures var m := Run(events, d);
      && Val(m.row.value.total, d) <= m.mark - m.base <= m.moved - m.base
      && (Val(m.row.value.total, d) == m.mark - m.base <==> !m.lossy)
  {
    RunsHonest(events, d);
  }

  lemma {:induction false} RunsHonest(events: seq<Event>, d: Way)
    ensures Honest(Run(events, d), d)
  {
    if events == [] {
    } else {
      RunsHonest(events[..|events| - 1], d);
      NextIsHonest(Run(events[..|events| - 1], d), events[|events| - 1], d);
    }
  }

  lemma {:induction false} NextIsHonest(m: Meter, e: Event, d: Way)
    requires Honest(m, d)
    ensures Honest(Next(m, e, d), d)
  {}

  /** The total never goes down. */
  lemma {:induction false} TotalIsMonotone(events: seq<Event>, more: seq<Event>, d: Way)
    requires Run(events, d).row.Some?
    ensures Run(events + more, d).row.Some?
    ensures Val(Run(events, d).row.value.total, d) <= Val(Run(events + more, d).row.value.total, d)
  {
    if more == [] {
      assert events + more == events;
    } else {
      var n := |more| - 1;
      TotalIsMonotone(events, more[..n], d);
      var all := events + more;
      assert all[..|all| - 1] == events + more[..n];
    }
  }

  // ---- one client with several peers -------------------------------------------------------

  /** A managed client's durable accumulator. */
  datatype ClientRow = ClientRow(used: nat, last: Pair, periodDays: nat, nextReset: int)

  const SECONDS_PER_DAY := 86400

  /** Folding the client's summed peer counters in; the first time only sets the baseline. */
  function UsageFold(row: Option<ClientRow>, reading: Pair): ClientRow {
    if row.None? then ClientRow(0, reading, 0, 0)
    else
      var gain := Gain(row.value.last, reading);
      row.value.(used := row.value.used + gain.rx + gain.tx, last := reading)
  }

  /** Usage starts again from the current reading; a period arms the next reset. */
  function ResetRow(row: Option<ClientRow>, reading: Pair, now: int): ClientRow {
    var was := if row.None? then ClientRow(0, reading, 0, 0) else row.value;
    ClientRow(0, reading, was.periodDays,
      if was.periodDays > 0 then now + was.periodDays * SECONDS_PER_DAY else was.nextReset)
  }

  function LimitRow(row: Option<ClientRow>, reading: Pair, periodDays: int, now: int): ClientRow {
    var days: nat := if periodDays < 0 then 0 else periodDays;
    if row.None? then
      ClientRow(0, reading, days, if days > 0 then now + days * SECONDS_PER_DAY else 0)
    else
      var r := row.value;
      r.(periodDays := days,
         nextReset := if days == 0 then 0
                      else if r.periodDays != days || r.nextReset == 0 then now + days * SECONDS_PER_DAY
                      else r.nextReset)
  }

  predicate Due(row: ClientRow, now: int) {
    row.periodDays > 0 && row.nextReset > 0 && row.nextReset <= now
  }

  // ---- scheduled resets -------------------------------------------------------------------

  /** A row, the clock, and when the last scheduled reset under the current period ran. */
  datatype Schedule = Schedule(row: ClientRow, now: int, lastAuto: Option<int>)

  datatype Tick = Pass(seconds: nat) | SetLimit(periodDays: int, reading: Pair) | ManualReset(reading: Pair)
      | RunDue(reading: Pair)

  ghost function Ticked(s: Schedule, t: Tick): Schedule {
    match t
    case Pass(seconds) => s.(now := s.now + seconds)
    case SetLimit(days, reading) =>
      var row := LimitRow(Some(s.row), reading, days, s.now);
      s.(row := row, lastAuto := if row.periodDays == s.row.periodDays then s.lastAuto else None)
    case ManualReset(reading) => s.(row := ResetRow(Some(s.row), reading, s.now))
    case RunDue(reading) =>
      if Due(s.row, s.now) then Schedule(ResetRow(Some(s.row), reading, s.now), s.now, Some(s.now)) else s
  }

  ghost function TickedAll(s: Schedule, ticks: seq<Tick>): Schedule {
    if ticks == [] then s else Ticked(TickedAll(s, ticks[..|ticks| - 1]), ticks[|ticks| - 1])
  }

  /** A reset is armed exactly when there is a period, and never sooner than one whole
      period after the scheduled reset before it. */
  ghost predicate Armed(s: Schedule) {
    && s.now > 0
    && (s.row.periodDays == 0 <==> s.row.nextReset == 0) && s.row.nextReset >= 0
    && (s.lastAuto.Some? && s.row.periodDays > 0 ==>
          s.lastAuto.value <= s.now && s.row.nextReset >= s.lastAuto.value + s.row.periodDays * SECONDS_PER_DAY)
  }

  lemma {:induction false} TicksStayArmed(s: Schedule, ticks: seq<Tick>)
    requires Armed(s)
    ensures Armed(TickedAll(s, ticks))
  {
    if ticks == [] {
    } else {
      TicksStayArmed(s, ticks[..|ticks| - 1]);
    }
  }

  /** Two scheduled resets under one period are at least that period apart. */
  lemma {:induction false} ResetsAreApart(s: Schedule, ticks: seq<Tick>, reading: Pair)
    requires Armed(s)
    ensures var e := TickedAll(s, ticks);
      e.lastAuto.Some? && Due(e.row, e.now) ==> e.now - e.lastAuto.value >= e.row.periodDays * SECONDS_PER_DAY
  {
    TicksStayArmed(s, ticks);
  }

  // ---- when a reset falls due --------------------------------------------------------------------

  /** A reset with a period falls due exactly that many days after it, and not before; without
      a period nothing it arms ever falls due. */
  lemma {:induction false} ResetFallsDue(row: ClientRow, reading: Pair, now: int, later: int)
    requires now > 0
    ensures var r := ResetRow(Some(row), reading, now);
      && (row.periodDays > 0 ==> (Due(r, later) <==> later >= now + 86400 * row.periodDays))
      && (row.periodDays == 0 ==> !Due(r, later))
      && r.periodDays == row.periodDays && r.used == 0 && r.last == reading
  {}

  /** Setting a period starts it now, unless it is the one already running: then changing the
      cap alone neither hastens nor delays the reset. Usage and readings are left alone, and a
      first row counts from the present reading. */
  lemma {:induction false} LimitFallsDue(row: ClientRow, reading: Pair, days: nat, now: int, later: int)
    requires now > 0 && days > 0
    ensures var r := LimitRow(Some(row), reading, days, now);
      var running := row.periodDays == days && row.nextReset != 0;
      && (running ==> (Due(r, later) <==> Due(row, later)))
      && (!running ==> (Due(r, later) <==> later >= now + 86400 * days))
      && r.used == row.used && r.last == row.last
    ensures var first := LimitRow(None, reading, days, now);
      (Due(first, later) <==> later >= now + 86400 * days) && first.used == 0 && first.last == reading
  {}

  /** A period of zero, or less, means that nothing is ever due by itself. */
  lemma {:induction false} NoPeriodNoReset(row: Option<ClientRow>, reading: Pair, days: int, now: int, later: int)
    requires days <= 0
    ensures !Due(LimitRow(row, reading, days, now), later)
  {}
}
