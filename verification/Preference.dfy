/** Which derivation each peer answered on (internal/tokenaead/preference.go). */
module Preference {
  import opened Wrappers
  import opened RecordStream

  /** One hour, in the unit of the clock. */
  const REPROBE_AFTER: nat := 3600

  datatype Entry = Entry(variant: Variant, at: int, proven: bool)

  type Memory = map<string, Entry>

  function Other(v: Variant): Variant { if v == Legacy256 then SHA512 else Legacy256 }

  /** The derivation to dial with: the newer one unless the peer is remembered as older and
      was decided recently enough. */
  function NextFor(entry: Option<Entry>, now: int): Variant {
    if entry.None? then SHA512
    else if entry.value.variant == Legacy256 && now - entry.value.at > REPROBE_AFTER then SHA512
    else entry.value.variant
  }

  function At(m: Memory, key: string): Option<Entry> { if key in m then Some(m[key]) else None }

  function OnFailure(entry: Option<Entry>, v: Variant, now: int): Entry {
    if entry.Some? && entry.value.proven then entry.value else Entry(Other(v), now, false)
  }

  class Preference {
    var state: Memory

    constructor ()
      ensures state == map[]
    {
      state := map[];
    }

    method Next(key: string, now: int) returns (v: Variant)
      ensures v == NextFor(At(state, key), now)
    {
      if key !in state { return SHA512; }
      var entry := state[key];
      if entry.variant == Legacy256 && now - entry.at > REPROBE_AFTER { return SHA512; }
      v := entry.variant;
    }

    method Succeeded(key: string, v: Variant, now: int)
      modifies this
      ensures state == old(state)[key := Entry(v, now, true)]
    {
      state := state[key := Entry(v, now, true)];
    }

    /** Only an entry that no success has proven is flipped. */
    method Failed(key: string, v: Variant, now: int)
      modifies this
      ensures state == old(state)[key := OnFailure(At(old(state), key), v, now)]
    {
      if key in state && state[key].proven {
        assert state == state[key := state[key]];
        return;
      }
      var other := Legacy256;
      if v == Legacy256 { other := SHA512; }
      state := state[key := Entry(other, now, false)];
    }

    method Known(key: string) returns (v: Option<Variant>)
      ensures v == if key in state then Some(state[key].variant) else None
    {
      v := if key in state then Some(state[key].variant) else None;
    }
  }

  // ---- what the memory remembers, on arbitrary runs -------------------------------------

  datatype Report = Report(key: string, variant: Variant, ok: bool, at: int)

  ghost function Remember(m: Memory, r: Report): Memory {
    m[r.key := if r.ok then Entry(r.variant, r.at, true) else OnFailure(At(m, r.key), r.variant, r.at)]
  }

  ghost function After(log: seq<Report>): Memory {
    if log == [] then map[] else Remember(After(log[..|log| - 1]), log[|log| - 1])
  }

  /** The last report about a peer that has a given verdict. */
  ghost predicate Last(log: seq<Report>, key: string, ok: bool, i: nat) {
    && i < |log| && log[i].key == key && log[i].ok == ok
    && forall j :: i < j < |log| ==> !(log[j].key == key && log[j].ok == ok)
  }

  /** Whatever the order in which connections report, the entry of a peer is its last
      success if there ever was one, else the opposite of its last failure, else absent.
      So a proven entry is only ever changed by a success, and peers are independent. */
  lemma {:induction false} MemoryIsLastVerdict(log: seq<Report>, key: string)
    ensures (exists i: nat :: Last(log, key, true, i)) ==>
      exists i: nat :: Last(log, key, true, i) && At(After(log), key) == Some(Entry(log[i].variant, log[i].at, true))
    ensures (forall i: nat :: !Last(log, key, true, i)) && (exists i: nat :: Last(log, key, false, i)) ==>
      exists i: nat :: Last(log, key, false, i) &&
        At(After(log), key) == Some(Entry(Other(log[i].variant), log[i].at, false))
    ensures (forall i: nat :: !Last(log, key, true, i) && !Last(log, key, false, i)) ==> At(After(log), key) == None
  {
    if log == [] {
    } else {
      var n := |log| - 1;
      var before := log[..n];
      MemoryIsLastVerdict(before, key);
      LastSoFar(log, key, true);
      LastSoFar(log, key, false);
    }
  }

  lemma {:induction false} OnlyOneLast(log: seq<Report>, key: string, ok: bool, i: nat, j: nat)
    requires Last(log, key, ok, i) && Last(log, key, ok, j)
    ensures i == j
  {}

  lemma {:induction false} LastSoFar(log: seq<Report>, key: string, ok: bool)
    requires log != []
    ensures var n := |log| - 1;
      if log[n].key == key && log[n].ok == ok
      then Last(log, key, ok, n) && forall i: nat :: Last(log, key, ok, i) ==> i == n
      else forall i: nat :: Last(log, key, ok, i) <==> Last(log[..n], key, ok, i)
  {
    var n := |log| - 1;
    forall i: nat ensures log[n].key == key && log[n].ok == ok && Last(log, key, ok, i) ==> i == n {
    }
    forall i: nat | !(log[n].key == key && log[n].ok == ok)
      ensures Last(log, key, ok, i) <==> Last(log[..n], key, ok, i)
    {
      if Last(log[..n], key, ok, i) {
        assert log[i] == log[..n][i];
        forall j | i < j < |log| ensures !(log[j].key == key && log[j].ok == ok) {
          if j < n { assert log[j] == log[..n][j]; }
        }
      }
      if Last(log, key, ok, i) {
        assert i != n;
        assert forall j :: i < j < n ==> log[..n][j] == log[j];
      }
    }
  }

  // ---- a peer that speaks one derivation, dialled concurrently ---------------------------

  /** The memory of one peer, its connections that have not reported yet, and the clock. */
  datatype Dialling = Dialling(entry: Option<Entry>, open: map<int, Variant>, now: int)

  datatype Step = Dial(conn: int) | Answer(conn: int) | Wait(ticks: nat)

  /** A connection's first read fails exactly when it was keyed with the wrong derivation. */
  ghost function Next(d: Dialling, speaks: Variant, step: Step): Dialling {
    match step
    case Wait(ticks) => d.(now := d.now + ticks)
    case Dial(conn) => if conn in d.open then d else d.(open := d.open[conn := NextFor(d.entry, d.now)])
    case Answer(conn) =>
      if conn !in d.open then d
      else
        var v := d.open[conn];
        Dialling(
          Some(if v == speaks then Entry(v, d.now, true) else OnFailure(d.entry, v, d.now)),
          d.open - {conn}, d.now)
  }

  ghost function Run(d: Dialling, speaks: Variant, steps: seq<Step>): Dialling {
    if steps == [] then d else Next(Run(d, speaks, steps[..|steps| - 1]), speaks, steps[|steps| - 1])
  }

  /** What has been learned is right: the entry names the derivation the peer speaks. */
  ghost predicate Right(d: Dialling, speaks: Variant) {
    d.entry.Some? ==> d.entry.value.variant == speaks && d.entry.value.at <= d.now
  }

  /** In every interleaving of concurrent connections the entry is absent or right, and
      once present it stays. */
  lemma {:induction false} MemoryNeverWrong(d: Dialling, speaks: Variant, steps: seq<Step>)
    requires Right(d, speaks)
    ensures Right(Run(d, speaks, steps), speaks)
    ensures d.entry.Some? ==> Run(d, speaks, steps).entry.Some?
    ensures Run(d, speaks, steps).now >= d.now
  {
    if steps == [] {
    } else {
      MemoryNeverWrong(d, speaks, steps[..|steps| - 1]);
    }
  }

  /** After any report the next dial uses the right derivation exactly when the peer speaks
      the newer one or its entry was written at most an hour ago. */
  lemma {:induction false} DialsRight(d: Dialling, speaks: Variant, steps: seq<Step>)
    requires Right(d, speaks) && Run(d, speaks, steps).entry.Some?
    ensures var e := Run(d, speaks, steps);
      NextFor(e.entry, e.now) == speaks <==> speaks == SHA512 || e.now - e.entry.value.at <= REPROBE_AFTER
  {
    MemoryNeverWrong(d, speaks, steps);
  }

  /** An old peer that has been silent too long: proven to speak the old derivation, more
      than an hour ago, with no connection on it under way. */
  ghost predicate Stale(d: Dialling) {
    && d.entry.Some? && d.entry.value.variant == Legacy256 && d.entry.value.proven
    && d.now - d.entry.value.at > REPROBE_AFTER
    && forall c :: c in d.open ==> d.open[c] == SHA512
  }

  /** Such a peer is never reached again: on every continuation every dial uses the newer
      derivation, every answer is a failure, and the failures leave the entry as it was.
      The memory was meant to spend one failed attempt and then remember. */
  lemma {:induction false} StaleForever(d: Dialling, steps: seq<Step>)
    requires Stale(d)
    ensures Stale(Run(d, Legacy256, steps)) && Run(d, Legacy256, steps).entry == d.entry
  {
    if steps == [] {
    } else {
      StaleForever(d, steps[..|steps| - 1]);
    }
  }

  /** An ordinary history ends there: one failed attempt, one success, an hour of silence. */
  lemma {:induction false} StaleIsReached()
    ensures Stale(Run(Dialling(None, map[], 0), Legacy256, [Dial(0), Answer(0), Dial(1), Answer(1), Wait(3601)]))
  {
    var start := Dialling(None, map[], 0);
    var steps := [Dial(0), Answer(0), Dial(1), Answer(1), Wait(3601)];
    assert steps[..4][..3] == steps[..3] && steps[..3][..2] == steps[..2] && steps[..2][..1] == steps[..1];
    assert Run(start, Legacy256, steps[..1]) == Dialling(None, map[0 := SHA512], 0);
    assert Run(start, Legacy256, steps[..2]) == Dialling(Some(Entry(Legacy256, 0, false)), map[], 0);
    assert Run(start, Legacy256, steps[..3]) == Dialling(Some(Entry(Legacy256, 0, false)), map[1 := Legacy256], 0);
    assert Run(start, Legacy256, steps[..4]) == Dialling(Some(Entry(Legacy256, 0, true)), map[], 0);
  }

  /** On no continuation does any connection use the derivation the peer speaks, so that its
      answer could succeed. */
  ghost predicate NeverReached(d: Dialling, speaks: Variant) {
    forall steps, c :: c in Run(d, speaks, steps).open ==> Run(d, speaks, steps).open[c] != speaks
  }

  /** The peer is remembered as proven, to speak the newer derivation or, too long ago, the
      older one, and no connection on the older one is under way. */
  ghost predicate OutOfReach(d: Dialling) {
    && d.entry.Some? && d.entry.value.proven
    && (d.entry.value.variant == SHA512 || d.now - d.entry.value.at > REPROBE_AFTER)
    && forall c :: c in d.open ==> d.open[c] == SHA512
  }

  lemma {:induction false} OutOfReachForever(d: Dialling, steps: seq<Step>)
    requires OutOfReach(d)
    ensures OutOfReach(Run(d, Legacy256, steps))
  {
    if steps == [] {
    } else {
      OutOfReachForever(d, steps[..|steps| - 1]);
    }
  }

  lemma {:induction false} SomeNumber(s: set<int>) returns (n: int)
    ensures forall x :: x in s ==> x < n
  {
    n := 0;
    if x :| x in s {
      var m := SomeNumber(s - {x});
      n := if m <= x then x + 1 else m;
      assert forall y :: y in s ==> y == x || y in s - {x};
    }
  }

  lemma {:induction false} RunTwo(d: Dialling, speaks: Variant, a: Step, b: Step)
    ensures Run(d, speaks, [a]) == Next(d, speaks, a)
    ensures Run(d, speaks, [a, b]) == Next(Next(d, speaks, a), speaks, b)
  {
    assert [a, b][..1] == [a] && [a][..0] == [];
    assert Run(d, speaks, []) == d;
  }

  lemma {:induction false} RunThree(d: Dialling, speaks: Variant, a: Step, b: Step, c: Step)
    ensures Run(d, speaks, [a, b, c]) == Next(Next(Next(d, speaks, a), speaks, b), speaks, c)
  {
    assert [a, b, c][..2] == [a, b];
    RunTwo(d, speaks, a, b);
  }

  /** A peer of the older derivation that is not out of reach can still be dialled right: at
      once, or after the failure that flips an entry no success has proven. */
  lemma {:induction false} OldIsReached(d: Dialling)
    requires !OutOfReach(d)
    ensures !NeverReached(d, Legacy256)
  {
    var c := SomeNumber(d.open.Keys);
    if k :| k in d.open && d.open[k] != SHA512 {
      assert Run(d, Legacy256, []).open[k] == Legacy256;
    } else if NextFor(d.entry, d.now) == Legacy256 {
      RunTwo(d, Legacy256, Dial(c), Dial(c));
      assert Run(d, Legacy256, [Dial(c)]).open[c] == Legacy256;
    } else {
      RunThree(d, Legacy256, Dial(c), Answer(c), Dial(c));
      assert Run(d, Legacy256, [Dial(c), Answer(c), Dial(c)]).open[c] == Legacy256;
    }
  }

  /** After long enough a silence the newer derivation is always dialled. */
  lemma {:induction false} NewIsReached(d: Dialling)
    ensures !NeverReached(d, SHA512)
  {
    var c := SomeNumber(d.open.Keys);
    var at := if d.entry.Some? then d.entry.value.at else 0;
    var ticks: nat := if at + REPROBE_AFTER + 1 > d.now then at + REPROBE_AFTER + 1 - d.now else 0;
    RunTwo(d, SHA512, Wait(ticks), Dial(c));
    assert Run(d, SHA512, [Wait(ticks), Dial(c)]).open[c] == SHA512;
  }

  /** Whatever the memory holds, a peer is out of reach for ever if and only if it speaks the
      older derivation while a success on record says otherwise: one on the newer derivation,
      so that it was rolled back, or one on its own more than an hour old; and no connection on
      the older derivation is under way. */
  lemma {:induction false} UnreachableExactly(d: Dialling, speaks: Variant)
    ensures NeverReached(d, speaks) <==> speaks == Legacy256 && OutOfReach(d)
  {
    if speaks == SHA512 {
      NewIsReached(d);
    } else if OutOfReach(d) {
      forall steps ensures OutOfReach(Run(d, Legacy256, steps)) { OutOfReachForever(d, steps); }
    } else {
      OldIsReached(d);
    }
  }

  /** A peer that answered on the newer derivation once and is then rolled back is out of reach
      at once, without any silence. */
  lemma {:induction false} RollbackIsOutOfReach()
    ensures OutOfReach(Run(Dialling(None, map[], 0), SHA512, [Dial(0), Answer(0)]))
  {
    RunTwo(Dialling(None, map[], 0), SHA512, Dial(0), Answer(0));
  }

  /** A peer upgraded from the old derivation to the new one is dialled with the new one by
      the first attempt more than an hour after its last success on the old. */
  lemma {:induction false} UpgradeIsNoticed(log: seq<Report>, key: string, i: nat, now: int)
    requires Last(log, key, true, i) && now - log[i].at > REPROBE_AFTER
    ensures NextFor(At(After(log), key), now) == SHA512
  {
    MemoryIsLastVerdict(log, key);
    var j: nat :| Last(log, key, true, j) && At(After(log), key) == Some(Entry(log[j].variant, log[j].at, true));
    OnlyOneLast(log, key, true, i, j);
  }
}
