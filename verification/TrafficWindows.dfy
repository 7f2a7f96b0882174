/** Window totals against the all-time total, over whole runs of the collector
    (internal/statsview/statsview.go, internal/collector/collector.go). */
module TrafficWindows {
  import opened Wrappers
  import opened Sorting
  import opened Sums
  import opened Traffic

  ghost function Since(samples: seq<Sample>, cutoff: int): seq<Sample> {
    if samples == [] then []
    else
      var n := |samples| - 1;
      Since(samples[..n], cutoff) + (if samples[n].ts >= cutoff then [samples[n]] else [])
  }

  /** The samples at or after the cutoff, in the order they came. */
  method SinceCutoff(samples: seq<Sample>, cutoff: int) returns (out: seq<Sample>)
    ensures out == Since(samples, cutoff)
  {
    out := [];
    for i := 0 to |samples|
      invariant out == Since(samples[..i], cutoff)
    {
      assert samples[..i + 1][..i] == samples[..i];
      if samples[i].ts >= cutoff { out := out + [samples[i]]; }
    }
    assert samples[..|samples|] == samples;
  }

  /** The cutoff keeps exactly the samples at or after it, each as often as it was there. */
  lemma {:induction false} SinceKeepsExactly(samples: seq<Sample>, cutoff: int, x: Sample)
    ensures multiset(Since(samples, cutoff))[x] == if x.ts >= cutoff then multiset(samples)[x] else 0
  {
    if samples == [] {
    } else {
      var n := |samples| - 1;
      SinceKeepsExactly(samples[..n], cutoff, x);
      assert samples == samples[..n] + [samples[n]];
      SinceNext(samples[..n], samples[n], cutoff);
    }
  }

  /** And in their order: what is kept of one stretch comes before what is kept of the next. */
  lemma {:induction false} SinceKeepsOrder(a: seq<Sample>, b: seq<Sample>, cutoff: int)
    ensures Since(a + b, cutoff) == Since(a, cutoff) + Since(b, cutoff)
  {
    if b == [] {
      assert a + b == a;
    } else {
      var n := |b| - 1;
      SinceKeepsOrder(a, b[..n], cutoff);
      assert a + b == (a + b[..n]) + [b[n]] && b == b[..n] + [b[n]];
      SinceNext(a + b[..n], b[n], cutoff);
      SinceNext(b[..n], b[n], cutoff);
    }
  }

  lemma {:induction false} SinceSince(samples: seq<Sample>, c: int, later: int)
    requires c <= later
    ensures Since(Since(samples, c), later) == Since(samples, later)
  {
    if samples == [] {
    } else {
      var n := |samples| - 1;
      SinceSince(samples[..n], c, later);
      var kept := Since(samples[..n], c);
      assert (kept + [samples[n]])[..|kept|] == kept && kept + [] == kept;
    }
  }

  lemma {:induction false} SinceNext(s: seq<Sample>, x: Sample, c: int)
    ensures Since(s + [x], c) == if x.ts >= c then Since(s, c) + [x] else Since(s, c)
  {
    assert (s + [x])[..|s|] == s;
    assert Since(s, c) + [] == Since(s, c);
  }

  lemma {:induction false} ProjectNext(s: seq<Sample>, x: Sample, n: string)
    ensures Project(s + [x], n) == if x.node == n then Project(s, n) + [x] else Project(s, n)
  {
    assert (s + [x])[..|s|] == s;
    assert Project(s, n) + [] == Project(s, n);
  }

  lemma {:induction false} ProjectSince(samples: seq<Sample>, c: int, node: string)
    ensures Project(Since(samples, c), node) == Since(Project(samples, node), c)
  {
    if samples == [] {
    } else {
      var n := |samples| - 1;
      var x := samples[n];
      ProjectSince(samples[..n], c, node);
      assert samples == samples[..n] + [x];
      SinceNext(samples[..n], x, c);
      ProjectNext(samples[..n], x, node);
      SinceNext(Project(samples[..n], node), x, c);
      ProjectNext(Since(samples[..n], c), x, node);
    }
  }

  ghost predicate Ascending(samples: seq<Sample>) {
    |samples| <= 1 ||
    var n := |samples| - 1;
    Ascending(samples[..n]) && samples[n - 1].ts <= samples[n].ts
  }

  ghost predicate SuffixOf(t: seq<Sample>, s: seq<Sample>) {
    |t| <= |s| && t == s[|s| - |t|..]
  }

  lemma {:induction false} SinceEmpty(samples: seq<Sample>, c: int)
    requires Ascending(samples) && samples != [] && samples[|samples| - 1].ts < c
    ensures Since(samples, c) == []
  {
    var n := |samples| - 1;
    if n == 0 {
    } else {
      assert samples[..n][n - 1] == samples[n - 1];
      SinceEmpty(samples[..n], c);
    }
  }

  lemma {:induction false} TailNext(s: seq<Sample>, c: int)
    requires s != [] && s[|s| - 1].ts >= c
    requires SuffixOf(Since(s[..|s| - 1], c), s[..|s| - 1])
    ensures SuffixOf(Since(s, c), s)
  {
    var before, x := s[..|s| - 1], s[|s| - 1];
    var t := Since(before, c);
    assert Since(s, c) == t + [x];
    SuffixGrows(t, before, [x]);
    assert s == before + [x];
  }

  /** On one node's readings in time order a cutoff keeps a tail. */
  lemma {:induction false} SinceIsTail(samples: seq<Sample>, c: int)
    requires Ascending(samples)
    ensures SuffixOf(Since(samples, c), samples)
  {
    if samples == [] {
    } else {
      var n := |samples| - 1;
      if samples[n].ts < c {
        SinceEmpty(samples, c);
      } else {
        SinceIsTail(samples[..n], c);
        TailNext(samples, c);
      }
    }
  }

  lemma {:induction false} SuffixTransitive(a: seq<Sample>, b: seq<Sample>, c: seq<Sample>)
    requires SuffixOf(a, b) && SuffixOf(b, c)
    ensures SuffixOf(a, c)
  {
    assert b[|b| - |a|..] == c[|c| - |b|..][|b| - |a|..] == c[|c| - |a|..];
  }

  ghost function TotalOf(row: Option<Row>, d: Way): nat {
    if row.None? then 0 else Val(row.value.total, d)
  }

  /** Dropping the oldest readings of a node never raises what the rest add up to. */
  lemma {:induction false} TailCountsLess(s: seq<Sample>, t: seq<Sample>, d: Way)
    requires SuffixOf(t, s)
    ensures TotalOf(FoldAll(t), d) <= TotalOf(FoldAll(s), d)
    ensures t != [] ==> FoldAll(t).Some? && FoldAll(s).Some? && FoldAll(t).value.last == FoldAll(s).value.last
  {
    if t == [] {
    } else {
      TailInit(t, s);
      TailCountsLess(s[..|s| - 1], t[..|t| - 1], d);
    }
  }

  lemma {:induction false} TailInit(t: seq<Sample>, s: seq<Sample>)
    requires SuffixOf(t, s) && t != []
    ensures SuffixOf(t[..|t| - 1], s[..|s| - 1]) && t[|t| - 1] == s[|s| - 1]
  {
    var k, n := |t| - 1, |s| - 1;
    var init := s[..n];
    assert t[..k] == init[|init| - k..];
  }

  ghost function NodesOf(samples: seq<Sample>): set<string> {
    set i | 0 <= i < |samples| :: samples[i].node
  }

  lemma {:induction false} SumOverMore(rows: map<string, Row>, nodes: set<string>, d: Way)
    requires rows.Keys <= nodes
    ensures Sum(rows.Keys, TotalsOf(rows, d)) == Sum(nodes, TotalsOf(rows, d))
  {
    var extra := nodes - rows.Keys;
    assert nodes == rows.Keys + extra;
    SumUnion(rows.Keys, extra, TotalsOf(rows, d));
    SumSame(extra, TotalsOf(rows, d), map[]);
    NoWeights(extra);
  }

  lemma {:induction false} NoWeights<K>(s: set<K>)
    ensures Sum(s, map[]) == 0
  {
    if s != {} {
      var k := Pick(s);
      SumWithout(s, k, map[]);
      NoWeights(s - {k});
    }
  }

  /** A grouped list whose readings of every node are a tail of another table's never
      totals more than that table's rows over those nodes. */
  lemma {:induction false} SeriesBoundedByRows(list: seq<Sample>, history: seq<Sample>, nodes: set<string>, d: Way)
    requires Grouped(list) && NodesOf(list) <= nodes
    requires forall n :: n in nodes ==> SuffixOf(Project(list, n), Project(history, n))
    ensures DeltaSum(Deltas(list), d) <= Sum(nodes, TotalsOf(Totals(history), d))
  {
    SeriesIsAccumulated(list, d);
    var rows, all := Totals(list), Totals(history);
    forall n | n in rows.Keys ensures n in nodes {
      TotalsKeys(list, n);
    }
    SumOverMore(rows, nodes, d);
    forall n | n in nodes
      ensures Weight(TotalsOf(rows, d), n) <= Weight(TotalsOf(all, d), n)
    {
      RowIsOwnReadings(list, n);
      RowIsOwnReadings(history, n);
      TailCountsLess(Project(history, n), Project(list, n), d);
    }
    SumAtMost(nodes, TotalsOf(rows, d), TotalsOf(all, d));
  }

  // ---- the collector's runs ---------------------------------------------------------------

  /** The samples table, the durable rows, the clock, and everything ever sampled. */
  datatype Store = Store(table: seq<Sample>, rows: map<string, Row>, now: int, history: seq<Sample>)

  datatype Step = Collect(node: string, bytes: Pair) | Prune(cutoff: int) | Wait(ticks: nat)

  /** Collecting stores a sample, then folds it into the node's row. */
  ghost function Next(s: Store, step: Step): Store {
    match step
    case Wait(ticks) => s.(now := s.now + ticks)
    case Prune(cutoff) => s.(table := Since(s.table, cutoff))
    case Collect(node, bytes) =>
      var x := Sample(node, s.now, bytes);
      Store(s.table + [x], s.rows[node := Fold(RowAt(s.rows, node), bytes)], s.now, s.history + [x])
  }

  ghost function Run(start: int, steps: seq<Step>): Store {
    if steps == [] then Store([], map[], start, [])
    else Next(Run(start, steps[..|steps| - 1]), steps[|steps| - 1])
  }

  ghost predicate Kept(s: Store) {
    && s.rows == Totals(s.history)
    && Ascending(s.history) && Ascending(s.table)
    && (s.history != [] ==> s.history[|s.history| - 1].ts <= s.now)
    && (s.table != [] ==> s.table[|s.table| - 1].ts <= s.now)
    && forall n :: SuffixOf(Project(s.table, n), Project(s.history, n))
  }

  /** What is kept of ascending samples ascends and ends no later than they do. */
  ghost predicate AscendsWithin(kept: seq<Sample>, s: seq<Sample>) {
    Ascending(kept) && (kept != [] ==> s != [] && kept[|kept| - 1].ts <= s[|s| - 1].ts)
  }

  lemma {:induction false} AscendsOn(kept: seq<Sample>, s: seq<Sample>)
    requires s != [] && Ascending(s) && AscendsWithin(kept, s[..|s| - 1])
    ensures AscendsWithin(kept, s) && AscendsWithin(kept + [s[|s| - 1]], s)
  {
    var x := s[|s| - 1];
    assert (kept + [x])[..|kept|] == kept;
    if kept != [] {
      assert s[..|s| - 1][|s| - 2] == s[|s| - 2];
    }
  }

  lemma {:induction false} ProjectAscends(s: seq<Sample>, n: string)
    requires Ascending(s)
    ensures AscendsWithin(Project(s, n), s)
  {
    if s == [] {
    } else {
      var k := |s| - 1;
      ProjectAscends(s[..k], n);
      AscendsOn(Project(s[..k], n), s);
      assert s == s[..k] + [s[k]];
      ProjectNext(s[..k], s[k], n);
    }
  }

  lemma {:induction false} AppendAscends(s: seq<Sample>, x: Sample)
    requires Ascending(s) && (s != [] ==> s[|s| - 1].ts <= x.ts)
    ensures Ascending(s + [x])
  {
    assert (s + [x])[..|s|] == s;
  }

  lemma {:induction false} CollectKeeps(s: Store, node: string, bytes: Pair)
    requires Kept(s)
    ensures Kept(Next(s, Collect(node, bytes)))
  {
    var x := Sample(node, s.now, bytes);
    var t := Next(s, Collect(node, bytes));
    assert (s.history + [x])[..|s.history|] == s.history;
    AppendAscends(s.history, x);
    AppendAscends(s.table, x);
    forall n ensures SuffixOf(Project(t.table, n), Project(t.history, n)) {
      ProjectNext(s.table, x, n);
      ProjectNext(s.history, x, n);
      SuffixGrows(Project(s.table, n), Project(s.history, n), [x]);
    }
  }

  lemma {:induction false} SuffixGrows(t: seq<Sample>, s: seq<Sample>, more: seq<Sample>)
    requires SuffixOf(t, s)
    ensures SuffixOf(t + more, s + more)
  {
    assert (s + more)[|s| - |t|..] == s[|s| - |t|..] + more;
  }

  lemma {:induction false} SinceAscends(s: seq<Sample>, c: int)
    requires Ascending(s)
    ensures AscendsWithin(Since(s, c), s)
  {
    if s == [] {
    } else {
      var k := |s| - 1;
      SinceAscends(s[..k], c);
      AscendsOn(Since(s[..k], c), s);
      assert s == s[..k] + [s[k]];
      SinceNext(s[..k], s[k], c);
    }
  }

  lemma {:induction false} PruneKeeps(s: Store, cutoff: int)
    requires Kept(s)
    ensures Kept(Next(s, Prune(cutoff)))
  {
    SinceAscends(s.table, cutoff);
    forall n ensures SuffixOf(Project(Since(s.table, cutoff), n), Project(s.history, n)) {
      ProjectSince(s.table, cutoff, n);
      ProjectAscends(s.table, n);
      SinceIsTail(Project(s.table, n), cutoff);
      SuffixTransitive(Since(Project(s.table, n), cutoff), Project(s.table, n), Project(s.history, n));
    }
  }

  /** No prune from step i on goes beyond this moment. */
  ghost predicate NotPruned(steps: seq<Step>, i: nat, ts: int) {
    forall j :: i <= j < |steps| && steps[j].Prune? ==> steps[j].cutoff <= ts
  }

  /** In every run a sample that was collected is there until a prune goes beyond it, and right
      after a prune nothing older is. */
  lemma {:induction false} SamplesStayUntilPruned(start: int, steps: seq<Step>, i: nat)
    requires i < |steps| && steps[i].Collect?
    ensures var x := Sample(steps[i].node, Run(start, steps[..i]).now, steps[i].bytes);
      NotPruned(steps, i, x.ts) ==> x in Run(start, steps).table
    ensures forall y, c :: steps[|steps| - 1] == Prune(c) && y in Run(start, steps).table ==> y.ts >= c
    decreases |steps|
  {
    var n := |steps| - 1;
    var before := Run(start, steps[..n]);
    var x := Sample(steps[i].node, Run(start, steps[..i]).now, steps[i].bytes);
    if i < n {
      SamplesStayUntilPruned(start, steps[..n], i);
      assert steps[..n][..i] == steps[..i];
      assert NotPruned(steps, i, x.ts) ==> NotPruned(steps[..n], i, x.ts);
    }
    if steps[n].Prune? {
      forall y ensures y in Since(before.table, steps[n].cutoff) <==> y in before.table && y.ts >= steps[n].cutoff {
        SinceKeepsExactly(before.table, steps[n].cutoff, y);
        assert y in before.table <==> multiset(before.table)[y] > 0;
        assert y in Since(before.table, steps[n].cutoff) <==> multiset(Since(before.table, steps[n].cutoff))[y] > 0;
      }
    }
  }

  lemma {:induction false} RunsKeep(start: int, steps: seq<Step>)
    ensures Kept(Run(start, steps))
  {
    if steps == [] {
      assert forall n :: SuffixOf(Project([], n), Project([], n));
    } else {
      var k := |steps| - 1;
      RunsKeep(start, steps[..k]);
      match steps[k]
      case Wait(_) =>
      case Prune(cutoff) => PruneKeeps(Run(start, steps[..k]), cutoff);
      case Collect(node, bytes) => CollectKeeps(Run(start, steps[..k]), node, bytes);
    }
  }

  /** What the store lists for a set of nodes: node by node, each node's samples in time
      order, which is the order they were stored in. */
  ghost predicate Lists(list: seq<Sample>, table: seq<Sample>, nodes: set<string>) {
    && Grouped(list) && NodesOf(list) <= nodes
    && forall n :: n in nodes ==> Project(list, n) == Project(table, n)
  }

  ghost predicate LastOrGone(kept: seq<Sample>, node: string) {
    kept == [] || kept[|kept| - 1].node == node || forall i :: 0 <= i < |kept| ==> kept[i].node != node
  }

  lemma {:induction false} SinceGrouped(list: seq<Sample>, c: int)
    requires Grouped(list)
    ensures Grouped(Since(list, c)) && NodesOf(Since(list, c)) <= NodesOf(list)
    ensures list != [] ==> LastOrGone(Since(list, c), list[|list| - 1].node)
  {
    if list == [] {
    } else {
      var k := |list| - 1;
      var x := list[k];
      SinceGrouped(list[..k], c);
      var before := Since(list[..k], c);
      NodesGrow(list);
      BeforeLast(list, before);
      if x.ts >= c {
        GroupedNext(before, x);
      } else {
        assert before + [] == before;
      }
    }
  }

  lemma {:induction false} SomeNode(s: seq<Sample>)
    ensures s != [] ==> NodesOf(s) != {}
  {
    if s != [] { assert s[0].node in NodesOf(s); }
  }

  lemma {:induction false} BeforeLast(list: seq<Sample>, before: seq<Sample>)
    requires list != [] && Grouped(list) && NodesOf(before) <= NodesOf(list[..|list| - 1])
    requires |list| > 1 ==> LastOrGone(before, list[|list| - 2].node)
    ensures LastOrGone(before, list[|list| - 1].node)
  {
    var k := |list| - 1;
    if k == 0 {
      assert NodesOf(list[..k]) == {};
      SomeNode(before);
    } else if list[k - 1].node != list[k].node {
      forall i | 0 <= i < |before| ensures before[i].node != list[k].node {
        assert before[i].node in NodesOf(before);
      }
    }
  }

  lemma {:induction false} GroupedNext(before: seq<Sample>, x: Sample)
    requires Grouped(before) && LastOrGone(before, x.node)
    ensures Grouped(before + [x]) && NodesOf(before + [x]) == NodesOf(before) + {x.node}
  {
    assert (before + [x])[..|before|] == before;
    NodesGrow(before + [x]);
  }

  lemma {:induction false} NodesGrow(list: seq<Sample>)
    requires list != []
    ensures NodesOf(list) == NodesOf(list[..|list| - 1]) + {list[|list| - 1].node}
  {
    var k := |list| - 1;
    forall m | m in NodesOf(list) ensures m in NodesOf(list[..k]) + {list[k].node} {
      var i :| 0 <= i < |list| && list[i].node == m;
      if i < k { assert list[..k][i].node == m; }
    }
    forall m | m in NodesOf(list[..k]) ensures m in NodesOf(list) {
      var i :| 0 <= i < k && list[..k][i].node == m;
      assert list[i].node == m;
    }
    assert list[k].node in NodesOf(list);
  }

  lemma {:induction false} WindowTail(list: seq<Sample>, table: seq<Sample>, nodes: set<string>, c: int, later: int,
      n: string)
    requires Lists(list, table, nodes) && n in nodes && Ascending(table) && c <= later
    ensures SuffixOf(Project(Since(list, later), n), Project(Since(list, c), n))
    ensures SuffixOf(Project(Since(list, c), n), Project(table, n))
  {
    ProjectSince(list, c, n);
    ProjectSince(list, later, n);
    ProjectAscends(table, n);
    SinceIsTail(Project(table, n), c);
    SinceSince(Project(table, n), c, later);
    SinceAscends(Project(table, n), c);
    SinceIsTail(Since(Project(table, n), c), later);
  }

  /** Over every run, whatever has been pruned: a narrower window never shows more than a
      wider one, and no window shows more than the all-time total of the same nodes. */
  lemma {:induction false} WindowsNestUnderAllTime(start: int, steps: seq<Step>, list: seq<Sample>, nodes: set<string>,
      c: int, later: int, d: Way)
    requires Lists(list, Run(start, steps).table, nodes) && c <= later
    ensures var s := Run(start, steps);
      DeltaSum(Deltas(Since(list, later)), d) <= DeltaSum(Deltas(Since(list, c)), d)
        <= Sum(nodes, TotalsOf(s.rows, d))
  {
    var s := Run(start, steps);
    RunsKeep(start, steps);
    SinceGrouped(list, c);
    SinceGrouped(list, later);
    forall n | n in nodes ensures SuffixOf(Project(Since(list, c), n), Project(s.history, n)) {
      WindowTail(list, s.table, nodes, c, later, n);
      SuffixTransitive(Project(Since(list, c), n), Project(s.table, n), Project(s.history, n));
    }
    SeriesBoundedByRows(Since(list, c), s.history, nodes, d);
    NarrowerShowsLess(list, s.table, nodes, c, later, d);
  }

  lemma {:induction false} NarrowerShowsLess(list: seq<Sample>, table: seq<Sample>, nodes: set<string>, c: int,
      later: int, d: Way)
    requires Lists(list, table, nodes) && Ascending(table) && c <= later
    ensures DeltaSum(Deltas(Since(list, later)), d) <= DeltaSum(Deltas(Since(list, c)), d)
  {
    var wide := Since(list, c);
    SinceGrouped(list, c);
    SinceGrouped(list, later);
    forall n | n in nodes ensures SuffixOf(Project(Since(list, later), n), Project(wide, n)) {
      WindowTail(list, table, nodes, c, later, n);
    }
    SeriesBoundedByRows(Since(list, later), wide, nodes, d);
    SeriesIsAccumulated(wide, d);
    forall n | n in Totals(wide).Keys ensures n in nodes { TotalsKeys(wide, n); }
    SumOverMore(Totals(wide), nodes, d);
  }

  /** The hour, the day and the week of the traffic page, and the total below them. */
  lemma {:induction false} PageTotalsOrdered(start: int, steps: seq<Step>, list: seq<Sample>, nodes: set<string>,
      now: int, d: Way)
    requires Lists(list, Run(start, steps).table, nodes)
    ensures var w := (seconds: int) => DeltaSum(Deltas(Since(list, now - seconds)), d);
      w(3600) <= w(86400) <= w(604800) <= Sum(nodes, TotalsOf(Run(start, steps).rows, d))
  {
    WindowsNestUnderAllTime(start, steps, list, nodes, now - 86400, now - 3600, d);
    WindowsNestUnderAllTime(start, steps, list, nodes, now - 604800, now - 86400, d);
  }
}
