/** Restart-tolerant traffic counters and the series drawn from them
    (internal/storage/traffic.go, internal/statsview/statsview.go). */
module Traffic {
  import opened Wrappers
  import opened Sorting
  import opened Sums

  datatype Way = Rx | Tx

  datatype Pair = Pair(rx: nat, tx: nat)

  function Val(p: Pair, d: Way): nat { if d == Rx then p.rx else p.tx }

  function Plus(a: Pair, b: Pair): Pair { Pair(a.rx + b.rx, a.tx + b.tx) }

  datatype Sample = Sample(node: string, ts: int, bytes: Pair)

  /** A node's durable row: the all-time total and the last reading. */
  datatype Row = Row(total: Pair, last: Pair)

  /** A smaller reading is a restart and counts for nothing. */
  function Growth(last: nat, now: nat): nat { if now >= last then now - last else 0 }

  function Gain(last: Pair, now: Pair): Pair {
    Pair(Growth(last.rx, now.rx), Growth(last.tx, now.tx))
  }

  function RowAt(rows: map<string, Row>, node: string): Option<Row> {
    if node in rows then Some(rows[node]) else None
  }

  /** The first reading is only a baseline. */
  function Fold(row: Option<Row>, reading: Pair): Row {
    if row.None? then Row(Pair(0, 0), reading)
    else Row(Plus(row.value.total, Gain(row.value.last, reading)), reading)
  }

  ghost function TotalsOf(rows: map<string, Row>, d: Way): map<string, nat> {
    map n | n in rows :: Val(rows[n].total, d)
  }

  /** The node_traffic_total table. */
  class NodeTotals {
    var rows: map<string, Row>

    constructor ()
      ensures rows == map[]
    {
      rows := map[];
    }

    method AccumulateNodeTraffic(node: string, rx: nat, tx: nat)
      modifies this
      ensures rows == old(rows)[node := Fold(RowAt(old(rows), node), Pair(rx, tx))]
    {
      if node !in rows {
        rows := rows[node := Row(Pair(0, 0), Pair(rx, tx))];
        return;
      }
      var row := rows[node];
      var total := row.total;
      if rx >= row.last.rx { total := Pair(total.rx + (rx - row.last.rx), total.tx); }
      if tx >= row.last.tx { total := Pair(total.rx, total.tx + (tx - row.last.tx)); }
      rows := rows[node := Row(total, Pair(rx, tx))];
    }

    method SumNodeTrafficTotals(ids: seq<string>) returns (sum: Pair)
      ensures forall d :: Val(sum, d) == Sum(Elements(ids), TotalsOf(rows, d))
    {
      sum := Pair(0, 0);
      var todo := set n | n in ids;
      assert todo == Elements(ids);
      ghost var done := {};
      while todo != {}
        invariant done !! todo && done + todo == Elements(ids)
        invariant sum.rx == Sum(done, TotalsOf(rows, Rx))
        invariant sum.tx == Sum(done, TotalsOf(rows, Tx))
        decreases todo
      {
        var n := AnyOf(todo);
        todo := todo - {n};
        SumUnion(done, {n}, TotalsOf(rows, Rx));
        SumUnion(done, {n}, TotalsOf(rows, Tx));
        SumOne(n, TotalsOf(rows, Rx));
        SumOne(n, TotalsOf(rows, Tx));
        done := done + {n};
        if n in rows { sum := Plus(sum, rows[n].total); }
      }
    }
  }

  lemma {:induction false} SumOne<K>(k: K, w: map<K, nat>)
    ensures Sum({k}, w) == Weight(w, k)
  {
    SumWithout({k}, k, w);
    assert {k} - {k} == {};
  }

  // ---- many readings ---------------------------------------------------------------------

  /** The table after a history of readings, taken in order. */
  ghost function Totals(samples: seq<Sample>): map<string, Row> {
    if samples == [] then map[]
    else
      var n := |samples| - 1;
      var rows := Totals(samples[..n]);
      rows[samples[n].node := Fold(RowAt(rows, samples[n].node), samples[n].bytes)]
  }

  /** One node's readings. */
  ghost function Project(samples: seq<Sample>, node: string): seq<Sample> {
    if samples == [] then []
    else
      var n := |samples| - 1;
      Project(samples[..n], node) + (if samples[n].node == node then [samples[n]] else [])
  }

  ghost function FoldAll(samples: seq<Sample>): Option<Row> {
    if samples == [] then None
    else var n := |samples| - 1; Some(Fold(FoldAll(samples[..n]), samples[n].bytes))
  }

  /** A node's row depends on that node's readings alone. */
  lemma {:induction false} RowIsOwnReadings(samples: seq<Sample>, node: string)
    ensures RowAt(Totals(samples), node) == FoldAll(Project(samples, node))
  {
    if samples == [] {
    } else {
      var n := |samples| - 1;
      RowIsOwnReadings(samples[..n], node);
      var before := Project(samples[..n], node);
      if samples[n].node == node {
        assert (before + [samples[n]])[..|before|] == before;
      } else {
        assert before + [] == before;
      }
    }
  }

  // ---- the series --------------------------------------------------------------------------

  /** What passed on one node between a reading and the one before it. */
  datatype Delta = Delta(ts: int, bytes: Pair)

  ghost function Deltas(samples: seq<Sample>): seq<Delta> {
    if |samples| <= 1 then []
    else
      var n := |samples| - 1;
      Deltas(samples[..n]) +
        (if samples[n].node != samples[n - 1].node then []
         else [Delta(samples[n].ts, Gain(samples[n - 1].bytes, samples[n].bytes))])
  }

  ghost function DeltaSum(deltas: seq<Delta>, d: Way): nat {
    if deltas == [] then 0
    else DeltaSum(deltas[..|deltas| - 1], d) + Val(deltas[|deltas| - 1].bytes, d)
  }

  /** Go's remainder keeps the sign of the dividend. */
  function Rem(a: int, b: int): int
    requires b > 0
  {
    if a >= 0 then a % b else -((-a) % b)
  }

  function Bucket(ts: int, width: int): int
    requires width > 0
  {
    ts - Rem(ts, width)
  }

  function PairAt(m: map<int, Pair>, k: int): Pair { if k in m then m[k] else Pair(0, 0) }

  /** Where a width puts a moment. */
  function Place(width: int): int -> int
    requires width > 0
  {
    ts => Bucket(ts, width)
  }

  ghost function Buckets(deltas: seq<Delta>, place: int -> int): map<int, Pair> {
    if deltas == [] then map[]
    else
      var n := |deltas| - 1;
      var m := Buckets(deltas[..n], place);
      var b := place(deltas[n].ts);
      m[b := Plus(PairAt(m, b), deltas[n].bytes)]
  }

  ghost function Column(m: map<int, Pair>, d: Way): map<int, nat> {
    map b | b in m :: Val(m[b], d)
  }

  datatype Point = Point(ts: int, bytes: Pair)

  predicate IntLe(a: int, b: int) { a <= b }

  lemma {:induction false} DeltasNext(samples: seq<Sample>, i: nat)
    requires i < |samples|
    ensures Deltas(samples[..i + 1]) ==
      if i > 0 && samples[i].node == samples[i - 1].node
      then Deltas(samples[..i]) + [Delta(samples[i].ts, Gain(samples[i - 1].bytes, samples[i].bytes))]
      else Deltas(samples[..i])
  {
    assert samples[..i + 1][..i] == samples[..i];
    if i > 0 && samples[i].node != samples[i - 1].node {
      assert Deltas(samples[..i]) + [] == Deltas(samples[..i]);
    }
  }

  lemma {:induction false} NextBuckets(deltas: seq<Delta>, x: Delta, place: int -> int)
    ensures var m := Buckets(deltas, place);
      var b := place(x.ts);
      Buckets(deltas + [x], place) == m[b := Plus(PairAt(m, b), x.bytes)]
  {
    assert (deltas + [x])[..|deltas|] == deltas;
  }

  ghost predicate Drawn(deltas: seq<Delta>, place: int -> int, buckets: map<int, Pair>, total: Pair) {
    && buckets == Buckets(deltas, place)
    && total.rx == DeltaSum(deltas, Rx) && total.tx == DeltaSum(deltas, Tx)
  }

  ghost predicate SameNode(samples: seq<Sample>, i: nat) {
    0 < i < |samples| && samples[i].node == samples[i - 1].node
  }

  lemma {:induction false} DrawnGrows(deltas: seq<Delta>, x: Delta, place: int -> int, buckets: map<int, Pair>,
      total: Pair)
    requires Drawn(deltas, place, buckets, total)
    ensures Drawn(deltas + [x], place,
      buckets[place(x.ts) := Plus(PairAt(buckets, place(x.ts)), x.bytes)], Plus(total, x.bytes))
  {
    NextBuckets(deltas, x, place);
    NextDeltaSum(deltas, x, Rx);
    NextDeltaSum(deltas, x, Tx);
  }

  /** The points of the chart and the two totals. */
  method AggregateTrafficSeries(samples: seq<Sample>, width: int) returns (points: seq<Point>, total: Pair)
    requires width > 0
    ensures forall d :: Val(total, d) == DeltaSum(Deltas(samples), d)
    ensures PointsOfMap(points, Buckets(Deltas(samples), Place(width)))
    ensures Charted(points, samples, width)
  {
    var buckets: map<int, Pair> := map[];
    total := Pair(0, 0);
    var prev: Option<Sample> := None;
    for i := 0 to |samples|
      invariant prev == if i == 0 then None else Some(samples[i - 1])
      invariant Drawn(Deltas(samples[..i]), Place(width), buckets, total)
    {
      var s := samples[i];
      DeltasNext(samples, i);
      if prev.None? || s.node != prev.value.node {
        prev := Some(s);
        continue;
      }
      var gain := Gain(prev.value.bytes, s.bytes);
      DrawnGrows(Deltas(samples[..i]), Delta(s.ts, gain), Place(width), buckets, total);
      prev := Some(s);
      var bucket := Bucket(s.ts, width);
      buckets := buckets[bucket := Plus(PairAt(buckets, bucket), gain)];
      total := Plus(total, gain);
    }
    assert samples[..|samples|] == samples;
    points := PointsOf(buckets);
    ChartIsRight(points, samples, width);
  }

  // ---- where the points stand ------------------------------------------------------------------

  ghost predicate Multiple(b: int, width: int) { exists k: int :: b == k * width }

  /** The moments a point at b stands for: those from b on, or up to b before time zero. */
  ghost predicate InInterval(b: int, width: int, ts: int) {
    if b > 0 then b <= ts < b + width else if b < 0 then b - width < ts <= b else -width < ts < width
  }

  /** What passed in one interval: a reading counts, at its own time, what it exceeds the one
      before it on the same node by. */
  ghost function Passed(samples: seq<Sample>, b: int, width: int, d: Way): nat {
    if |samples| <= 1 then 0
    else
      var n := |samples| - 1;
      var now, last := Val(samples[n].bytes, d), Val(samples[n - 1].bytes, d);
      Passed(samples[..n], b, width, d) +
        if samples[n].node == samples[n - 1].node && InInterval(b, width, samples[n].ts) && now > last
        then now - last else 0
  }

  /** Every point stands at a multiple of the width and carries exactly what passed in its
      interval; every reading after another of its node is in the interval of a point, and
      every point has such a reading. */
  ghost predicate Charted(points: seq<Point>, samples: seq<Sample>, width: int) {
    && (forall i, j :: 0 <= i < j < |points| ==> points[i].ts < points[j].ts)
    && (forall j :: 0 <= j < |points| ==> Multiple(points[j].ts, width))
    && (forall j, d :: 0 <= j < |points| ==> Val(points[j].bytes, d) == Passed(samples, points[j].ts, width, d))
    && (forall i: nat :: SameNode(samples, i) ==>
          exists j :: 0 <= j < |points| && InInterval(points[j].ts, width, samples[i].ts))
    && forall j :: 0 <= j < |points| ==> ReadIn(samples, points[j].ts, width)
  }

  lemma {:induction false} BucketBounds(ts: int, width: int)
    requires width > 0
    ensures Multiple(Bucket(ts, width), width) && InInterval(Bucket(ts, width), width, ts)
  {
    if ts >= 0 {
      DivMod(ts, width);
      assert Bucket(ts, width) == (ts / width) * width;
      Positive(ts / width, width);
    } else {
      DivMod(-ts, width);
      Positive((-ts) / width, width);
      assert Bucket(ts, width) == -((-ts) / width * width);
      assert -((-ts) / width * width) == (-((-ts) / width)) * width;
    }
  }

  lemma {:induction false} IntervalsApart(b: int, c: int, width: int, ts: int)
    requires width > 0 && Multiple(b, width) && Multiple(c, width)
    requires InInterval(b, width, ts) && InInterval(c, width, ts)
    ensures b == c
  {
    var k: int :| b == k * width;
    var j: int :| c == j * width;
    Difference(k, j, width);
    Difference(j, k, width);
    if k > j { AtLeastOnce(k - j, width); }
    if j > k { AtLeastOnce(j - k, width); }
  }

  /** A moment is put in a bucket exactly if it lies in the bucket's interval. */
  lemma {:induction false} PlacedInInterval(ts: int, width: int, b: int)
    requires width > 0 && Multiple(b, width)
    ensures Place(width)(ts) == b <==> InInterval(b, width, ts)
  {
    BucketBounds(ts, width);
    if InInterval(b, width, ts) { IntervalsApart(b, Bucket(ts, width), width, ts); }
  }

  lemma {:induction false} NextCarries(deltas: seq<Delta>, x: Delta, width: int, b: int, d: Way)
    requires width > 0 && Multiple(b, width)
    ensures Val(PairAt(Buckets(deltas + [x], Place(width)), b), d) ==
      Val(PairAt(Buckets(deltas, Place(width)), b), d) + if InInterval(b, width, x.ts) then Val(x.bytes, d) else 0
    ensures b in Buckets(deltas + [x], Place(width)) <==>
      b in Buckets(deltas, Place(width)) || InInterval(b, width, x.ts)
  {
    PlacedInInterval(x.ts, width, b);
    NextBuckets(deltas, x, Place(width));
  }

  /** Some reading after another of its node lies in the interval. */
  ghost predicate ReadIn(samples: seq<Sample>, b: int, width: int) {
    exists i: nat :: SameNode(samples, i) && InInterval(b, width, samples[i].ts)
  }

  /** The buckets carry what passed, and there is one where something was read. */
  ghost predicate Carries(deltas: seq<Delta>, samples: seq<Sample>, width: int, b: int, d: Way)
    requires width > 0
  {
    && Val(PairAt(Buckets(deltas, Place(width)), b), d) == Passed(samples, b, width, d)
    && (b in Buckets(deltas, Place(width)) <==> ReadIn(samples, b, width))
  }

  lemma {:induction false} PassedNext(samples: seq<Sample>, width: int, b: int, d: Way)
    requires |samples| > 1
    ensures var n := |samples| - 1;
      Passed(samples, b, width, d) == Passed(samples[..n], b, width, d) +
        if SameNode(samples, n) && InInterval(b, width, samples[n].ts)
        then Val(Gain(samples[n - 1].bytes, samples[n].bytes), d) else 0
  {}

  lemma {:induction false} CarriesNext(deltas: seq<Delta>, samples: seq<Sample>, width: int, b: int, d: Way)
    requires width > 0 && Multiple(b, width) && |samples| > 1
    requires Carries(deltas, samples[..|samples| - 1], width, b, d)
    ensures var n := |samples| - 1;
      var x := Delta(samples[n].ts, Gain(samples[n - 1].bytes, samples[n].bytes));
      if SameNode(samples, n) then Carries(deltas + [x], samples, width, b, d)
        else Carries(deltas, samples, width, b, d)
  {
    var n := |samples| - 1;
    EarlierReadings(samples, width, b);
    PassedNext(samples, width, b, d);
    if SameNode(samples, n) {
      OneMoreCarried(deltas, samples, Delta(samples[n].ts, Gain(samples[n - 1].bytes, samples[n].bytes)), width, b, d);
    }
  }

  lemma {:induction false} OneMoreCarried(deltas: seq<Delta>, samples: seq<Sample>, x: Delta, width: int, b: int,
      d: Way)
    requires width > 0 && Multiple(b, width) && samples != []
    requires var init := samples[..|samples| - 1];
      && Carries(deltas, init, width, b, d)
      && Passed(samples, b, width, d) ==
           Passed(init, b, width, d) + (if InInterval(b, width, x.ts) then Val(x.bytes, d) else 0)
      && (ReadIn(samples, b, width) <==> ReadIn(init, b, width) || InInterval(b, width, x.ts))
    ensures Carries(deltas + [x], samples, width, b, d)
  {
    NextCarries(deltas, x, width, b, d);
  }

  lemma {:induction false} BucketsCarryPassed(samples: seq<Sample>, width: int, b: int, d: Way)
    requires width > 0 && Multiple(b, width)
    ensures Carries(Deltas(samples), samples, width, b, d)
  {
    if |samples| <= 1 {
      assert Deltas(samples) == [];
    } else {
      var n := |samples| - 1;
      BucketsCarryPassed(samples[..n], width, b, d);
      CarriesNext(Deltas(samples[..n]), samples, width, b, d);
      assert samples[..n + 1] == samples;
      DeltasNext(samples, n);
    }
  }

  lemma {:induction false} EarlierReadings(samples: seq<Sample>, width: int, b: int)
    requires samples != []
    ensures var n := |samples| - 1;
      ReadIn(samples, b, width) <==>
        ReadIn(samples[..n], b, width) || (SameNode(samples, n) && InInterval(b, width, samples[n].ts))
  {
    var n := |samples| - 1;
    if i: nat :| SameNode(samples, i) && InInterval(b, width, samples[i].ts) {
      assert i == n || SameNode(samples[..n], i);
    }
    if i: nat :| SameNode(samples[..n], i) && InInterval(b, width, samples[..n][i].ts) {
      assert SameNode(samples, i);
    }
  }

  lemma {:induction false} BucketsAreMultiples(deltas: seq<Delta>, width: int, b: int)
    requires width > 0 && b in Buckets(deltas, Place(width))
    ensures Multiple(b, width)
  {
    var n := |deltas| - 1;
    BucketBounds(deltas[n].ts, width);
    if b != Place(width)(deltas[n].ts) { BucketsAreMultiples(deltas[..n], width, b); }
  }

  lemma {:induction false} ChartIsRight(points: seq<Point>, samples: seq<Sample>, width: int)
    requires width > 0 && PointsOfMap(points, Buckets(Deltas(samples), Place(width)))
    ensures Charted(points, samples, width)
  {
    forall j | 0 <= j < |points|
      ensures Multiple(points[j].ts, width) && ReadIn(samples, points[j].ts, width)
    {
      BucketsAreMultiples(Deltas(samples), width, points[j].ts);
      BucketsCarryPassed(samples, width, points[j].ts, Rx);
    }
    forall j, d | 0 <= j < |points|
      ensures Val(points[j].bytes, d) == Passed(samples, points[j].ts, width, d)
    {
      BucketsCarryPassed(samples, width, points[j].ts, d);
    }
    forall i: nat | SameNode(samples, i)
      ensures exists j :: 0 <= j < |points| && InInterval(points[j].ts, width, samples[i].ts)
    {
      var b := Bucket(samples[i].ts, width);
      BucketBounds(samples[i].ts, width);
      BucketsCarryPassed(samples, width, b, Rx);
      assert ReadIn(samples, b, width);
    }
  }

  /** One point for each bucket, in strictly ascending order of time. */
  ghost predicate PointsOfMap(points: seq<Point>, buckets: map<int, Pair>) {
    && (forall i, j :: 0 <= i < j < |points| ==> points[i].ts < points[j].ts)
    && (forall b :: b in buckets ==> exists i :: 0 <= i < |points| && points[i].ts == b)
    && (forall i :: 0 <= i < |points| ==> points[i].ts in buckets && points[i].bytes == buckets[points[i].ts])
  }

  method PointsOf(buckets: map<int, Pair>) returns (points: seq<Point>)
    ensures PointsOfMap(points, buckets)
  {
    var keys := SortedKeys(buckets.Keys);
    points := [];
    for i := 0 to |keys|
      invariant |points| == i
      invariant forall k :: 0 <= k < i ==> points[k] == Point(keys[k], buckets[keys[k]])
    {
      points := points + [Point(keys[i], buckets[keys[i]])];
    }
    forall b | b in buckets ensures exists i :: 0 <= i < |points| && points[i].ts == b {
      PointFor(keys, buckets, points, b);
    }
  }

  lemma {:induction false} PointFor(keys: seq<int>, buckets: map<int, Pair>, points: seq<Point>, b: int)
    requires b in keys && |points| == |keys|
    requires forall k :: 0 <= k < |keys| ==> keys[k] in buckets && points[k] == Point(keys[k], buckets[keys[k]])
    ensures exists i :: 0 <= i < |points| && points[i].ts == b
  {
    var i :| 0 <= i < |keys| && keys[i] == b;
    assert points[i].ts == b;
  }

  method SortedKeys(s: set<int>) returns (keys: seq<int>)
    ensures forall i :: 0 <= i < |keys| ==> keys[i] in s
    ensures forall k :: k in s ==> k in keys
    ensures forall i, j :: 0 <= i < j < |keys| ==> keys[i] < keys[j]
  {
    var list: seq<int> := [];
    var todo := s;
    while todo != {}
      invariant forall k :: k in s <==> k in list || k in todo
      invariant forall k :: k in list ==> k !in todo
      invariant Distinct(list)
      decreases todo
    {
      var k := AnyOf(todo);
      todo := todo - {k};
      DistinctAppend(list, k);
      list := list + [k];
    }
    DistinctMultiset(list);
    keys := Sort(IntLe, list);
    MultisetDistinct(keys);
    forall k ensures k in keys <==> k in list {
      assert k in multiset(keys) <==> k in multiset(list);
    }
    forall i | 0 <= i < |keys| ensures keys[i] in s {
      assert keys[i] in keys;
    }
    forall i, j | 0 <= i < j < |keys| ensures keys[i] < keys[j] {
      assert IntLe(keys[i], keys[j]) && keys[i] != keys[j];
    }
  }

  // ---- what the series adds up to -----------------------------------------------------------

  /** The buckets carry the whole total, so it does not depend on how they are cut. */
  lemma {:induction false} BucketsCarryTotal(deltas: seq<Delta>, place: int -> int, d: Way)
    ensures Sum(Buckets(deltas, place).Keys, Column(Buckets(deltas, place), d)) == DeltaSum(deltas, d)
  {
    if deltas == [] {
    } else {
      var n := |deltas| - 1;
      BucketsCarryTotal(deltas[..n], place, d);
      ColumnGrows(Buckets(deltas[..n], place), place(deltas[n].ts), deltas[n].bytes, d);
    }
  }

  lemma {:induction false} ColumnGrows(m: map<int, Pair>, b: int, bytes: Pair, d: Way)
    ensures var m' := m[b := Plus(PairAt(m, b), bytes)];
      Sum(m'.Keys, Column(m', d)) == Sum(m.Keys, Column(m, d)) + Val(bytes, d)
  {
    var m' := m[b := Plus(PairAt(m, b), bytes)];
    SumWithout(m'.Keys, b, Column(m', d));
    if b in m {
      SumWithout(m.Keys, b, Column(m, d));
      assert m.Keys - {b} == m'.Keys - {b};
    } else {
      assert m.Keys == m'.Keys - {b};
    }
    SumSame(m'.Keys - {b}, Column(m, d), Column(m', d));
  }

  /** The finer buckets that make up a coarser one. */
  ghost function Group(m: map<int, Pair>, place: int -> int, b: int): set<int> {
    set f | f in m && place(f) == b
  }

  lemma {:induction false} AtLeastOnce(d: int, w: int)
    requires d >= 1 && w > 0
    ensures d * w >= w
  {
    Positive(d - 1, w);
    assert d * w == (d - 1) * w + w;
  }

  lemma {:induction false} Difference(p: int, q: int, w: int)
    ensures p * w - q * w == (p - q) * w
  {}

  /** A multiple of w plus a remainder has that remainder. */
  lemma {:induction false} MulMod(q: nat, w: int, r: int)
    requires w > 0 && 0 <= r < w
    ensures q * w >= 0 && (q * w + r) % w == r
  {
    Positive(q, w);
    var x := q * w + r;
    DivMod(x, w);
    var p := x / w;
    Difference(p, q, w);
    Difference(q, p, w);
    if p > q { AtLeastOnce(p - q, w); }
    if q > p { AtLeastOnce(q - p, w); }
  }

  lemma {:induction false} DivMod(x: nat, w: int)
    requires w > 0
    ensures x / w >= 0 && 0 <= x % w < w && x == (x / w) * w + x % w
  {}

  lemma {:induction false} Distribute(q: int, k: int, u: int, w: int, v: int)
    ensures q * (k * w) + (u * w + v) == (q * k + u) * w + v
  {}

  lemma {:induction false} BucketOfBucket(ts: nat, w: int, k: int)
    requires w > 0 && k > 0
    ensures k * w > 0 && Bucket(ts, w) >= 0
    ensures Bucket(Bucket(ts, w), k * w) == Bucket(ts, k * w)
  {
    var m := k * w;
    Positive(k, w);
    DivMod(ts, m);
    var q, r := ts / m, ts % m;
    DivMod(r, w);
    var u, v := r / w, r % w;
    Distribute(q, k, u, w, v);
    Positive(q, k);
    MulMod(q * k + u, w, v);
    MulMod(u, w, 0);
    MulMod(q, m, u * w);
    MulMod(q, m, r);
  }

  lemma {:induction false} Positive(a: int, b: int)
    requires a >= 0 && b > 0
    ensures a * b >= 0 && (a > 0 ==> a * b > 0)
  {}

  /** Truncation nests, on either side of zero. */
  lemma {:induction false} BucketsNest(ts: int, w: int, k: int)
    requires w > 0 && k > 0
    ensures k * w > 0
    ensures Bucket(Bucket(ts, w), k * w) == Bucket(ts, k * w)
  {
    if ts >= 0 {
      BucketOfBucket(ts, w, k);
    } else {
      BucketOfBucket(-ts, w, k);
      assert Bucket(ts, w) == -Bucket(-ts, w);
      assert Bucket(ts, k * w) == -Bucket(-ts, k * w);
    }
  }

  /** Drawing with a width k times as wide is regrouping the finer series. */
  lemma {:induction false} CoarserIsRegrouped(deltas: seq<Delta>, w: int, k: int, b: int, d: Way)
    requires w > 0 && k > 0
    ensures k * w > 0
    ensures var fine, coarse := Buckets(deltas, Place(w)), Buckets(deltas, Place(k * w));
      && (b in coarse <==> Group(fine, Place(k * w), b) != {})
      && Val(PairAt(coarse, b), d) == Sum(Group(fine, Place(k * w), b), Column(fine, d))
  {
    BucketsNest(0, w, k);
    forall ts ensures Place(k * w)(Place(w)(ts)) == Place(k * w)(ts) { BucketsNest(ts, w, k); }
    Regrouped(deltas, Place(w), Place(k * w), b, d);
  }

  lemma {:induction false} Regrouped(deltas: seq<Delta>, near: int -> int, far: int -> int, b: int, d: Way)
    requires forall ts :: far(near(ts)) == far(ts)
    ensures var fine, coarse := Buckets(deltas, near), Buckets(deltas, far);
      && (b in coarse <==> Group(fine, far, b) != {})
      && Val(PairAt(coarse, b), d) == Sum(Group(fine, far, b), Column(fine, d))
  {
    if deltas != [] {
      var n := |deltas| - 1;
      var x := deltas[n];
      Regrouped(deltas[..n], near, far, b, d);
      assert far(near(x.ts)) == far(x.ts);
      RegroupStep(Buckets(deltas[..n], near), near(x.ts), x.bytes, far, b, d);
    } else {
      assert Group(map[], far, b) == {};
    }
  }

  /** Adding to one fine bucket adds to the coarse bucket it lies in and to no other. */
  lemma {:induction false} RegroupStep(fine: map<int, Pair>, f: int, bytes: Pair, far: int -> int, b: int, d: Way)
    ensures var fine' := fine[f := Plus(PairAt(fine, f), bytes)];
      var before, after := Sum(Group(fine, far, b), Column(fine, d)), Sum(Group(fine', far, b), Column(fine', d));
      if far(f) == b then Group(fine', far, b) != {} && after == before + Val(bytes, d)
      else Group(fine', far, b) == Group(fine, far, b) && after == before
  {
    var fine' := fine[f := Plus(PairAt(fine, f), bytes)];
    var g, g' := Group(fine, far, b), Group(fine', far, b);
    if far(f) == b {
      assert f in g';
      SumWithout(g', f, Column(fine', d));
      if f in fine {
        assert g == g';
        SumWithout(g, f, Column(fine, d));
      } else {
        assert g == g' - {f};
      }
      SumSame(g' - {f}, Column(fine, d), Column(fine', d));
    } else {
      assert g == g';
      SumSame(g, Column(fine, d), Column(fine', d));
    }
  }

  /** Samples come node by node: one that changes the node starts a new one. */
  ghost predicate Grouped(samples: seq<Sample>) {
    |samples| <= 1 ||
    var n := |samples| - 1;
    && Grouped(samples[..n])
    && (samples[n].node == samples[n - 1].node || forall i :: 0 <= i < n ==> samples[i].node != samples[n].node)
  }

  lemma {:induction false} TotalsKeys(samples: seq<Sample>, node: string)
    ensures node in Totals(samples) <==> exists i :: 0 <= i < |samples| && samples[i].node == node
  {
    if samples == [] {
    } else {
      TotalsKeys(samples[..|samples| - 1], node);
    }
  }

  lemma {:induction false} LastReading(samples: seq<Sample>)
    requires samples != []
    ensures var x := samples[|samples| - 1];
      x.node in Totals(samples) && Totals(samples)[x.node].last == x.bytes
  {
  }

  /** The fast series refines the simple accumulator: on samples grouped by node its total
      is the sum of what accumulating every node's own readings gives. */
  lemma {:induction false} SeriesIsAccumulated(samples: seq<Sample>, d: Way)
    requires Grouped(samples)
    ensures DeltaSum(Deltas(samples), d) == Sum(Totals(samples).Keys, TotalsOf(Totals(samples), d))
  {
    if samples == [] {
    } else {
      var n := |samples| - 1;
      LastNodeKnown(samples);
      SeriesIsAccumulated(samples[..n], d);
      AccumulateOne(Totals(samples[..n]), samples[n], d);
      if SameNode(samples, n) { DeltaOfLast(samples, d); } else { NoDeltaOfLast(samples, d); }
    }
  }

  lemma {:induction false} NoDeltaOfLast(samples: seq<Sample>, d: Way)
    requires samples != [] && !SameNode(samples, |samples| - 1)
    ensures DeltaSum(Deltas(samples), d) == DeltaSum(Deltas(samples[..|samples| - 1]), d)
  {
    assert samples[..|samples| - 1 + 1] == samples;
    DeltasNext(samples, |samples| - 1);
  }

  lemma {:induction false} DeltaOfLast(samples: seq<Sample>, d: Way)
    requires var n := |samples| - 1; n > 0 && SameNode(samples, n)
    ensures var n := |samples| - 1;
      var x := samples[n];
      && x.node in Totals(samples[..n])
      && DeltaSum(Deltas(samples), d) == DeltaSum(Deltas(samples[..n]), d)
        + Growth(Val(Totals(samples[..n])[x.node].last, d), Val(x.bytes, d))
  {
    var n := |samples| - 1;
    assert samples[..n + 1] == samples;
    DeltasNext(samples, n);
    LastReading(samples[..n]);
    assert samples[..n][n - 1] == samples[n - 1];
    NextDeltaSum(Deltas(samples[..n]), Delta(samples[n].ts, Gain(samples[n - 1].bytes, samples[n].bytes)), d);
  }

  lemma {:induction false} NextDeltaSum(deltas: seq<Delta>, x: Delta, d: Way)
    ensures DeltaSum(deltas + [x], d) == DeltaSum(deltas, d) + Val(x.bytes, d)
  {
    assert (deltas + [x])[..|deltas|] == deltas;
  }

  /** In grouped samples the last node has been seen exactly when the one before is the same. */
  lemma {:induction false} LastNodeKnown(samples: seq<Sample>)
    requires Grouped(samples) && samples != []
    ensures var n := |samples| - 1;
      samples[n].node in Totals(samples[..n]) <==> n > 0 && samples[n - 1].node == samples[n].node
    ensures Grouped(samples[..|samples| - 1])
  {
    var n := |samples| - 1;
    TotalsKeys(samples[..n], samples[n].node);
    if n > 0 { assert samples[..n][n - 1] == samples[n - 1]; }
  }

  lemma {:induction false} AccumulateOne(rows: map<string, Row>, x: Sample, d: Way)
    ensures var rows' := rows[x.node := Fold(RowAt(rows, x.node), x.bytes)];
      Sum(rows'.Keys, TotalsOf(rows', d)) == Sum(rows.Keys, TotalsOf(rows, d))
        + (if x.node in rows then Growth(Val(rows[x.node].last, d), Val(x.bytes, d)) else 0)
  {
    var rows' := rows[x.node := Fold(RowAt(rows, x.node), x.bytes)];
    SumWithout(rows'.Keys, x.node, TotalsOf(rows', d));
    if x.node in rows {
      SumWithout(rows.Keys, x.node, TotalsOf(rows, d));
      assert rows.Keys - {x.node} == rows'.Keys - {x.node};
    } else {
      assert rows.Keys == rows'.Keys - {x.node};
    }
    SumSame(rows'.Keys - {x.node}, TotalsOf(rows, d), TotalsOf(rows', d));
  }
}
