/** Sums of weights over finite sets, and small counting facts. */
module Sums {
  import opened Sorting

  ghost function Weight<K>(w: map<K, nat>, k: K): nat {
    if k in w then w[k] else 0
  }

  /** The weights of a set added up; keys without a weight count as zero. */
  ghost function Sum<K>(s: set<K>, w: map<K, nat>): nat {
    if s == {} then 0 else var k :| k in s; Weight(w, k) + Sum(s - {k}, w)
  }

  lemma {:induction false} SumWithout<K>(s: set<K>, k: K, w: map<K, nat>)
    requires k in s
    ensures Sum(s, w) == Weight(w, k) + Sum(s - {k}, w)
  {
    var j :| j in s && Sum(s, w) == Weight(w, j) + Sum(s - {j}, w);
    if j != k {
      SumWithout(s - {j}, k, w);
      SumWithout(s - {k}, j, w);
      assert s - {j} - {k} == s - {k} - {j};
    }
  }

  lemma {:induction false} SumUnion<K>(a: set<K>, b: set<K>, w: map<K, nat>)
    requires a !! b
    ensures Sum(a + b, w) == Sum(a, w) + Sum(b, w)
  {
    if a == {} {
      assert a + b == b;
    } else {
      var k :| k in a;
      SumWithout(a, k, w);
      SumWithout(a + b, k, w);
      assert a + b - {k} == (a - {k}) + b;
      SumUnion(a - {k}, b, w);
    }
  }

  lemma {:induction false} SumSame<K>(s: set<K>, v: map<K, nat>, w: map<K, nat>)
    requires forall k :: k in s ==> Weight(v, k) == Weight(w, k)
    ensures Sum(s, v) == Sum(s, w)
  {
    if s != {} {
      var k :| k in s;
      SumWithout(s, k, v);
      SumWithout(s, k, w);
      SumSame(s - {k}, v, w);
    }
  }

  lemma {:induction false} SumAtMost<K>(s: set<K>, v: map<K, nat>, w: map<K, nat>)
    requires forall k :: k in s ==> Weight(v, k) <= Weight(w, k)
    ensures Sum(s, v) <= Sum(s, w)
  {
    if s != {} {
      var k :| k in s;
      SumWithout(s, k, v);
      SumWithout(s, k, w);
      SumAtMost(s - {k}, v, w);
    }
  }

  /** Some element: ranging over a map visits its keys in no fixed order. */
  method AnyOf<K(==)>(s: set<K>) returns (k: K)
    requires s != {}
    ensures k in s
  {
    k :| k in s;
  }

  /** The same choice, for proofs. */
  ghost function Pick<K>(s: set<K>): (k: K)
    requires s != {}
    ensures k in s
  {
    var k :| k in s; k
  }

  ghost function Elements<K>(s: seq<K>): set<K> { set k | k in s }

  lemma {:induction false} DistinctSize<K>(s: seq<K>, bound: set<K>)
    requires Distinct(s) && Elements(s) <= bound
    ensures |s| <= |bound| && |Elements(s)| == |s|
  {
    if s == [] {
    } else {
      var n := |s| - 1;
      assert s[n] in Elements(s);
      assert Elements(s[..n]) == Elements(s) - {s[n]};
      DistinctSize(s[..n], bound - {s[n]});
    }
  }

  /** A map has at most as many values as keys. */
  lemma {:induction false} FewerValues<K, V>(m: map<K, V>)
    ensures |m.Values| <= |m|
  {
    if m != map[] {
      var k :| k in m;
      var rest := m - {k};
      FewerValues(rest);
      assert m.Values <= rest.Values + {m[k]} by {
        forall v | v in m.Values ensures v in rest.Values + {m[k]} {
          var j :| j in m && m[j] == v;
          if j != k { assert j in rest && rest[j] == v; }
        }
      }
      SubsetSize(m.Values, rest.Values + {m[k]});
      assert |rest.Keys| == |m.Keys - {k}|;
    }
  }

  lemma {:induction false} SubsetSize<K>(a: set<K>, b: set<K>)
    requires a <= b
    ensures |a| <= |b|
  {
    if a != {} {
      var k :| k in a;
      SubsetSize(a - {k}, b - {k});
    }
  }
}
