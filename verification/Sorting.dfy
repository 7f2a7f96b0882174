/** Sorting by a total order, and the order sort.Strings uses. */
module Sorting {
  ghost predicate TotalOrder<T(!new)>(le: (T, T) -> bool) {
    && (forall x, y :: le(x, y) || le(y, x))
    && (forall x, y :: le(x, y) && le(y, x) ==> x == y)
    && (forall x, y, z :: le(x, y) && le(y, z) ==> le(x, z))
  }

  ghost predicate Sorted<T>(le: (T, T) -> bool, s: seq<T>) {
    forall i, j :: 0 <= i < j < |s| ==> le(s[i], s[j])
  }

  ghost predicate Distinct<T>(s: seq<T>) {
    forall i, j :: 0 <= i < j < |s| ==> s[i] != s[j]
  }

  lemma {:induction false} DistinctAppend<T>(s: seq<T>, x: T)
    requires Distinct(s) && x !in s
    ensures Distinct(s + [x])
  {}

  /** The same elements in ascending order. */
  method Sort<T(==,!new)>(le: (T, T) -> bool, xs: seq<T>) returns (s: seq<T>)
    requires TotalOrder(le)
    ensures Sorted(le, s)
    ensures multiset(s) == multiset(xs)
  {
    s := [];
    for n := 0 to |xs|
      invariant Sorted(le, s)
      invariant multiset(s) == multiset(xs[..n])
    {
      assert xs[..n + 1] == xs[..n] + [xs[n]];
      s := Insert(le, s, xs[n]);
    }
    assert xs[..|xs|] == xs;
  }

  method Insert<T(==,!new)>(le: (T, T) -> bool, s: seq<T>, x: T) returns (r: seq<T>)
    requires TotalOrder(le) && Sorted(le, s)
    ensures Sorted(le, r)
    ensures multiset(r) == multiset(s) + multiset{x}
  {
    var i := 0;
    while i < |s| && le(s[i], x)
      invariant i <= |s|
      invariant forall k :: 0 <= k < i ==> le(s[k], x)
    {
      i := i + 1;
    }
    InsertSorted(le, s, x, i);
    assert s == s[..i] + s[i..];
    r := s[..i] + [x] + s[i..];
  }

  lemma {:induction false} InsertSorted<T(!new)>(le: (T, T) -> bool, s: seq<T>, x: T, i: nat)
    requires TotalOrder(le) && Sorted(le, s) && i <= |s|
    requires forall k :: 0 <= k < i ==> le(s[k], x)
    requires i < |s| ==> !le(s[i], x)
    ensures Sorted(le, s[..i] + [x] + s[i..])
  {
    if i < |s| {
      assert le(x, s[i]);
      forall k | i < k < |s| ensures le(x, s[k]) { assert le(s[i], s[k]); }
    }
  }

  /** The multiset of distinct elements is a set, so sorting keeps them distinct. */
  lemma {:induction false} DistinctMultiset<T>(s: seq<T>)
    requires Distinct(s)
    ensures forall x :: multiset(s)[x] <= 1
  {
    if s == [] {
    } else {
      var n := |s| - 1;
      DistinctMultiset(s[..n]);
      assert s == s[..n] + [s[n]];
      assert s[n] !in s[..n];
      assert s[n] !in multiset(s[..n]);
    }
  }

  lemma {:induction false} MultisetDistinct<T>(s: seq<T>)
    requires forall x :: multiset(s)[x] <= 1
    ensures Distinct(s)
  {
    forall i, j | 0 <= i < j < |s|
      ensures s[i] != s[j]
    {
      assert s == s[..j] + [s[j]] + s[j + 1..];
      assert s[i] in s[..j];
      assert s[i] in multiset(s[..j]);
      assert multiset(s) == multiset(s[..j]) + multiset{s[j]} + multiset(s[j + 1..]);
      assert multiset(s)[s[j]] <= 1;
    }
  }

  /** Byte-wise lexicographic order on strings. */
  predicate StringLe(a: string, b: string) {
    a == "" || (b != "" && (a[0] < b[0] || (a[0] == b[0] && StringLe(a[1..], b[1..]))))
  }

  lemma {:induction false} StringLeTotal(a: string, b: string)
    ensures StringLe(a, b) || StringLe(b, a)
    ensures StringLe(a, b) && StringLe(b, a) ==> a == b
  {
    if a != "" && b != "" {
      StringLeTotal(a[1..], b[1..]);
      assert a == [a[0]] + a[1..] && b == [b[0]] + b[1..];
    }
  }

  lemma {:induction false} StringLeTransitive(a: string, b: string, c: string)
    requires StringLe(a, b) && StringLe(b, c)
    ensures StringLe(a, c)
  {
    if a != "" && a[0] == b[0] == c[0] {
      StringLeTransitive(a[1..], b[1..], c[1..]);
    }
  }

  lemma {:induction false} StringOrder()
    ensures TotalOrder(StringLe)
  {
    forall a, b ensures StringLe(a, b) || StringLe(b, a) { StringLeTotal(a, b); }
    forall a, b ensures StringLe(a, b) && StringLe(b, a) ==> a == b { StringLeTotal(a, b); }
    forall a, b, c | StringLe(a, b) && StringLe(b, c) ensures StringLe(a, c) { StringLeTransitive(a, b, c); }
  }

  /** One string comes before another if it is a beginning of it or has the smaller character
      where they first differ. */
  lemma {:induction false} StringLeMeans(a: string, b: string)
    ensures StringLe(a, b) <==>
      a <= b || exists i :: 0 <= i < |a| && i < |b| && a[..i] == b[..i] && a[i] < b[i]
  {
    if a == "" || b == "" {
    } else if a[0] == b[0] {
      StringLeMeans(a[1..], b[1..]);
      assert a == [a[0]] + a[1..] && b == [b[0]] + b[1..];
      if i :| 0 <= i < |a| && i < |b| && a[..i] == b[..i] && a[i] < b[i] {
        assert i > 0 && a[1..][..i - 1] == a[..i][1..] && b[1..][..i - 1] == b[..i][1..];
      }
      if i :| 0 <= i < |a[1..]| && i < |b[1..]| && a[1..][..i] == b[1..][..i] && a[1..][i] < b[1..][i] {
        assert a[..i + 1] == [a[0]] + a[1..][..i] && b[..i + 1] == [b[0]] + b[1..][..i];
      }
    } else {
      assert a[..0] == b[..0];
      assert forall i :: 0 < i < |a| && i < |b| ==> a[..i][0] != b[..i][0];
    }
  }
}
