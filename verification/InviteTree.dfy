/** The invite tree, read upward and downward (internal/storage/invites_tree.go). */
module InviteTree {
  import opened Wrappers
  import opened Sorting
  import opened Sums

  const MAX_INVITE_DEPTH := 64

  /** Who invited whom: a functional graph, possibly with cycles in malformed data. */
  type Parents = map<int, int>

  datatype Edge = Edge(createdBy: Option<int>, usedBy: Option<int>)

  function Deref(id: Option<int>): int { if id.None? then 0 else id.value }

  predicate Usable(e: Edge) {
    Deref(e.usedBy) != 0 && Deref(e.createdBy) != 0 && Deref(e.usedBy) != Deref(e.createdBy)
  }

  ghost predicate FirstInvite(rows: seq<Edge>, i: nat, child: int) {
    && i < |rows| && Usable(rows[i]) && Deref(rows[i].usedBy) == child
    && forall j :: 0 <= j < i ==> !(Usable(rows[j]) && Deref(rows[j].usedBy) == child)
  }

  /** The edge set: the first usable row of a child decides its inviter. */
  method InviteEdges(redeemed: seq<Edge>, legacy: seq<Edge>) returns (parent: Parents)
    ensures forall c :: c in parent <==> exists i: nat :: FirstInvite(redeemed + legacy, i, c)
    ensures forall c, i: nat :: FirstInvite(redeemed + legacy, i, c) ==>
      c in parent && parent[c] == Deref((redeemed + legacy)[i].createdBy)
    ensures forall c :: c in parent ==> c != 0 && parent[c] != 0 && parent[c] != c
  {
    var rows := redeemed + legacy;
    parent := map[];
    for n := 0 to |rows|
      invariant forall c :: c in parent ==> exists i: nat :: i < n && FirstInvite(rows, i, c)
      invariant forall c, i: nat :: i < n && FirstInvite(rows, i, c) ==>
        c in parent && parent[c] == Deref(rows[i].createdBy)
      invariant forall i :: 0 <= i < n && Usable(rows[i]) ==> Deref(rows[i].usedBy) in parent
      invariant forall c :: c in parent ==> c != 0 && parent[c] != 0 && parent[c] != c
    {
      var child, inviter := Deref(rows[n].usedBy), Deref(rows[n].createdBy);
      if child == 0 || inviter == 0 || child == inviter {
        continue;
      }
      if child !in parent {
        assert FirstInvite(rows, n, child);
        parent := parent[child := inviter];
      }
    }
  }

  // ---- reachability -----------------------------------------------------------------

  /** The inviter n steps above x, if there is one. */
  ghost function Up(parent: Parents, x: int, n: nat): Option<int>
    decreases n
  {
    if n == 0 then Some(x) else if x in parent then Up(parent, parent[x], n - 1) else None
  }

  /** r is x itself or one of its inviters at any distance. */
  ghost predicate Below(parent: Parents, x: int, r: int) {
    exists n: nat :: Up(parent, x, n) == Some(r)
  }

  lemma {:induction false} UpUp(parent: Parents, x: int, n: nat, m: nat)
    requires Up(parent, x, n).Some?
    ensures Up(parent, x, n + m) == Up(parent, Up(parent, x, n).value, m)
    decreases n
  {
    if n == 0 {
    } else {
      UpUp(parent, parent[x], n - 1, m);
    }
  }

  lemma {:induction false} BelowTransitive(parent: Parents, x: int, y: int, z: int)
    requires Below(parent, x, y) && Below(parent, y, z)
    ensures Below(parent, x, z)
  {
    var n: nat :| Up(parent, x, n) == Some(y);
    var m: nat :| Up(parent, y, m) == Some(z);
    UpUp(parent, x, n, m);
  }

  /** Two inviters of one node are themselves above one another. */
  lemma {:induction false} AboveIsLinear(parent: Parents, x: int, a: int, b: int)
    requires Below(parent, x, a) && Below(parent, x, b)
    ensures Below(parent, a, b) || Below(parent, b, a)
  {
    var n: nat :| Up(parent, x, n) == Some(a);
    var m: nat :| Up(parent, x, m) == Some(b);
    if n <= m { UpUp(parent, x, n, m - n); } else { UpUp(parent, x, m, n - m); }
  }

  /** A node and everyone below it. */
  ghost function Subtree(parent: Parents, r: int): set<int> {
    set x | x in parent.Keys + {r} && Below(parent, x, r)
  }

  lemma {:induction false} InSubtree(parent: Parents, x: int, r: int)
    ensures x in Subtree(parent, r) <==> Below(parent, x, r)
  {
    if Below(parent, x, r) {
      var n: nat :| Up(parent, x, n) == Some(r);
    }
  }

  /** Any two branches are nested or disjoint, on cyclic data too. */
  lemma {:induction false} BranchesNestOrAvoid(parent: Parents, a: int, b: int)
    ensures Subtree(parent, a) !! Subtree(parent, b)
      || Subtree(parent, a) <= Subtree(parent, b) || Subtree(parent, b) <= Subtree(parent, a)
  {
    if x :| x in Subtree(parent, a) && x in Subtree(parent, b) {
      AboveIsLinear(parent, x, a, b);
      if Below(parent, a, b) { SubtreeInside(parent, a, b); } else { SubtreeInside(parent, b, a); }
    }
  }

  lemma {:induction false} SubtreeInside(parent: Parents, a: int, b: int)
    requires Below(parent, a, b)
    ensures Subtree(parent, a) <= Subtree(parent, b)
  {
    forall x | x in Subtree(parent, a) ensures x in Subtree(parent, b) {
      BelowTransitive(parent, x, a, b);
      InSubtree(parent, x, b);
    }
  }

  // ---- upward: the chain of inviters ---------------------------------------------------

  /** Inviters above `at`, stopping at a root or at the first one already seen. */
  ghost function Chain(parent: Parents, at: int, seen: set<int>): seq<int>
    decreases parent.Values - seen
  {
    if at in parent && parent[at] !in seen then
      assert parent[at] in parent.Values - seen;
      [parent[at]] + Chain(parent, parent[at], seen + {parent[at]})
    else []
  }

  ghost function Ancestry(parent: Parents, x: int): seq<int> { Chain(parent, x, {x}) }

  ghost predicate Closed(parent: Parents, s: set<int>) {
    forall x :: x in s && x in parent ==> parent[x] in s
  }

  lemma {:induction false} ClosedKeepsUp(parent: Parents, s: set<int>, x: int, n: nat)
    requires Closed(parent, s) && x in s && Up(parent, x, n).Some?
    ensures Up(parent, x, n).value in s
    decreases n
  {
    if n == 0 {
    } else {
      ClosedKeepsUp(parent, s, parent[x], n - 1);
    }
  }

  lemma {:induction false} ChainShape(parent: Parents, at: int, seen: set<int>)
    requires at in seen
    requires forall x :: x in seen && x != at && x in parent ==> parent[x] in seen
    ensures Closed(parent, seen + Elements(Chain(parent, at, seen)))
    ensures forall i :: 0 <= i < |Chain(parent, at, seen)| ==>
      Up(parent, at, i + 1) == Some(Chain(parent, at, seen)[i])
    ensures Distinct(Chain(parent, at, seen)) && Elements(Chain(parent, at, seen)) !! seen
    ensures Elements(Chain(parent, at, seen)) <= parent.Values
    decreases parent.Values - seen
  {
    if at in parent && parent[at] !in seen {
      var up := parent[at];
      assert up in parent.Values - seen;
      var rest := Chain(parent, up, seen + {up});
      ChainShape(parent, up, seen + {up});
      var all := Chain(parent, at, seen);
      assert all == [up] + rest;
      assert Elements(all) == {up} + Elements(rest);
      assert seen + Elements(all) == seen + {up} + Elements(rest);
      forall i | 0 <= i < |all| ensures Up(parent, at, i + 1) == Some(all[i]) {
        if i > 0 { assert Up(parent, up, i) == Some(rest[i - 1]); }
      }
      forall i, j | 0 <= i < j < |all| ensures all[i] != all[j] {
        assert all[j] == rest[j - 1] && rest[j - 1] in Elements(rest);
      }
    }
  }

  /** The chain above x holds exactly the others that can be reached from x, each once,
      and is never longer than the edge set. */
  lemma {:induction false} AncestryIsReachable(parent: Parents, x: int)
    ensures forall y :: y in Ancestry(parent, x) <==> y != x && Below(parent, x, y)
    ensures Distinct(Ancestry(parent, x)) && |Ancestry(parent, x)| <= |parent|
  {
    ChainShape(parent, x, {x});
    var chain := Ancestry(parent, x);
    forall y
      ensures y in chain <==> y != x && Below(parent, x, y)
    {
      if y in chain {
        assert y in Elements(chain);
        var i :| 0 <= i < |chain| && chain[i] == y;
        assert Up(parent, x, i + 1) == Some(y);
      }
      if Below(parent, x, y) {
        var n: nat :| Up(parent, x, n) == Some(y);
        ClosedKeepsUp(parent, {x} + Elements(chain), x, n);
      }
    }
    DistinctSize(chain, parent.Values);
    FewerValues(parent);
  }

  /** Being below somebody and having them in one's ancestry are the same thing. */
  lemma {:induction false} UpwardAndDownwardAgree(parent: Parents, x: int, r: int)
    requires x != r
    ensures x in Subtree(parent, r) <==> r in Ancestry(parent, x)
  {
    InSubtree(parent, x, r);
    AncestryIsReachable(parent, x);
  }

  /** The whole chain above one member; the step cap is never what ends the walk. */
  method AncestryOf(edges: Parents, child: int) returns (chain: seq<int>)
    ensures chain == Ancestry(edges, child)
  {
    chain := [];
    var seen := {child};
    var at, steps := child, 0;
    AncestryIsReachable(edges, child);
    while steps < |edges| + 1
      invariant chain + Chain(edges, at, seen) == Ancestry(edges, child)
      invariant steps == |chain| <= |edges|
      decreases |edges| + 1 - steps
    {
      if at !in edges || edges[at] in seen { break; }
      var up := edges[at];
      assert Chain(edges, at, seen) == [up] + Chain(edges, up, seen + {up});
      chain := chain + [up];
      seen := seen + {up};
      at, steps := up, steps + 1;
    }
  }

  /** The chain of every member that has one. */
  method InviteAncestry(edges: Parents) returns (out: map<int, seq<int>>)
    ensures forall c :: c in out <==> Ancestry(edges, c) != []
    ensures forall c :: c in out ==> out[c] == Ancestry(edges, c)
  {
    out := map[];
    var keys: set<int> := edges.Keys;
    while keys != {}
      invariant keys <= edges.Keys
      invariant forall c :: c in out <==> c in edges.Keys - keys && Ancestry(edges, c) != []
      invariant forall c :: c in out ==> out[c] == Ancestry(edges, c)
      decreases keys
    {
      var child := AnyOf(keys);
      keys := keys - {child};
      var chain := AncestryOf(edges, child);
      if |chain| > 0 { out := out[child := chain]; }
    }
  }

  ghost function Min(a: int, b: int): int { if a <= b then a else b }

  /** The first inviter not yet seen comes next in the chain. */
  lemma {:induction false} ChainNext(parent: Parents, at: int, seen: set<int>, chain: seq<int>, n: nat)
    requires n <= |chain| && chain == chain[..n] + Chain(parent, at, seen)
    requires at in parent && parent[at] !in seen
    ensures n < |chain| && chain[n] == parent[at]
    ensures chain == chain[..n + 1] + Chain(parent, parent[at], seen + {parent[at]})
  {
    ChainStep(parent, at, seen);
    NextInSeq(chain, n, parent[at], Chain(parent, parent[at], seen + {parent[at]}));
  }

  lemma {:induction false} ChainStep(parent: Parents, at: int, seen: set<int>)
    requires at in parent && parent[at] !in seen
    ensures Chain(parent, at, seen) == [parent[at]] + Chain(parent, parent[at], seen + {parent[at]})
  {}

  lemma {:induction false} NextInSeq(s: seq<int>, n: nat, x: int, rest: seq<int>)
    requires n <= |s| && s == s[..n] + ([x] + rest)
    ensures n < |s| && s[n] == x && s == s[..n + 1] + rest
  {
    assert s[n..] == [x] + rest;
    assert s[..n + 1] == s[..n] + [x];
  }

  /** Depth and cut as the tree view shows them: both see at most 64 inviters. */
  method WalkUp(id: int, parent: Parents, suspended: set<int>) returns (depth: nat, cut: bool)
    ensures depth == Min(MAX_INVITE_DEPTH, |Ancestry(parent, id)|)
    ensures cut <==> id in suspended || exists i :: 0 <= i < depth && Ancestry(parent, id)[i] in suspended
  {
    depth, cut := 0, id in suspended;
    var seen := {id};
    var at := id;
    ghost var chain := Ancestry(parent, id);
    while depth < MAX_INVITE_DEPTH
      invariant depth <= MAX_INVITE_DEPTH && depth <= |chain|
      invariant chain == chain[..depth] + Chain(parent, at, seen)
      invariant cut <==> id in suspended || exists i :: 0 <= i < depth && chain[i] in suspended
      decreases MAX_INVITE_DEPTH - depth
    {
      if at !in parent || parent[at] in seen { break; }
      var up := parent[at];
      ChainNext(parent, at, seen, chain, depth);
      if up in suspended { cut := true; }
      seen := seen + {up};
      at := up;
      depth := depth + 1;
    }
  }

  // ---- downward: breadth first ---------------------------------------------------------

  ghost predicate ChildLists(parent: Parents, children: map<int, seq<int>>) {
    && (forall inviter :: inviter in children ==> Distinct(children[inviter]))
    && (forall inviter, c :: inviter in children && c in children[inviter] ==> c in parent && parent[c] == inviter)
    && (forall c :: c in parent ==> parent[c] in children && c in children[parent[c]])
  }

  /** The edge set turned round; each child list is in no particular order. */
  method Children(parent: Parents) returns (children: map<int, seq<int>>)
    ensures ChildLists(parent, children)
  {
    children := map[];
    var keys: set<int> := parent.Keys;
    while keys != {}
      invariant forall c :: c in keys ==> c in parent
      invariant forall inviter :: inviter in children ==> Distinct(children[inviter])
      invariant forall inviter, c :: inviter in children && c in children[inviter] ==>
        c in parent && c !in keys && parent[c] == inviter
      invariant forall c :: c in parent && c !in keys ==>
        parent[c] in children && c in children[parent[c]]
      decreases keys
    {
      var child := AnyOf(keys);
      keys := keys - {child};
      var inviter := parent[child];
      var siblings := if inviter in children then children[inviter] else [];
      DistinctAppend(siblings, child);
      children := children[inviter := siblings + [child]];
    }
  }

  function ChildrenAt(children: map<int, seq<int>>, at: int): seq<int> {
    if at in children then children[at] else []
  }

  /** A list that starts with the root, has no repeats, and stays inside the branch. */
  ghost predicate PartOfBranch(parent: Parents, root: int, out: seq<int>) {
    && Distinct(out) && out != [] && out[0] == root
    && forall x :: x in out ==> Below(parent, x, root)
  }

  lemma {:induction false} PartIsSmall(parent: Parents, root: int, out: seq<int>)
    requires PartOfBranch(parent, root, out)
    ensures |out| <= |parent| + 1
  {
    forall x | x in out ensures x in parent.Keys + {root} {
      InSubtree(parent, x, root);
    }
    DistinctSize(out, parent.Keys + {root});
  }

  /** Appends the children of one member that are not on the list yet. */
  method Enqueue(ghost parent: Parents, ghost root: int, ghost at: int, kids: seq<int>, out: seq<int>)
      returns (r: seq<int>)
    requires PartOfBranch(parent, root, out) && at in out
    requires forall c :: c in kids ==> c in parent && parent[c] == at
    ensures PartOfBranch(parent, root, r) && out <= r
    ensures forall c :: c in kids ==> c in r
  {
    r := out;
    for n := 0 to |kids|
      invariant PartOfBranch(parent, root, r) && out <= r
      invariant forall k :: 0 <= k < n ==> kids[k] in r
    {
      var child := kids[n];
      if child in r { continue; }
      assert Up(parent, child, 1) == Some(at);
      BelowTransitive(parent, child, at, root);
      r := r + [child];
    }
  }

  ghost predicate Expanded(parent: Parents, out: seq<int>, n: nat) {
    n <= |out| && forall c :: c in parent && parent[c] in out[..n] ==> c in out
  }

  lemma {:induction false} ExpandedHoldsAll(parent: Parents, root: int, out: seq<int>, x: int, n: nat)
    requires root in out && Expanded(parent, out, |out|)
    requires Up(parent, x, n) == Some(root)
    ensures x in out
    decreases n
  {
    assert out[..|out|] == out;
    if n == 0 {
    } else {
      ExpandedHoldsAll(parent, root, out, parent[x], n - 1);
    }
  }

  lemma {:induction false} FullyExpanded(parent: Parents, root: int, out: seq<int>)
    requires PartOfBranch(parent, root, out) && Expanded(parent, out, |out|)
    ensures Elements(out) == Subtree(parent, root)
  {
    forall x
      ensures x in Elements(out) <==> x in Subtree(parent, root)
    {
      InSubtree(parent, x, root);
      if Below(parent, x, root) {
        var n: nat :| Up(parent, x, n) == Some(root);
        assert out[0] in out;
        ExpandedHoldsAll(parent, root, out, x, n);
      }
    }
  }

  /** A walk that has expanded the first n members of its list. */
  ghost predicate Walked(parent: Parents, root: int, out: seq<int>, n: nat) {
    PartOfBranch(parent, root, out) && |out| <= |parent| + 1 && Expanded(parent, out, n)
  }

  lemma {:induction false} WalkStarts(parent: Parents, root: int)
    ensures Walked(parent, root, [root], 0)
  {
    assert Up(parent, root, 0) == Some(root);
    PartIsSmall(parent, root, [root]);
  }

  /** Expands one more member of the list. */
  method ExpandNext(ghost parent: Parents, ghost root: int, children: map<int, seq<int>>, out: seq<int>, i: nat)
    returns (r: seq<int>)
    requires ChildLists(parent, children) && Walked(parent, root, out, i) && i < |out|
    ensures Walked(parent, root, r, i + 1) && out <= r
  {
    r := Enqueue(parent, root, out[i], ChildrenAt(children, out[i]), out);
    PartIsSmall(parent, root, r);
    assert r[..i + 1] == out[..i] + [out[i]];
  }

  /** A member and everyone below them, each once, the member first. The iteration cap
      never truncates the list, whatever the data. */
  method InviteSubtree(parent: Parents, root: int) returns (out: seq<int>)
    ensures out != [] && out[0] == root && Distinct(out)
    ensures Elements(out) == Subtree(parent, root)
  {
    var children := Children(parent);
    out := [root];
    WalkStarts(parent, root);
    var i := 0;
    while i < |out| && i < MAX_INVITE_DEPTH * |parent| + 1
      invariant Walked(parent, root, out, i)
      decreases |parent| + 1 - i
    {
      out := ExpandNext(parent, root, children, out, i);
      i := i + 1;
    }
    FullyExpanded(parent, root, out);
  }
}
