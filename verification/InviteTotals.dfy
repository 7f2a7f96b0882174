/** What each branch of the invite tree moved (internal/storage/admintraffic.go). */
module InviteTotals {
  import opened Wrappers
  import opened Sorting
  import opened Sums
  import opened InviteTree

  /** What one member's own clients moved, and how many of them there are. */
  datatype OwnRow = OwnRow(bytes: nat, clients: nat)
  datatype Rollup = Rollup(own: OwnRow, subtreeBytes: nat, subtreeClients: nat, subtreeAdmins: nat)

  function OwnAt(own: map<int, OwnRow>, id: int): OwnRow {
    if id in own then own[id] else OwnRow(0, 0)
  }

  ghost function Bytes(own: map<int, OwnRow>): map<int, nat> { map id | id in own :: own[id].bytes }

  ghost function Clients(own: map<int, OwnRow>): map<int, nat> { map id | id in own :: own[id].clients }

  /** Usage of a member and everyone below them. */
  ghost function BranchSum(parent: Parents, w: map<int, nat>, r: int): nat {
    Sum(Subtree(parent, r), w)
  }

  /** The walk adds up exactly the branch, each member once. */
  method SubtreeTotals(root: int, children: map<int, seq<int>>, own: map<int, OwnRow>, ghost parent: Parents)
    returns (bytes: nat, clients: nat, members: nat)
    requires ChildLists(parent, children)
    ensures bytes == BranchSum(parent, Bytes(own), root)
    ensures clients == BranchSum(parent, Clients(own), root)
    ensures members == |Subtree(parent, root)| > 0
  {
    var queue;
    queue, bytes, clients, members := TallyQueue(root, children, own, parent);
    FullyExpanded(parent, root, queue);
    assert queue[..|queue|] == queue;
    DistinctSize(queue, Elements(queue));
  }

  method TallyQueue(root: int, children: map<int, seq<int>>, own: map<int, OwnRow>, ghost parent: Parents)
    returns (queue: seq<int>, bytes: nat, clients: nat, members: nat)
    requires ChildLists(parent, children)
    ensures Walked(parent, root, queue, |queue|) && members == |queue|
    ensures Tallied(own, queue, |queue|, bytes, clients)
  {
    bytes, clients, members := 0, 0, 0;
    queue := [root];
    WalkStarts(parent, root);
    var i := 0;
    while i < |queue|
      invariant Walked(parent, root, queue, i)
      invariant Tallied(own, queue, i, bytes, clients)
      invariant members == i
      decreases |parent| + 1 - i
    {
      var at := queue[i];
      members := members + 1;
      ghost var before, b, c := queue, bytes, clients;
      bytes := bytes + OwnAt(own, at).bytes;
      clients := clients + OwnAt(own, at).clients;
      queue := ExpandNext(parent, root, children, queue, i);
      TallyNext(own, before, queue, i, b, c);
      i := i + 1;
    }
  }

  ghost predicate Tallied(own: map<int, OwnRow>, queue: seq<int>, n: nat, bytes: nat, clients: nat) {
    && n <= |queue|
    && bytes == Sum(Elements(queue[..n]), Bytes(own))
    && clients == Sum(Elements(queue[..n]), Clients(own))
  }

  lemma {:induction false} TallyNext(own: map<int, OwnRow>, before: seq<int>, after: seq<int>, i: nat, bytes: nat,
      clients: nat)
    requires Distinct(before) && i < |before| && before <= after && Tallied(own, before, i, bytes, clients)
    ensures Tallied(own, after, i + 1, bytes + OwnAt(own, before[i]).bytes, clients + OwnAt(own, before[i]).clients)
  {
    SumNext(before, i, Bytes(own));
    SumNext(before, i, Clients(own));
    assert after[..i + 1] == before[..i + 1];
  }

  lemma {:induction false} SumNext(s: seq<int>, i: nat, w: map<int, nat>)
    requires Distinct(s) && i < |s|
    ensures Sum(Elements(s[..i + 1]), w) == Sum(Elements(s[..i]), w) + Weight(w, s[i])
  {
    var all := Elements(s[..i + 1]);
    assert s[i] in s[..i + 1];
    assert Elements(s[..i]) == all - {s[i]};
    SumWithout(all, s[i], w);
  }

  ghost function RowOf(parent: Parents, own: map<int, OwnRow>, a: int): Rollup {
    var others := Subtree(parent, a) - {a};
    Rollup(OwnAt(own, a), BranchSum(parent, Bytes(own), a), BranchSum(parent, Clients(own), a), |others|)
  }

  method RollupOne(a: int, children: map<int, seq<int>>, ghost parent: Parents, own: map<int, OwnRow>)
    returns (row: Rollup)
    requires ChildLists(parent, children)
    ensures row == RowOf(parent, own, a)
  {
    var bytes, clients, members := SubtreeTotals(a, children, own, parent);
    assert Up(parent, a, 0) == Some(a);
    assert a in Subtree(parent, a);
    row := Rollup(OwnAt(own, a), bytes, clients, members - 1);
  }

  /** Recomputes every member's row; a member does not count among those they brought in. */
  method RollupAdminTraffic(admins: seq<int>, parent: Parents, own: map<int, OwnRow>)
    returns (rows: map<int, Rollup>)
    ensures forall a :: a in rows <==> a in admins
    ensures forall a :: a in rows ==> rows[a] == RowOf(parent, own, a)
  {
    var children := Children(parent);
    rows := map[];
    for n := 0 to |admins|
      invariant forall a :: a in rows <==> a in admins[..n]
      invariant forall a :: a in rows ==> rows[a] == RowOf(parent, own, a)
    {
      assert admins[..n + 1] == admins[..n] + [admins[n]];
      var row := RollupOne(admins[n], children, parent, own);
      rows := rows[admins[n] := row];
    }
    assert admins[..|admins|] == admins;
  }

  /** Usage of one member counts for exactly the members whose branch they are in, bytes as
      bytes and clients as clients, and in nobody's own usage but theirs. */
  lemma {:induction false} UsageMovesUp(parent: Parents, own: map<int, OwnRow>, x: int, bytes: nat, clients: nat,
      a: int)
    ensures var more := own[x := OwnRow(OwnAt(own, x).bytes + bytes, OwnAt(own, x).clients + clients)];
      var was, now := RowOf(parent, own, a), RowOf(parent, more, a);
      var inBranch := x in Subtree(parent, a);
      && now.subtreeBytes == was.subtreeBytes + (if inBranch then bytes else 0)
      && now.subtreeClients == was.subtreeClients + (if inBranch then clients else 0)
      && now.own.bytes == was.own.bytes + (if x == a then bytes else 0)
      && now.own.clients == was.own.clients + (if x == a then clients else 0)
      && now.subtreeAdmins == was.subtreeAdmins
  {
    var more := own[x := OwnRow(OwnAt(own, x).bytes + bytes, OwnAt(own, x).clients + clients)];
    assert forall k :: k != x ==> Weight(Bytes(more), k) == Weight(Bytes(own), k);
    assert forall k :: k != x ==> Weight(Clients(more), k) == Weight(Clients(own), k);
    OneWeight(Subtree(parent, a), Bytes(own), Bytes(more), x, bytes);
    OneWeight(Subtree(parent, a), Clients(own), Clients(more), x, clients);
  }

  lemma {:induction false} OneWeight(s: set<int>, v: map<int, nat>, w: map<int, nat>, x: int, n: nat)
    requires Weight(w, x) == Weight(v, x) + n && forall k :: k != x ==> Weight(w, k) == Weight(v, k)
    ensures Sum(s, w) == Sum(s, v) + if x in s then n else 0
  {
    if x in s {
      SumWithout(s, x, v);
      SumWithout(s, x, w);
      assert forall k :: k in s - {x} ==> k != x;
      SumSame(s - {x}, v, w);
    } else {
      assert forall k :: k in s ==> k != x;
      SumSame(s, v, w);
    }
  }

  /** Without usage nothing is counted, and the members brought in are the branch without its root. */
  lemma {:induction false} IdleRow(parent: Parents, a: int)
    ensures var r := RowOf(parent, map[], a);
      && r.own == OwnRow(0, 0) && r.subtreeBytes == 0 && r.subtreeClients == 0
      && r.subtreeAdmins + 1 == |Subtree(parent, a)|
  {
    SumNothing(Subtree(parent, a));
    InSubtree(parent, a, a);
    assert Up(parent, a, 0) == Some(a);
  }

  lemma {:induction false} SumNothing(s: set<int>)
    ensures Sum(s, map[]) == 0
  {
    if s != {} {
      var k := Pick(s);
      SumWithout(s, k, map[]);
      SumNothing(s - {k});
    }
  }

  // ---- conservation on acyclic data -----------------------------------------------------

  ghost predicate Acyclic(parent: Parents) {
    forall x, n: nat {:trigger Up(parent, x, n)} :: n > 0 ==> Up(parent, x, n) != Some(x)
  }

  ghost predicate Apart(parent: Parents, tops: set<int>) {
    forall a, b :: a in tops && b in tops && a != b ==> Subtree(parent, a) !! Subtree(parent, b)
  }

  /** Everybody in one of several branches. */
  ghost function Forest(parent: Parents, tops: set<int>): set<int> {
    set x | x in parent.Keys + tops && exists t :: t in tops && x in Subtree(parent, t)
  }

  ghost function BranchSums(parent: Parents, w: map<int, nat>, tops: set<int>): map<int, nat> {
    map t | t in tops :: BranchSum(parent, w, t)
  }

  /** Branches that do not overlap share no usage. */
  lemma {:induction false} ForestTotal(parent: Parents, w: map<int, nat>, tops: set<int>)
    requires Apart(parent, tops)
    ensures Sum(Forest(parent, tops), w) == Sum(tops, BranchSums(parent, w, tops))
    decreases tops
  {
    if tops == {} {
      assert Forest(parent, tops) == {};
    } else {
      var t := Pick(tops);
      var rest := tops - {t};
      ForestTotal(parent, w, rest);
      var here, others := Subtree(parent, t), Forest(parent, rest);
      assert Forest(parent, tops) == here + others by {
        forall x ensures x in Forest(parent, tops) <==> x in here || x in others {
          if x in Forest(parent, tops) {
            var u :| u in tops && x in Subtree(parent, u);
            assert u != t ==> u in rest;
          }
        }
      }
      SumUnion(here, others, w);
      SumWithout(tops, t, BranchSums(parent, w, tops));
      SumSame(rest, BranchSums(parent, w, rest), BranchSums(parent, w, tops));
    }
  }

  ghost function Kids(parent: Parents, r: int): set<int> {
    set c | c in parent && parent[c] == r
  }

  lemma {:induction false} SiblingsApart(parent: Parents, r: int)
    requires Acyclic(parent)
    ensures Apart(parent, Kids(parent, r))
  {
    forall a, b | a in Kids(parent, r) && b in Kids(parent, r) && a != b
      ensures Subtree(parent, a) !! Subtree(parent, b)
    {
      forall x | x in Subtree(parent, a) ensures x !in Subtree(parent, b) {
        if x in Subtree(parent, b) {
          AboveIsLinear(parent, x, a, b);
          if Below(parent, a, b) { SiblingBelow(parent, r, a, b); } else { SiblingBelow(parent, r, b, a); }
        }
      }
    }
  }

  lemma {:induction false} SiblingBelow(parent: Parents, r: int, a: int, b: int)
    requires Acyclic(parent) && a in Kids(parent, r) && b in Kids(parent, r)
    requires Below(parent, a, b)
    ensures a == b
  {
    var n: nat :| Up(parent, a, n) == Some(b);
    assert Up(parent, b, 1) == Some(r);
    if n > 0 { UpUp(parent, r, n - 1, 1); }
  }

  lemma {:induction false} NotBelowOwnChild(parent: Parents, r: int, c: int)
    requires Acyclic(parent) && c in Kids(parent, r)
    ensures r !in Subtree(parent, c)
  {
    assert Up(parent, c, 1) == Some(r);
    if Below(parent, r, c) {
      var n: nat :| Up(parent, r, n) == Some(c);
      UpUp(parent, r, n, 1);
    }
  }

  /** On acyclic data a member's branch is their own usage plus their children's branches. */
  lemma {:induction false} TotalIsOwnPlusChildren(parent: Parents, w: map<int, nat>, r: int)
    requires Acyclic(parent)
    ensures BranchSum(parent, w, r) ==
      Weight(w, r) + Sum(Kids(parent, r), BranchSums(parent, w, Kids(parent, r)))
  {
    var kids := Kids(parent, r);
    SiblingsApart(parent, r);
    ForestTotal(parent, w, kids);
    var below := Forest(parent, kids);
    forall x
      ensures x in Subtree(parent, r) <==> x in below + {r}
    {
      InSubtree(parent, x, r);
      if Below(parent, x, r) && x != r { StepIntoChild(parent, x, r); }
      if x in below {
        var c :| c in kids && x in Subtree(parent, c);
        assert Up(parent, c, 1) == Some(r);
        BelowTransitive(parent, x, c, r);
      }
      if x == r { assert Up(parent, r, 0) == Some(r); }
    }
    forall c | c in kids ensures r !in Subtree(parent, c) { NotBelowOwnChild(parent, r, c); }
    assert Subtree(parent, r) == below + {r};
    SumWithout(below + {r}, r, w);
    assert below + {r} - {r} == below;
  }

  /** Whoever is strictly below r is in the branch of one of r's children. */
  lemma {:induction false} StepIntoChild(parent: Parents, x: int, r: int)
    requires Below(parent, x, r) && x != r
    ensures x in Forest(parent, Kids(parent, r))
  {
    var n: nat :| Up(parent, x, n) == Some(r);
    LastStep(parent, x, n);
    var c := Up(parent, x, n - 1).value;
    InSubtree(parent, x, c);
    assert c in Kids(parent, r);
  }

  lemma {:induction false} LastStep(parent: Parents, x: int, n: nat)
    requires n > 0 && Up(parent, x, n).Some?
    ensures Up(parent, x, n - 1).Some?
    ensures Up(parent, x, n - 1).value in parent
    ensures Up(parent, x, n) == Some(parent[Up(parent, x, n - 1).value])
    decreases n
  {
    if n > 1 { LastStep(parent, parent[x], n - 1); }
  }

  /** Members of a node set whose inviter, if any, is in it too; the roots have none. */
  ghost function Roots(parent: Parents, nodes: set<int>): set<int> {
    set x | x in nodes && x !in parent
  }

  /** Everyone has a root above them when the data is acyclic. */
  lemma {:induction false} ReachesRoot(parent: Parents, x: int)
    requires Acyclic(parent)
    ensures exists r :: r !in parent && Below(parent, x, r)
  {
    var chain := Ancestry(parent, x);
    AncestryIsReachable(parent, x);
    ChainShape(parent, x, {x});
    var n := |chain|;
    var top := if n == 0 then x else chain[n - 1];
    assert Up(parent, x, n) == Some(top);
    if top in parent {
      var up := parent[top];
      assert Up(parent, top, 1) == Some(up);
      assert top in {x} + Elements(chain);
      assert up == x || up in chain;
      var i: nat :| i <= n && Up(parent, x, i) == Some(up) by {
        if up == x { assert Up(parent, x, 0) == Some(up); } else {
          var j :| 0 <= j < n && chain[j] == up;
          assert Up(parent, x, j + 1) == Some(up);
        }
      }
      UpUp(parent, x, n, 1);
      UpUp(parent, x, i, n + 1 - i);
    }
  }

  lemma {:induction false} NothingAboveRoot(parent: Parents, a: int, b: int)
    requires a !in parent && Below(parent, a, b)
    ensures a == b
  {
    var n: nat :| Up(parent, a, n) == Some(b);
  }

  lemma {:induction false} RootsApart(parent: Parents, nodes: set<int>)
    ensures Apart(parent, Roots(parent, nodes))
  {
    var roots := Roots(parent, nodes);
    forall a, b | a in roots && b in roots && a != b
      ensures Subtree(parent, a) !! Subtree(parent, b)
    {
      forall x | x in Subtree(parent, a) ensures x !in Subtree(parent, b) {
        if x in Subtree(parent, b) {
          AboveIsLinear(parent, x, a, b);
          if Below(parent, a, b) { NothingAboveRoot(parent, a, b); } else { NothingAboveRoot(parent, b, a); }
        }
      }
    }
  }

  /** Conservation: the branches of the roots add up to everybody's own usage. */
  lemma {:induction false} RootsCarryEverything(parent: Parents, w: map<int, nat>, nodes: set<int>)
    requires Acyclic(parent)
    requires parent.Keys <= nodes && parent.Values <= nodes
    ensures Sum(Roots(parent, nodes), BranchSums(parent, w, Roots(parent, nodes))) == Sum(nodes, w)
  {
    var roots := Roots(parent, nodes);
    RootsApart(parent, nodes);
    ForestTotal(parent, w, roots);
    ForestIsAll(parent, nodes);
  }

  lemma {:induction false} ForestIsAll(parent: Parents, nodes: set<int>)
    requires Acyclic(parent)
    requires parent.Keys <= nodes && parent.Values <= nodes
    ensures Forest(parent, Roots(parent, nodes)) == nodes
  {
    forall x | x in nodes
      ensures x in Forest(parent, Roots(parent, nodes))
    {
      UnderSomeRoot(parent, nodes, x);
    }
  }

  lemma {:induction false} UnderSomeRoot(parent: Parents, nodes: set<int>, x: int)
    requires Acyclic(parent) && x in nodes
    requires parent.Keys <= nodes && parent.Values <= nodes
    ensures x in Forest(parent, Roots(parent, nodes))
  {
    ReachesRoot(parent, x);
    var r :| r !in parent && Below(parent, x, r);
    var n: nat :| Up(parent, x, n) == Some(r);
    forall y | y in nodes && y in parent ensures parent[y] in nodes {
      assert parent[y] in parent.Values;
    }
    ClosedKeepsUp(parent, nodes, x, n);
    InSubtree(parent, x, r);
  }
}
