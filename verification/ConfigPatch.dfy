/** Editing a client's config field by field (internal/configpatch). */
module ConfigPatch {
  import opened Wrappers
  import opened ConfigTree
  import opened Sorting
  import opened Sums

  datatype PatchError = EmptyPatch

  const ROOT := "Config"
  const FRESH := Message(map["ver" := Scalar("1")])

  /** The message without the two service fields every patch carries. */
  function Core(m: Message): Message {
    Message(m.fields - {"type", "ver"})
  }

  ghost predicate Config(schema: Schema, m: Message) {
    && ValidSchema(schema)
    && WellTyped(schema, ROOT, m)
    && "type" in schema[ROOT] && schema[ROOT]["type"] == ScalarType
    && "ver" in schema[ROOT] && schema[ROOT]["ver"] == ScalarType
  }

  // ---- field paths ---------------------------------------------------------

  function Extend(prefix: string, name: string): string {
    if prefix == "" then name else prefix + "." + name
  }

  /** The dotted spelling of a path. */
  ghost function Render(path: seq<string>): string {
    if path == [] then "" else Extend(Render(path[..|path| - 1]), path[|path| - 1])
  }

  ghost predicate ValidPath(path: seq<string>) {
    forall i :: 0 <= i < |path| ==> ValidName(path[i])
  }

  lemma {:induction false} RenderEmpty(path: seq<string>)
    requires ValidPath(path)
    ensures Render(path) == "" <==> path == []
  {
    if path != [] { assert ValidName(path[|path| - 1]); }
  }

  /** The last dot splits a spelling in one way only. */
  lemma {:induction false} LastDot(a: string, x: string, b: string, y: string)
    requires ValidName(x) && ValidName(y)
    requires Extend(a, x) == Extend(b, y)
    ensures a == b && x == y
  {
    var s := Extend(a, x);
    assert s[|s| - |x|..] == x && s[|s| - |y|..] == y;
    assert forall i :: |s| - |x| <= i < |s| ==> s[i] == x[i - (|s| - |x|)];
    assert forall i :: |s| - |y| <= i < |s| ==> s[i] == y[i - (|s| - |y|)];
    assert a != "" ==> s[|s| - |x| - 1] == '.';
    assert b != "" ==> s[|s| - |y| - 1] == '.';
    assert |x| == |y|;
    assert s[..|a|] == a && s[..|b|] == b;
  }

  lemma {:induction false} RenderLast(path: seq<string>, k: string)
    requires ValidPath(path)
    ensures Render(path + [k]) == if path == [] then k else Render(path) + "." + k
  {
    assert (path + [k])[..|path|] == path;
    RenderEmpty(path);
  }

  /** A path is spelled from its outermost field inwards, with dots in between. */
  lemma {:induction false} RenderFromTheTop(k: string, path: seq<string>)
    requires ValidName(k) && ValidPath(path)
    ensures Render([k] + path) == if path == [] then k else k + "." + Render(path)
    decreases |path|
  {
    if path == [] {
      assert [k] + path == [] + [k];
      RenderLast([], k);
    } else {
      var n := |path| - 1;
      assert path == path[..n] + [path[n]] && [k] + path == ([k] + path[..n]) + [path[n]];
      RenderFromTheTop(k, path[..n]);
      RenderLast(path[..n], path[n]);
      RenderLast([k] + path[..n], path[n]);
      assert (k + "." + Render(path[..n])) + "." + path[n] == k + "." + (Render(path[..n]) + "." + path[n]);
    }
  }

  /** Two field paths spelled alike are the same path. */
  lemma {:induction false} RenderInjective(p: seq<string>, q: seq<string>)
    requires ValidPath(p) && ValidPath(q)
    requires Render(p) == Render(q)
    ensures p == q
    decreases |p|
  {
    RenderEmpty(p);
    RenderEmpty(q);
    if p != [] && q != [] {
      var m, n := |p| - 1, |q| - 1;
      LastDot(Render(p[..m]), p[m], Render(q[..n]), q[n]);
      RenderInjective(p[..m], q[..n]);
      assert p == p[..m] + [p[m]] && q == q[..n] + [q[n]];
    }
  }

  lemma {:induction false} LeafNamesValid(schema: Schema, name: string, m: Message, path: seq<string>)
    requires ValidSchema(schema) && WellTyped(schema, name, m)
    requires path in LeafPaths(m)
    ensures ValidPath(path)
    decreases m
  {
    LeafAt(m, path);
    var k := path[0];
    FitsAt(schema, name, m, k);
    if m.fields[k].Sub? {
      LeafNamesValid(schema, schema[name][k].name, m.fields[k].message, path[1..]);
    }
    assert path == [k] + path[1..];
  }

  lemma {:induction false} CoreTyped(schema: Schema, m: Message)
    requires Config(schema, m)
    ensures WellTyped(schema, ROOT, Core(m))
  {
    forall k | k in Core(m).fields
      ensures k in schema[ROOT] && Fits(schema, schema[ROOT][k], Core(m).fields[k])
    {
      FitsAt(schema, ROOT, m, k);
    }
  }

  /** The leaf paths a patch touches; the top-level type and ver are not edits. */
  ghost function Touched(m: Message): set<seq<string>> { LeafPaths(Core(m)) }

  /** Their spellings. */
  ghost function PathNames(m: Message): set<string> {
    set t | t in Touched(m) :: Render(t)
  }

  /** A path's spelling is listed exactly when the path itself is touched. */
  lemma {:induction false} NameOfPath(schema: Schema, m: Message, path: seq<string>)
    requires Config(schema, m) && ValidPath(path)
    ensures Render(path) in PathNames(m) <==> path in Touched(m)
  {
    CoreTyped(schema, m);
    if Render(path) in PathNames(m) {
      var t :| t in Touched(m) && Render(t) == Render(path);
      LeafNamesValid(schema, ROOT, Core(m), t);
      RenderInjective(t, path);
    }
  }

  /** Only the two service fields at the very top are no edits. */
  lemma {:induction false} TouchedExactly(m: Message, path: seq<string>)
    ensures path in Touched(m) <==> path in LeafPaths(m) && path[0] != "type" && path[0] != "ver"
  {
    LeafAt(m, path);
    LeafAt(Core(m), path);
  }

  // ---- listing the paths -------------------------------------------------------

  ghost function Spell(at: seq<string>, trail: seq<seq<string>>): seq<string> {
    seq(|trail|, i requires 0 <= i < |trail| => Render(at + trail[i]))
  }

  ghost function Spelled(at: seq<string>, leaves: set<seq<string>>): set<string> {
    set t | t in leaves :: Render(at + t)
  }

  lemma {:induction false} SpelledFromTop(leaves: set<seq<string>>)
    ensures Spelled([], leaves) == set t | t in leaves :: Render(t)
  {
    forall t ensures Render([] + t) == Render(t) { assert [] + t == t; }
  }

  ghost function Prefixed(k: string, trail: seq<seq<string>>): seq<seq<string>> {
    seq(|trail|, i requires 0 <= i < |trail| => [k] + trail[i])
  }

  /** The leaves of the fields not yet visited are exactly those still missing. */
  ghost predicate Visited(m: Message, rest: set<string>, trail: seq<seq<string>>) {
    && Distinct(trail)
    && forall t :: t in trail <==> t in LeafPaths(m) && t != [] && t[0] !in rest
  }

  lemma {:induction false} VisitField(m: Message, rest: set<string>, k: string, trail: seq<seq<string>>,
      below: seq<seq<string>>)
    requires k in m.fields && k !in rest
    requires Visited(m, rest + {k}, trail)
    requires Distinct(below) && forall t :: t in below <==> t in Tails(m.fields[k])
    ensures Visited(m, rest, trail + Prefixed(k, below))
  {
    var more := Prefixed(k, below);
    var all := trail + more;
    forall i, j | 0 <= i < j < |more|
      ensures more[i] != more[j]
    {
      assert more[i][1..] == below[i] && more[j][1..] == below[j];
    }
    forall t
      ensures t in more <==> t in LeafPaths(m) && t != [] && t[0] == k
    {
      LeafAt(m, t);
      if t in more {
        var i :| 0 <= i < |more| && more[i] == t;
        assert t[1..] == below[i];
      }
      if t != [] && t[0] == k && t[1..] in below {
        var i :| 0 <= i < |below| && below[i] == t[1..];
        assert more[i] == t;
      }
    }
    forall i, j | 0 <= i < |trail| && 0 <= j < |more|
      ensures trail[i] != more[j]
    {
      assert trail[i] in trail && more[j] in more;
    }
    assert forall i :: 0 <= i < |all| ==> all[i] == if i < |trail| then trail[i] else more[i - |trail|];
    forall t
      ensures t in all <==> t in LeafPaths(m) && t != [] && t[0] !in rest
    {
      assert t in all <==> t in trail || t in more;
    }
  }

  lemma {:induction false} SpellLeaf(at: seq<string>, k: string)
    ensures Render(at + [k]) == Extend(Render(at), k)
    ensures Spell(at + [k], [[]]) == [Extend(Render(at), k)]
  {
    assert (at + [k])[..|at|] == at;
    assert at + [k] + [] == at + [k];
  }

  lemma {:induction false} SpellFurther(at: seq<string>, trail: seq<seq<string>>, k: string, below: seq<seq<string>>)
    ensures Spell(at, trail + Prefixed(k, below)) == Spell(at, trail) + Spell(at + [k], below)
  {
    forall i | 0 <= i < |below|
      ensures Render(at + [k] + below[i]) == Render(at + ([k] + below[i]))
    {
      assert at + [k] + below[i] == at + ([k] + below[i]);
    }
  }

  /** Appends the spelling of every populated leaf below a prefix, each once. */
  method Walk(m: Message, prefix: string, out: seq<string>,
      ghost at: seq<string>, ghost schema: Schema, ghost name: string)
    returns (r: seq<string>, ghost trail: seq<seq<string>>)
    requires ValidSchema(schema) && WellTyped(schema, name, m)
    requires ValidPath(at) && prefix == Render(at)
    ensures r == out + Spell(at, trail)
    ensures Distinct(trail)
    ensures forall t :: t in trail <==> t in if at == [] then Touched(m) else LeafPaths(m)
    ensures out <= r && Distinct(r[|out|..])
    ensures forall s :: s in r[|out|..] <==> s in Spelled(at, if at == [] then Touched(m) else LeafPaths(m))
    decreases m, 1
  {
    r, trail := out, [];
    RenderEmpty(at);
    ghost var scope := if at == [] then Core(m) else m;
    var keys := m.fields.Keys;
    forall t | t in LeafPaths(scope) ensures t != [] && t[0] in keys { LeafAt(scope, t); }
    while keys != {}
      invariant keys <= m.fields.Keys
      invariant r == out + Spell(at, trail)
      invariant Visited(scope, keys, trail)
      decreases keys
    {
      var k := AnyOf(keys);
      ghost var before := keys;
      keys := keys - {k};
      assert before == keys + {k};
      if prefix == "" && (k == "type" || k == "ver") {
        forall t | t in LeafPaths(scope) ensures t != [] && t[0] != k { LeafAt(scope, t); }
        continue;
      }
      ghost var below;
      r, below := WalkField(m, k, Extend(prefix, k), r, at, schema, name);
      VisitField(scope, keys, k, trail, below);
      SpellFurther(at, trail, k, below);
      trail := trail + Prefixed(k, below);
    }
    LeavesValid(schema, name, m);
    TrailSpells(at, trail, LeafPaths(scope));
    assert r[|out|..] == Spell(at, trail);
  }

  /** One populated field: its own path, or those of the leaves inside it. */
  method WalkField(m: Message, k: string, here: string, out: seq<string>,
      ghost at: seq<string>, ghost schema: Schema, ghost name: string)
    returns (r: seq<string>, ghost below: seq<seq<string>>)
    requires ValidSchema(schema) && WellTyped(schema, name, m) && k in m.fields
    requires ValidPath(at) && here == Extend(Render(at), k)
    ensures r == out + Spell(at + [k], below)
    ensures Distinct(below) && forall t :: t in below <==> t in Tails(m.fields[k])
    ensures out <= r && forall s :: s in r[|out|..] <==> s in Spelled(at + [k], Tails(m.fields[k]))
    decreases m, 0
  {
    FitsAt(schema, name, m, k);
    SpellLeaf(at, k);
    if m.fields[k].Sub? {
      r, below := Walk(m.fields[k].message, here, out, at + [k], schema, schema[name][k].name);
    } else {
      r, below := out + [here], [[]];
      assert at + [k] + [] == at + [k];
      assert r[|out|..] == [here];
    }
  }

  /** The fields a patch touches, sorted, each listed once; service fields are not listed. */
  method Paths(patch: Option<Message>, ghost schema: Schema) returns (out: seq<string>)
    requires patch.Some? ==> Config(schema, patch.value)
    ensures patch.None? ==> out == []
    ensures patch.Some? ==> forall s :: s in out <==> s in PathNames(patch.value)
    ensures Distinct(out) && Sorted(StringLe, out)
  {
    if patch.None? { return []; }
    ghost var trail;
    var found;
    found, trail := Walk(patch.value, "", [], [], schema, ROOT);
    assert found[0..] == found;
    SpelledFromTop(Touched(patch.value));
    DistinctMultiset(found);
    StringOrder();
    out := Sort(StringLe, found);
    MultisetDistinct(out);
    forall s
      ensures s in out <==> s in found
    {
      assert s in multiset(out) <==> s in multiset(found);
    }
  }

  lemma {:induction false} LeavesValid(schema: Schema, name: string, m: Message)
    requires ValidSchema(schema) && WellTyped(schema, name, m)
    ensures forall t :: t in LeafPaths(m) ==> ValidPath(t)
    ensures Touched(m) <= LeafPaths(m)
  {
    forall t | t in LeafPaths(m) ensures ValidPath(t) { LeafNamesValid(schema, name, m, t); }
    forall t | t in Touched(m) ensures t in LeafPaths(m) {
      LeafAt(Core(m), t);
      LeafAt(m, t);
    }
  }

  /** A trail without repeats through some leaves spells every one of them once. */
  lemma {:induction false} TrailSpells(at: seq<string>, trail: seq<seq<string>>, leaves: set<seq<string>>)
    requires ValidPath(at) && forall t :: t in leaves ==> ValidPath(t)
    requires Distinct(trail) && forall t :: t in trail <==> t in leaves
    ensures Distinct(Spell(at, trail)) && forall s :: s in Spell(at, trail) <==> s in Spelled(at, leaves)
  {
    var found := Spell(at, trail);
    forall i, j | 0 <= i < j < |found|
      ensures found[i] != found[j]
    {
      assert trail[i] in trail && trail[j] in trail;
      assert (at + trail[i])[|at|..] == trail[i] && (at + trail[j])[|at|..] == trail[j];
      if found[i] == found[j] { RenderInjective(at + trail[i], at + trail[j]); }
    }
    forall s | s in Spelled(at, leaves)
      ensures s in found
    {
      var t :| t in leaves && Render(at + t) == s;
      assert t in trail;
      var i :| 0 <= i < |trail| && trail[i] == t;
      assert found[i] == s;
    }
    forall s | s in found
      ensures s in Spelled(at, leaves)
    {
      var i :| 0 <= i < |found| && found[i] == s;
      assert trail[i] in trail;
    }
  }

  // ---- applying a patch ----------------------------------------------------------

  /** Empties, in the receiver, the lists and maps the source carries anew. */
  method ClearReplacedLists(dst: Message, src: Message) returns (r: Message)
    ensures r == Cleared(dst, src)
    decreases src
  {
    r := dst;
    var keys := src.fields.Keys;
    ghost var done := {};
    while keys != {}
      invariant keys <= src.fields.Keys && done == src.fields.Keys - keys
      invariant r.fields.Keys ==
        set k | k in dst.fields && !(k in done && k in src.fields && Replaced(src.fields[k]))
      invariant forall k :: k in r.fields ==>
        r.fields[k] == if k in done then ClearedValue(dst.fields[k], src.fields[k]) else dst.fields[k]
      decreases keys
    {
      var k := AnyOf(keys);
      keys := keys - {k};
      done := done + {k};
      var v := src.fields[k];
      if Replaced(v) {
        r := Message(r.fields - {k});
      } else if v.Sub? && k in r.fields && r.fields[k].Sub? {
        var inner := ClearReplacedLists(r.fields[k].message, v.message);
        r := Message(r.fields[k := Sub(inner)]);
      }
    }
    assert r.fields == Cleared(dst, src).fields;
  }

  /** The stored config after an accepted patch: merged, with a version, and with
      the stored type rather than the patch's. */
  ghost function Patched(s: Message, p: Message): Message {
    var m := Merged(Cleared(s, p), p).fields;
    var v := if "ver" in m then m else m["ver" := Scalar("1")];
    Message(if "type" in s.fields then v["type" := s.fields["type"]] else v - {"type"})
  }

  /** Pours a patch into the stored config, or refuses a patch that edits nothing. */
  method Apply(stored: Option<Message>, patch: Option<Message>, ghost schema: Schema)
    returns (r: Result<Message, PatchError>)
    requires patch.Some? ==> Config(schema, patch.value)
    ensures r == if patch.None? || PathNames(patch.value) == {} then Err(EmptyPatch)
                 else Ok(Patched(if stored.None? then FRESH else stored.value, patch.value))
  {
    if patch.None? { return Err(EmptyPatch); }
    var paths := Paths(patch, schema);
    if paths == [] {
      assert forall s :: s !in PathNames(patch.value);
      return Err(EmptyPatch);
    }
    assert paths[0] in PathNames(patch.value);
    var base := if stored.None? then FRESH else stored.value;
    var merged := ClearReplacedLists(base, patch.value);
    merged := Merged(merged, patch.value);
    if "ver" !in merged.fields {
      merged := Message(merged.fields["ver" := Scalar("1")]);
    }
    merged := Message(if "type" in base.fields then merged.fields["type" := base.fields["type"]]
                      else merged.fields - {"type"});
    r := Ok(merged);
  }

  // ---- conflicts ---------------------------------------------------------------------

  /** The listed paths somebody touched after the version the editor was opened on. */
  method Conflicts(paths: seq<string>, touched: map<string, int>, since: int) returns (out: seq<string>)
    ensures forall s :: s in out <==> since > 0 && s in paths && s in touched && touched[s] > since
    ensures Sorted(StringLe, out)
  {
    if since <= 0 || touched == map[] { return []; }
    out := [];
    for n := 0 to |paths|
      invariant forall s :: s in out <==> s in paths[..n] && s in touched && touched[s] > since
    {
      assert paths[..n + 1] == paths[..n] + [paths[n]];
      if paths[n] in touched && touched[paths[n]] > since {
        out := out + [paths[n]];
      }
    }
    assert paths[..|paths|] == paths;
    StringOrder();
    var clash := out;
    out := Sort(StringLe, clash);
    forall s ensures s in out <==> s in clash {
      assert s in multiset(out) <==> s in multiset(clash);
    }
  }

  /** Every named path carries the new version, every other keeps its own. */
  ghost function Marked(touched: map<string, int>, names: set<string>, version: int): map<string, int> {
    map s | s in touched.Keys + names :: if s in names then version else touched[s]
  }

  method Touch(touched: map<string, int>, paths: seq<string>, version: int) returns (r: map<string, int>)
    ensures r == Marked(touched, (set s | s in paths), version)
  {
    r := touched;
    for n := 0 to |paths|
      invariant forall s :: s in r <==> s in touched || s in paths[..n]
      invariant forall s :: s in r ==> r[s] == if s in paths[..n] then version else touched[s]
    {
      assert paths[..n + 1] == paths[..n] + [paths[n]];
      r := r[paths[n] := version];
    }
    assert paths[..|paths|] == paths;
    assert r == Marked(touched, (set s | s in paths), version);
  }
}
