/** Protobuf messages as trees of populated fields, and the library's merge on them. */
module ConfigTree {
  import opened Wrappers

  // A field is in the map exactly when reflection calls it populated. List
  // elements and map entries are never looked into, so their encodings do.
  datatype Message = Message(fields: map<string, Value>)
  datatype Value =
    | Scalar(encoded: string)
    | List(items: seq<string>)
    | Dict(entries: map<string, string>)
    | Sub(message: Message)

  const EMPTY := Message(map[])

  datatype FieldType = ScalarType | ListType | DictType | SubType(name: string)

  type Schema = map<string, map<string, FieldType>>

  /** Field names are identifiers: not empty, and free of the path separator. */
  ghost predicate ValidName(name: string) {
    name != "" && '.' !in name
  }

  ghost predicate ValidSchema(schema: Schema) {
    forall m, k :: m in schema && k in schema[m] ==> ValidName(k)
  }

  /** Populated lists and maps have elements; sub-messages may be present and empty. */
  ghost predicate Fits(schema: Schema, t: FieldType, v: Value)
    decreases v
  {
    match v
    case Scalar(_) => t == ScalarType
    case List(items) => t == ListType && items != []
    case Dict(entries) => t == DictType && entries != map[]
    case Sub(m) => t.SubType? && WellTyped(schema, t.name, m)
  }

  ghost predicate WellTyped(schema: Schema, name: string, m: Message)
    decreases m
  {
    && name in schema
    && forall k :: k in m.fields ==> k in schema[name] && Fits(schema, schema[name][k], m.fields[k])
  }

  // ---- leaves -------------------------------------------------------------

  /** The field paths of the populated fields that are not sub-messages. */
  ghost function LeafPaths(m: Message): set<seq<string>>
    decreases m
  {
    set k, t | k in m.fields && t in Tails(m.fields[k]) :: [k] + t
  }

  ghost function Tails(v: Value): set<seq<string>>
    decreases v
  {
    if v.Sub? then LeafPaths(v.message) else {[]}
  }

  /** The value of the leaf at a path. */
  ghost function Lookup(m: Message, path: seq<string>): Option<Value>
    decreases path
  {
    if path == [] || path[0] !in m.fields then None
    else
      var v := m.fields[path[0]];
      if v.Sub? then Lookup(v.message, path[1..])
      else if |path| == 1 then Some(v) else None
  }

  lemma {:induction false} LeafAt(m: Message, path: seq<string>)
    ensures path in LeafPaths(m) <==>
      path != [] && path[0] in m.fields && path[1..] in Tails(m.fields[path[0]])
  {
    if path in LeafPaths(m) {
      var k, t :| k in m.fields && t in Tails(m.fields[k]) && path == [k] + t;
      assert path[1..] == t;
    }
    if path != [] {
      assert path == [path[0]] + path[1..];
    }
  }

  /** A path is listed exactly when a leaf value is found there. */
  lemma {:induction false} LookupFindsLeaves(m: Message, path: seq<string>)
    ensures path in LeafPaths(m) <==> Lookup(m, path).Some?
    decreases path
  {
    LeafAt(m, path);
    if path != [] && path[0] in m.fields {
      var v := m.fields[path[0]];
      if v.Sub? {
        LookupFindsLeaves(v.message, path[1..]);
        assert Tails(v) == LeafPaths(v.message);
      } else {
        assert path[1..] == [] <==> |path| == 1;
      }
    }
  }

  // ---- the library's merge, and the clearing that precedes it ----------------

  /** What proto.Merge documents: set scalars overwrite, lists append, maps unite,
      sub-messages merge in turn (an absent one is created first). */
  function Merged(dst: Message, src: Message): Message
    decreases src
  {
    Message(map k | k in dst.fields.Keys + src.fields.Keys ::
      if k !in src.fields then dst.fields[k]
      else if k !in dst.fields then MergedNew(src.fields[k])
      else MergedValue(dst.fields[k], src.fields[k]))
  }

  function MergedNew(v: Value): Value
    decreases v
  {
    match v
    case Sub(m) => Sub(Merged(EMPTY, m))
    case _ => v
  }

  function MergedValue(a: Value, b: Value): Value
    decreases b
  {
    match (a, b)
    case (List(xs), List(ys)) => List(xs + ys)
    case (Dict(xs), Dict(ys)) => Dict(xs + ys)
    case (Sub(m), Sub(n)) => Sub(Merged(m, n))
    case _ => b
  }

  /** The receiver with every list and map the source carries emptied. */
  function Cleared(dst: Message, src: Message): Message
    decreases src
  {
    Message(map k | k in dst.fields && !(k in src.fields && Replaced(src.fields[k])) ::
      if k in src.fields then ClearedValue(dst.fields[k], src.fields[k]) else dst.fields[k])
  }

  predicate Replaced(v: Value) { v.List? || v.Dict? }

  function ClearedValue(a: Value, b: Value): Value
    decreases b
  {
    if a.Sub? && b.Sub? then Sub(Cleared(a.message, b.message)) else a
  }

  // ---- the meaning of clearing and merging: a right-biased overlay ------------

  /** The stored tree with every leaf of the patch laid over it. */
  ghost function Overlay(s: Message, p: Message): Message
    decreases p
  {
    Message(map k | k in s.fields.Keys + p.fields.Keys ::
      if k !in p.fields then s.fields[k]
      else if k !in s.fields then p.fields[k]
      else OverlayValue(s.fields[k], p.fields[k]))
  }

  ghost function OverlayValue(a: Value, b: Value): Value
    decreases b
  {
    if a.Sub? && b.Sub? then Sub(Overlay(a.message, b.message)) else b
  }

  lemma {:induction false} OverlayAt(s: Message, p: Message, k: string)
    requires k in Overlay(s, p).fields
    ensures k in s.fields || k in p.fields
    ensures Overlay(s, p).fields[k] ==
      if k !in p.fields then s.fields[k]
      else if k !in s.fields then p.fields[k]
      else OverlayValue(s.fields[k], p.fields[k])
  {}

  lemma {:induction false} FitsAt(schema: Schema, name: string, m: Message, k: string)
    requires WellTyped(schema, name, m) && k in m.fields
    ensures k in schema[name] && Fits(schema, schema[name][k], m.fields[k])
  {}

  lemma {:induction false} MergeIntoEmpty(p: Message)
    ensures Merged(EMPTY, p) == p
    decreases p
  {
    forall k | k in p.fields
      ensures MergedNew(p.fields[k]) == p.fields[k]
    {
      if p.fields[k].Sub? { MergeIntoEmpty(p.fields[k].message); }
    }
    assert Merged(EMPTY, p).fields == p.fields;
  }

  lemma {:induction false} ClearMergeAt(schema: Schema, name: string, s: Message, p: Message, k: string)
    requires WellTyped(schema, name, s) && WellTyped(schema, name, p)
    requires k in s.fields && k in p.fields
    ensures k in Merged(Cleared(s, p), p).fields
    ensures Merged(Cleared(s, p), p).fields[k] ==
      if p.fields[k].Sub? && s.fields[k].Sub?
      then Sub(Merged(Cleared(s.fields[k].message, p.fields[k].message), p.fields[k].message))
      else p.fields[k]
  {
    FitsAt(schema, name, s, k);
    FitsAt(schema, name, p, k);
    var c := Cleared(s, p);
    if k in c.fields {
      assert c.fields[k] == ClearedValue(s.fields[k], p.fields[k]);
      assert Merged(c, p).fields[k] == MergedValue(c.fields[k], p.fields[k]);
    } else {
      assert Merged(c, p).fields[k] == MergedNew(p.fields[k]);
    }
  }

  /** Clearing then merging replaces lists and maps whole and leaves everything else alone. */
  lemma {:induction false} ClearMergeIsOverlay(schema: Schema, name: string, s: Message, p: Message)
    requires WellTyped(schema, name, s) && WellTyped(schema, name, p)
    ensures Merged(Cleared(s, p), p) == Overlay(s, p)
    decreases p
  {
    var c := Cleared(s, p);
    var m, o := Merged(c, p).fields, Overlay(s, p).fields;
    forall k | k in o
      ensures k in m && m[k] == o[k]
    {
      OverlayAt(s, p, k);
      if k in p.fields {
        FitsAt(schema, name, p, k);
        if k !in s.fields {
          assert m[k] == MergedNew(p.fields[k]);
          if p.fields[k].Sub? { MergeIntoEmpty(p.fields[k].message); }
        } else {
          FitsAt(schema, name, s, k);
          ClearMergeAt(schema, name, s, p, k);
          if p.fields[k].Sub? {
            ClearMergeIsOverlay(schema, schema[name][k].name, s.fields[k].message, p.fields[k].message);
          }
        }
      }
    }
    assert m == o;
  }

  lemma {:induction false} OverlayWellTyped(schema: Schema, name: string, s: Message, p: Message)
    requires WellTyped(schema, name, s) && WellTyped(schema, name, p)
    ensures WellTyped(schema, name, Overlay(s, p))
    decreases p
  {
    var o := Overlay(s, p).fields;
    forall k | k in o
      ensures k in schema[name] && Fits(schema, schema[name][k], o[k])
    {
      OverlayAt(s, p, k);
      if k in s.fields { FitsAt(schema, name, s, k); }
      if k in p.fields { FitsAt(schema, name, p, k); }
      if k in s.fields && k in p.fields && p.fields[k].Sub? {
        OverlayWellTyped(schema, schema[name][k].name, s.fields[k].message, p.fields[k].message);
      }
    }
  }

  /** Every leaf of the patch ends with the patch's value, every other leaf keeps its own. */
  lemma {:induction false} OverlayLookup(schema: Schema, name: string, s: Message, p: Message, path: seq<string>)
    requires WellTyped(schema, name, s) && WellTyped(schema, name, p)
    ensures Lookup(Overlay(s, p), path) ==
      if Lookup(p, path).Some? then Lookup(p, path) else Lookup(s, path)
    decreases path
  {
    if path != [] && path[0] in s.fields && path[0] in p.fields {
      var k := path[0];
      assert Fits(schema, schema[name][k], s.fields[k]) && Fits(schema, schema[name][k], p.fields[k]);
      if p.fields[k].Sub? {
        OverlayLookup(schema, schema[name][k].name, s.fields[k].message, p.fields[k].message, path[1..]);
      }
    }
  }

  lemma {:induction false} OverlayAssociative(schema: Schema, name: string, s: Message, p: Message, q: Message)
    requires WellTyped(schema, name, s) && WellTyped(schema, name, p) && WellTyped(schema, name, q)
    ensures Overlay(Overlay(s, p), q) == Overlay(s, Overlay(p, q))
    decreases q
  {
    var l, r := Overlay(Overlay(s, p), q).fields, Overlay(s, Overlay(p, q)).fields;
    forall k | k in l
      ensures l[k] == r[k]
    {
      if k in s.fields && k in p.fields && k in q.fields {
        FitsAt(schema, name, s, k);
        FitsAt(schema, name, p, k);
        FitsAt(schema, name, q, k);
        if q.fields[k].Sub? {
          OverlayAssociative(schema, schema[name][k].name,
            s.fields[k].message, p.fields[k].message, q.fields[k].message);
        }
      }
      AssociativeAt(s, p, q, k);
    }
    assert l == r;
  }

  lemma {:induction false} AssociativeAt(s: Message, p: Message, q: Message, k: string)
    requires k in Overlay(Overlay(s, p), q).fields
    requires k in s.fields && k in p.fields && k in q.fields ==>
      OverlayValue(OverlayValue(s.fields[k], p.fields[k]), q.fields[k])
        == OverlayValue(s.fields[k], OverlayValue(p.fields[k], q.fields[k]))
    ensures k in Overlay(s, Overlay(p, q)).fields
    ensures Overlay(Overlay(s, p), q).fields[k] == Overlay(s, Overlay(p, q)).fields[k]
  {
    OverlayAt(Overlay(s, p), q, k);
    if k in Overlay(s, p).fields { OverlayAt(s, p, k); }
    if k in Overlay(p, q).fields { OverlayAt(p, q, k); }
    if k in Overlay(s, Overlay(p, q)).fields { OverlayAt(s, Overlay(p, q), k); }
  }

  lemma {:induction false} OverlayIdempotent(p: Message)
    ensures Overlay(p, p) == p
    decreases p
  {
    forall k | k in p.fields
      ensures OverlayValue(p.fields[k], p.fields[k]) == p.fields[k]
    {
      if p.fields[k].Sub? { OverlayIdempotent(p.fields[k].message); }
    }
    assert Overlay(p, p).fields == p.fields;
  }

  /** Two patches that carry the same value at every leaf they share. */
  ghost predicate Agree(p: Message, q: Message) {
    forall path :: Lookup(p, path).Some? && Lookup(q, path).Some? ==> Lookup(p, path) == Lookup(q, path)
  }

  lemma {:induction false} AgreeBelow(p: Message, q: Message, k: string)
    requires Agree(p, q) && k in p.fields && k in q.fields
    ensures p.fields[k].Sub? && q.fields[k].Sub? ==> Agree(p.fields[k].message, q.fields[k].message)
    ensures !p.fields[k].Sub? && !q.fields[k].Sub? ==> p.fields[k] == q.fields[k]
  {
    var a, b := p.fields[k], q.fields[k];
    if a.Sub? && b.Sub? {
      forall path | Lookup(a.message, path).Some? && Lookup(b.message, path).Some?
        ensures Lookup(a.message, path) == Lookup(b.message, path)
      {
        var full := [k] + path;
        assert full[1..] == path;
        assert Lookup(p, full) == Lookup(a.message, path);
        assert Lookup(q, full) == Lookup(b.message, path);
      }
    } else if !a.Sub? && !b.Sub? {
      assert Lookup(p, [k]) == Some(a) && Lookup(q, [k]) == Some(b);
    }
  }

  lemma {:induction false} AgreementCommutes(schema: Schema, name: string, p: Message, q: Message)
    requires WellTyped(schema, name, p) && WellTyped(schema, name, q)
    requires Agree(p, q)
    ensures Overlay(p, q) == Overlay(q, p)
    decreases p
  {
    var l, r := Overlay(p, q).fields, Overlay(q, p).fields;
    forall k | k in l
      ensures l[k] == r[k]
    {
      OverlayAt(p, q, k);
      OverlayAt(q, p, k);
      if k in p.fields && k in q.fields {
        FitsAt(schema, name, p, k);
        FitsAt(schema, name, q, k);
        AgreeBelow(p, q, k);
        if p.fields[k].Sub? {
          AgreementCommutes(schema, schema[name][k].name, p.fields[k].message, q.fields[k].message);
        }
      }
    }
    assert l == r;
  }
}
