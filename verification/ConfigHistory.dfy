/** Concurrent edits of one client's config: the stored row and its whole history
    (internal/storage/state.go and the patch handler in internal/handlers/admin). */
module ConfigHistory {
  import opened Wrappers
  import opened ConfigTree
  import opened ConfigPatch
  import opened Sorting

  datatype Row = Row(config: Message, version: nat, touched: map<string, int>)

  datatype Outcome = NothingToDo | Conflict(fields: seq<string>) | SavedAs(version: nat)

  const NO_ROW := Row(FRESH, 0, map[])

  ghost function Saved(row: Row, p: Message): Row {
    Row(Patched(row.config, p), row.version + 1, Marked(row.touched, PathNames(p), row.version + 1))
  }

  /** A whole-config save bumps the version and leaves the marks of touched fields alone. */
  ghost function Pushed(row: Row, config: Message): Row {
    Row(config, row.version + 1, row.touched)
  }

  /** The edits of a patch that conflict with later patch saves. */
  ghost function Clash(names: set<string>, touched: map<string, int>, since: int): set<string> {
    set s | s in names && since > 0 && s in touched && touched[s] > since
  }

  /** The client_configs row of one client. */
  class ConfigRow {
    var present: bool
    var config: Message
    var version: nat
    var touched: map<string, int>

    ghost function State(): Row
      reads this
    {
      if present then Row(config, version, touched) else NO_ROW
    }

    constructor ()
      ensures State() == NO_ROW
    {
      present, config, version, touched := false, FRESH, 0, map[];
    }

    method GetClientConfig() returns (row: Row)
      ensures row == State()
    {
      row := if present then Row(config, version, touched) else NO_ROW;
    }

    /** Rewrites all the marks of a stored row at once. */
    method UpdateTouched(marks: map<string, int>)
      requires present
      modifies this`touched
      ensures State() == old(State()).(touched := marks)
    {
      touched := marks;
    }

    /** Stores a whole config under the next version. */
    method Upsert(newConfig: Message) returns (v: nat)
      modifies this
      ensures State() == Pushed(old(State()), newConfig)
      ensures present && v == old(State()).version + 1
    {
      if !present { version, touched := 0, map[]; }
      present, config, version := true, newConfig, version + 1;
      v := version;
    }

    /** Applies one editor's patch, opened at version `since`: three statements, here with
        nothing in between. What happens when others come in between is told further down. */
    method SavePatch(patch: Message, since: int, ghost schema: Schema) returns (o: Outcome)
      requires Config(schema, patch)
      modifies this
      ensures Decided(old(State()), patch, since, o, State())
    {
      var row := GetClientConfig();
      var next;
      o, next := Decide(row, patch, since, schema);
      if o.SavedAs? {
        var v := Upsert(next.config);
        UpdateTouched(next.touched);
        o := SavedAs(v);
      }
    }
  }

  /** What becomes of a patch save: refused with the reason, or saved as the next version. */
  ghost predicate Decided(row: Row, patch: Message, since: int, o: Outcome, next: Row) {
    var names := PathNames(patch);
    var clash := Clash(names, row.touched, since);
    if names == {} then o == NothingToDo && next == row
    else if clash != {} then o.Conflict? && (set s | s in o.fields) == clash && next == row
    else next == Saved(row, patch) && o == SavedAs(next.version)
  }

  method Decide(row: Row, patch: Message, since: int, ghost schema: Schema) returns (o: Outcome, next: Row)
    requires Config(schema, patch)
    ensures Decided(row, patch, since, o, next)
  {
    var paths, clash := Review(patch, row.touched, since, schema);
    next := row;
    if paths == [] { return NothingToDo, row; }
    if clash != [] { return Conflict(clash), row; }
    var merged := Apply(Some(row.config), Some(patch), schema);
    var marks := Touch(row.touched, paths, row.version + 1);
    next := Row(merged.value, row.version + 1, marks);
    o := SavedAs(row.version + 1);
  }

  /** The fields a patch edits, and those of them that were touched meanwhile. */
  method Review(patch: Message, marks: map<string, int>, since: int, ghost schema: Schema)
    returns (paths: seq<string>, clash: seq<string>)
    requires Config(schema, patch)
    ensures (set s | s in paths) == PathNames(patch)
    ensures (set s | s in clash) == Clash(PathNames(patch), marks, since)
    ensures paths == [] <==> PathNames(patch) == {}
    ensures clash == [] <==> Clash(PathNames(patch), marks, since) == {}
  {
    paths := Paths(Some(patch), schema);
    clash := Conflicts(paths, marks, since);
    if paths != [] { assert paths[0] in PathNames(patch); }
    if clash != [] { assert clash[0] in clash; assert clash[0] in Clash(PathNames(patch), marks, since); }
  }

  // ---- what one save does -------------------------------------------------------

  /** Patching overlays the edits, keeps the stored type, and takes the version
      number of the patch if it carries one, else the stored one, else 1. */
  lemma {:induction false} PatchedShape(schema: Schema, s: Message, p: Message)
    requires Config(schema, s) && Config(schema, p)
    ensures Config(schema, Patched(s, p))
    ensures Core(Patched(s, p)) == Overlay(Core(s), Core(p))
    ensures TypeOf(Patched(s, p)) == TypeOf(s)
    ensures VerOf(Patched(s, p)) ==
      if VerOf(p).Some? then VerOf(p) else if VerOf(s).Some? then VerOf(s) else Some(Scalar("1"))
  {
    ClearMergeIsOverlay(schema, ROOT, s, p);
    ServiceFields(schema, s, p);
    PatchedTyped(schema, s, p);
    PatchedCore(s, p);
  }

  lemma {:induction false} ServiceFields(schema: Schema, s: Message, p: Message)
    requires Config(schema, s) && Config(schema, p)
    ensures "ver" in Overlay(s, p).fields <==> VerOf(s).Some? || VerOf(p).Some?
    ensures "ver" in Overlay(s, p).fields ==>
      Some(Overlay(s, p).fields["ver"]) == if VerOf(p).Some? then VerOf(p) else VerOf(s)
  {
    FitsWhere(schema, s, "ver");
    FitsWhere(schema, p, "ver");
    if "ver" in Overlay(s, p).fields { OverlayAt(s, p, "ver"); }
  }

  lemma {:induction false} PatchedTyped(schema: Schema, s: Message, p: Message)
    requires Config(schema, s) && Config(schema, p)
    requires Merged(Cleared(s, p), p) == Overlay(s, p)
    ensures Config(schema, Patched(s, p))
  {
    OverlayWellTyped(schema, ROOT, s, p);
    FitsWhere(schema, s, "type");
    var o, r := Overlay(s, p), Patched(s, p);
    forall k | k in r.fields
      ensures k in schema[ROOT] && Fits(schema, schema[ROOT][k], r.fields[k])
    {
      if k in o.fields { FitsAt(schema, ROOT, o, k); }
    }
  }

  lemma {:induction false} CoreAt(m: Message, k: string)
    ensures k in Core(m).fields <==> k in m.fields && k != "type" && k != "ver"
    ensures k in Core(m).fields ==> Core(m).fields[k] == m.fields[k]
  {}

  lemma {:induction false} PatchedAt(s: Message, p: Message, k: string)
    requires k != "type" && k != "ver"
    ensures k in Patched(s, p).fields <==> k in Merged(Cleared(s, p), p).fields
    ensures k in Patched(s, p).fields ==> Patched(s, p).fields[k] == Merged(Cleared(s, p), p).fields[k]
  {}

  lemma {:induction false} OverlayKeys(s: Message, p: Message, k: string)
    ensures k in Overlay(s, p).fields <==> k in s.fields || k in p.fields
  {}

  lemma {:induction false} PatchedCore(s: Message, p: Message)
    requires Merged(Cleared(s, p), p) == Overlay(s, p)
    ensures Core(Patched(s, p)) == Overlay(Core(s), Core(p))
  {
    var l, m := Core(Patched(s, p)).fields, Overlay(Core(s), Core(p)).fields;
    forall k
      ensures k in l <==> k in m
      ensures k in m ==> l[k] == m[k]
    {
      PatchedCoreAt(s, p, k);
    }
    assert l == m;
  }

  lemma {:induction false} PatchedCoreAt(s: Message, p: Message, k: string)
    requires Merged(Cleared(s, p), p) == Overlay(s, p)
    ensures k in Core(Patched(s, p)).fields <==> k in Overlay(Core(s), Core(p)).fields
    ensures k in Overlay(Core(s), Core(p)).fields ==>
      Core(Patched(s, p)).fields[k] == Overlay(Core(s), Core(p)).fields[k]
  {
    CoreAt(Patched(s, p), k);
    CoreAt(s, k);
    CoreAt(p, k);
    OverlayKeys(Core(s), Core(p), k);
    OverlayKeys(s, p, k);
    if k != "type" && k != "ver" { PatchedAt(s, p, k); }
    if k in Overlay(Core(s), Core(p)).fields {
      OverlayAt(Core(s), Core(p), k);
      OverlayAt(s, p, k);
    }
  }

  lemma {:induction false} FitsWhere(schema: Schema, m: Message, k: string)
    requires Config(schema, m)
    ensures k in m.fields && k in {"type", "ver"} ==> m.fields[k].Scalar?
  {
    if k in m.fields { FitsAt(schema, ROOT, m, k); }
  }

  ghost function TypeOf(m: Message): Option<Value> {
    if "type" in m.fields then Some(m.fields["type"]) else None
  }

  ghost function VerOf(m: Message): Option<Value> {
    if "ver" in m.fields then Some(m.fields["ver"]) else None
  }

  lemma {:induction false} SameMessage(a: Message, b: Message)
    requires Core(a) == Core(b) && TypeOf(a) == TypeOf(b) && VerOf(a) == VerOf(b)
    ensures a == b
  {
    forall k
      ensures k in a.fields <==> k in b.fields
      ensures k in a.fields ==> a.fields[k] == b.fields[k]
    {
      if k != "type" && k != "ver" {
        assert k in a.fields <==> k in Core(a).fields;
        assert k in b.fields <==> k in Core(b).fields;
        assert k in a.fields ==> a.fields[k] == Core(a).fields[k];
        assert k in b.fields ==> b.fields[k] == Core(b).fields[k];
      }
    }
    assert a.fields == b.fields;
  }

  /** After a save every touched leaf holds the patch's value and every other leaf its own. */
  lemma {:induction false} PatchedFrames(schema: Schema, s: Message, p: Message, path: seq<string>)
    requires Config(schema, s) && Config(schema, p)
    ensures Lookup(Core(Patched(s, p)), path) ==
      if path in Touched(p) then Lookup(Core(p), path) else Lookup(Core(s), path)
    ensures path in Touched(Patched(s, p)) <==> path in Touched(s) || path in Touched(p)
  {
    PatchedShape(schema, s, p);
    CoreTyped(schema, s);
    CoreTyped(schema, p);
    OverlayLookup(schema, ROOT, Core(s), Core(p), path);
    LookupFindsLeaves(Core(p), path);
    LookupFindsLeaves(Core(s), path);
    LookupFindsLeaves(Core(Patched(s, p)), path);
  }

  /** The first patch of a client without a config is laid over nothing: the result has version
      number 1 unless the patch sets one, no type, and exactly the patch's edits. */
  lemma {:induction false} FirstConfig(schema: Schema, p: Message)
    requires Config(schema, p)
    ensures var first := Patched(FRESH, p);
      && VerOf(first) == (if VerOf(p).Some? then VerOf(p) else Some(Scalar("1"))) && TypeOf(first) == None
      && Touched(first) == Touched(p)
  {
    assert Config(schema, FRESH);
    PatchedShape(schema, FRESH, p);
    forall path ensures path in Touched(Patched(FRESH, p)) <==> path in Touched(p) {
      PatchedFrames(schema, FRESH, p, path);
      LeafAt(Core(FRESH), path);
    }
  }

  lemma {:induction false} PatchTwice(schema: Schema, s: Message, p: Message)
    requires Config(schema, s) && Config(schema, p)
    ensures Patched(Patched(s, p), p) == Patched(s, p)
  {
    var once := Patched(s, p);
    PatchedShape(schema, s, p);
    PatchedShape(schema, once, p);
    CoreTyped(schema, s);
    CoreTyped(schema, p);
    OverlayAssociative(schema, ROOT, Core(s), Core(p), Core(p));
    OverlayIdempotent(Core(p));
    SameMessage(Patched(once, p), once);
  }

  // ---- when two saves commute ---------------------------------------------------------

  /** Two patches that do not set the config's version number to different values. */
  ghost predicate VerAgree(p: Message, q: Message) {
    VerOf(p).Some? && VerOf(q).Some? ==> VerOf(p) == VerOf(q)
  }

  /** The order of two saves is invisible exactly when they agree on what both set. */
  lemma {:induction false} SavesCommute(schema: Schema, s: Message, p: Message, q: Message)
    requires Config(schema, s) && Config(schema, p) && Config(schema, q)
    ensures Patched(Patched(s, p), q) == Patched(Patched(s, q), p) <==>
      Agree(Core(p), Core(q)) && VerAgree(p, q)
  {
    PatchedShape(schema, s, p);
    PatchedShape(schema, s, q);
    PatchedShape(schema, Patched(s, p), q);
    PatchedShape(schema, Patched(s, q), p);
    CoreTyped(schema, s);
    CoreTyped(schema, p);
    CoreTyped(schema, q);
    var cs, cp, cq := Core(s), Core(p), Core(q);
    var pq, qp := Patched(Patched(s, p), q), Patched(Patched(s, q), p);
    OverlayAssociative(schema, ROOT, cs, cp, cq);
    OverlayAssociative(schema, ROOT, cs, cq, cp);
    if Agree(cp, cq) && VerAgree(p, q) {
      AgreementCommutes(schema, ROOT, cp, cq);
      SameMessage(pq, qp);
    }
    if pq == qp {
      OverlayWellTyped(schema, ROOT, cs, cp);
      OverlayWellTyped(schema, ROOT, cs, cq);
      forall path | Lookup(cp, path).Some? && Lookup(cq, path).Some?
        ensures Lookup(cp, path) == Lookup(cq, path)
      {
        OverlayLookup(schema, ROOT, Overlay(cs, cp), cq, path);
        OverlayLookup(schema, ROOT, Overlay(cs, cq), cp, path);
      }
    }
  }

  lemma {:induction false} DisjointAgree(p: Message, q: Message)
    requires PathNames(p) !! PathNames(q)
    ensures Agree(Core(p), Core(q))
  {
    forall path | Lookup(Core(p), path).Some?
      ensures Lookup(Core(q), path).None?
    {
      LookupFindsLeaves(Core(p), path);
      LookupFindsLeaves(Core(q), path);
      assert Render(path) in PathNames(p);
      assert path in Touched(q) ==> Render(path) in PathNames(q);
    }
  }

  // ---- whole histories ---------------------------------------------------------------

  datatype Step = Patch(p: Message) | Push(config: Message)

  ghost function Apply1(row: Row, step: Step): Row {
    match step
    case Patch(p) => Saved(row, p)
    case Push(config) => Pushed(row, config)
  }

  ghost function Run(row: Row, steps: seq<Step>): Row {
    if steps == [] then row else Apply1(Run(row, steps[..|steps| - 1]), steps[|steps| - 1])
  }

  /** No mark is newer than the row itself. */
  ghost predicate Sound(row: Row) {
    forall s :: s in row.touched ==> row.touched[s] <= row.version
  }

  ghost predicate Touches(steps: seq<Step>, i: nat, s: string) {
    i < |steps| && steps[i].Patch? && s in PathNames(steps[i].p)
  }

  /** Some step from j on touched the field. */
  ghost predicate TouchedSince(steps: seq<Step>, j: nat, s: string) {
    exists i: nat :: j <= i && Touches(steps, i, s)
  }

  lemma {:induction false} TouchedSinceNext(steps: seq<Step>, j: nat, s: string)
    requires steps != []
    ensures var n := |steps| - 1;
      TouchedSince(steps, j, s) <==> TouchedSince(steps[..n], j, s) || (j <= n && Touches(steps, n, s))
  {
    var n := |steps| - 1;
    if i: nat :| j <= i && Touches(steps, i, s) {
      assert i == n || Touches(steps[..n], i, s);
    }
    if i: nat :| j <= i && Touches(steps[..n], i, s) {
      assert Touches(steps, i, s);
    }
  }

  lemma {:induction false} RunSound(row: Row, steps: seq<Step>)
    requires Sound(row)
    ensures Sound(Run(row, steps)) && Run(row, steps).version == row.version + |steps|
  {
    if steps == [] {
    } else {
      RunSound(row, steps[..|steps| - 1]);
    }
  }

  /** After any history a mark is newer than version base + j exactly when one of the
      patches saved from then on touched the field. Whole-config saves leave no mark. */
  lemma {:induction false} MarksAreLastTouches(row: Row, steps: seq<Step>, j: nat, s: string)
    requires Sound(row) && j <= |steps|
    ensures s in Run(row, steps).touched && Run(row, steps).touched[s] > row.version + j
      <==> TouchedSince(steps, j, s)
    decreases steps
  {
    RunSound(row, steps);
    if j == |steps| {
      assert !TouchedSince(steps, j, s);
    } else {
      var n := |steps| - 1;
      RunSound(row, steps[..n]);
      MarksAreLastTouches(row, steps[..n], j, s);
      TouchedSinceNext(steps, j, s);
    }
  }

  /** The reported conflicts are exactly the fields of the patch that some patch saved
      since the editor was opened has touched. */
  lemma {:induction false} ConflictsExact(row: Row, steps: seq<Step>, j: nat, names: set<string>, s: string)
    requires Sound(row) && j <= |steps| && row.version + j > 0
    ensures s in Clash(names, Run(row, steps).touched, row.version + j) <==>
      s in names && TouchedSince(steps, j, s)
  {
    MarksAreLastTouches(row, steps, j, s);
  }

  ghost predicate PatchesOnly(schema: Schema, steps: seq<Step>) {
    forall i :: 0 <= i < |steps| ==> steps[i].Patch? && Config(schema, steps[i].p)
  }

  lemma {:induction false} RunConfig(schema: Schema, row: Row, steps: seq<Step>)
    requires Config(schema, row.config) && PatchesOnly(schema, steps)
    ensures Config(schema, Run(row, steps).config)
  {
    if steps == [] {
    } else {
      var n := |steps| - 1;
      RunConfig(schema, row, steps[..n]);
      PatchedShape(schema, Run(row, steps[..n]).config, steps[n].p);
    }
  }

  /** The version number set by the last of these patches that sets one. */
  ghost function LastVer(steps: seq<Step>): Option<Value> {
    if steps == [] then None
    else
      var x := steps[|steps| - 1];
      if x.Patch? && VerOf(x.p).Some? then VerOf(x.p) else LastVer(steps[..|steps| - 1])
  }

  lemma {:induction false} RunServiceFields(schema: Schema, row: Row, steps: seq<Step>)
    requires Config(schema, row.config) && PatchesOnly(schema, steps)
    ensures TypeOf(Run(row, steps).config) == TypeOf(row.config)
    ensures VerOf(Run(row, steps).config) ==
      if LastVer(steps).Some? then LastVer(steps)
      else if VerOf(row.config).Some? || steps == [] then VerOf(row.config) else Some(Scalar("1"))
  {
    if steps == [] {
    } else {
      var n := |steps| - 1;
      RunServiceFields(schema, row, steps[..n]);
      RunConfig(schema, row, steps[..n]);
      PatchedShape(schema, Run(row, steps[..n]).config, steps[n].p);
    }
  }

  /** Optimistic edits are serialisable: a patch that reports no conflict with the saves
      made since its editor was opened ends exactly where saving it first, on the
      config it was written against, and replaying those saves would have ended, unless
      it sets a version number and the last of them to set one set another. */
  lemma {:induction false} EditsSerialisable(schema: Schema, base: Row, steps: seq<Step>, q: Message)
    requires Sound(base) && base.version > 0 && Config(schema, base.config)
    requires PatchesOnly(schema, steps) && Config(schema, q)
    requires Clash(PathNames(q), Run(base, steps).touched, base.version) == {}
    ensures Patched(Run(base, steps).config, q) == Run(Saved(base, q), steps).config <==>
      VerOf(q).None? || LastVer(steps).None? || LastVer(steps) == VerOf(q)
  {
    NoClashIsDisjoint(base, steps, q);
    DisjointSerialise(schema, base, steps, q);
    RunConfig(schema, base, steps);
    PatchedShape(schema, Run(base, steps).config, q);
    PatchedShape(schema, base.config, q);
    RunServiceFields(schema, base, steps);
    RunServiceFields(schema, Saved(base, q), steps);
    var late, early := Patched(Run(base, steps).config, q), Run(Saved(base, q), steps).config;
    if VerOf(late) == VerOf(early) { SameMessage(late, early); }
  }

  lemma {:induction false} NoClashIsDisjoint(base: Row, steps: seq<Step>, q: Message)
    requires Sound(base) && base.version > 0
    requires forall i :: 0 <= i < |steps| ==> steps[i].Patch?
    requires Clash(PathNames(q), Run(base, steps).touched, base.version) == {}
    ensures forall i :: 0 <= i < |steps| ==> PathNames(steps[i].p) !! PathNames(q)
  {
    forall i, s | 0 <= i < |steps| && s in PathNames(steps[i].p)
      ensures s !in PathNames(q)
    {
      ConflictsExact(base, steps, 0, PathNames(q), s);
      assert Touches(steps, i, s);
    }
  }

  lemma {:induction false} DisjointSerialise(schema: Schema, base: Row, steps: seq<Step>, q: Message)
    requires Config(schema, base.config) && PatchesOnly(schema, steps) && Config(schema, q)
    requires forall i :: 0 <= i < |steps| ==> PathNames(steps[i].p) !! PathNames(q)
    ensures Core(Run(Saved(base, q), steps).config) == Overlay(Core(Run(base, steps).config), Core(q))
    decreases steps
  {
    PatchedShape(schema, base.config, q);
    if steps == [] {
    } else {
      var n := |steps| - 1;
      var p := steps[n].p;
      var before, early := Run(base, steps[..n]).config, Run(Saved(base, q), steps[..n]).config;
      RunConfig(schema, base, steps[..n]);
      RunConfig(schema, Saved(base, q), steps[..n]);
      PatchedShape(schema, before, p);
      PatchedShape(schema, early, p);
      DisjointSerialise(schema, base, steps[..n], q);
      OverlaysSwap(schema, before, p, q);
    }
  }

  lemma {:induction false} OverlaysSwap(schema: Schema, s: Message, p: Message, q: Message)
    requires Config(schema, s) && Config(schema, p) && Config(schema, q) && PathNames(p) !! PathNames(q)
    ensures Overlay(Overlay(Core(s), Core(p)), Core(q)) == Overlay(Overlay(Core(s), Core(q)), Core(p))
  {
    CoreTyped(schema, s);
    CoreTyped(schema, p);
    CoreTyped(schema, q);
    DisjointAgree(p, q);
    AgreementCommutes(schema, ROOT, Core(p), Core(q));
    OverlayAssociative(schema, ROOT, Core(s), Core(p), Core(q));
    OverlayAssociative(schema, ROOT, Core(s), Core(q), Core(p));
  }

  lemma {:induction false} PushForgets(a: Row, b: Row, steps: seq<Step>)
    requires exists i :: 0 <= i < |steps| && steps[i].Push?
    ensures Run(a, steps).config == Run(b, steps).config
  {
    var n := |steps| - 1;
    if !steps[n].Push? {
      var i :| 0 <= i < |steps| && steps[i].Push?;
      assert steps[..n][i].Push?;
      PushForgets(a, b, steps[..n]);
    }
  }

  /** With a whole-config save among the later saves, replaying them forgets the patch, so it
      serialises if and only if it changes nothing in the present config. */
  lemma {:induction false} EditsAcrossPush(base: Row, steps: seq<Step>, q: Message)
    requires exists i :: 0 <= i < |steps| && steps[i].Push?
    ensures Patched(Run(base, steps).config, q) == Run(Saved(base, q), steps).config <==>
      Patched(Run(base, steps).config, q) == Run(base, steps).config
  {
    PushForgets(Saved(base, q), base, steps);
  }

  // ---- overlapping saves, statement by statement -----------------------------------------

  /** A patch save under way: the patch, the fields it edits, what it made of the row it read
      (the config, the marks, and the version they are for), and whether the config is written. */
  datatype Save = Save(patch: Message, names: set<string>, next: Row, written: bool)

  ghost function Draft(row: Row, p: Message): Save { Save(p, PathNames(p), Saved(row, p), false) }

  /** The row, the saves under way, and the version under which each field was really last
      patched, which is what the marks are meant to say. */
  datatype Desk = Desk(row: Row, saves: map<int, Save>, landed: map<string, int>)

  datatype Statement =
    | Read(save: int, patch: Message, since: int)
    | WriteConfig(save: int)
    | WriteMarks(save: int)
    | WriteWhole(config: Message)

  ghost predicate Accepts(row: Row, patch: Message, since: int) {
    PathNames(patch) != {} && Clash(PathNames(patch), row.touched, since) == {}
  }

  /** A save whose config goes in with this statement. */
  ghost predicate Lands(d: Desk, s: Statement) { s.WriteConfig? && Unwritten(d, s.save) }

  ghost predicate Unwritten(d: Desk, k: int) { k in d.saves && !d.saves[k].written }

  ghost function Opened(d: Desk, k: int, p: Message, since: int): Desk {
    if k in d.saves || !Accepts(d.row, p, since) then d else d.(saves := d.saves[k := Draft(d.row, p)])
  }

  /** Config and marks are made from the row the save read, whatever has become of it. */
  ghost function Landed(d: Desk, k: int): Desk {
    if !Unwritten(d, k) then d
    else
      var w := d.saves[k];
      Desk(Pushed(d.row, w.next.config), d.saves[k := w.(written := true)],
        Marked(d.landed, w.names, d.row.version + 1))
  }

  ghost function Closed(d: Desk, k: int): Desk {
    if k !in d.saves || !d.saves[k].written then d
    else Desk(d.row.(touched := d.saves[k].next.touched), d.saves - {k}, d.landed)
  }

  ghost function Advance(d: Desk, s: Statement): Desk {
    match s
    case Read(k, p, since) => Opened(d, k, p, since)
    case WriteConfig(k) => Landed(d, k)
    case WriteMarks(k) => Closed(d, k)
    case WriteWhole(config) => d.(row := Pushed(d.row, config))
  }

  ghost function AdvanceAll(d: Desk, all: seq<Statement>): Desk {
    if all == [] then d else Advance(AdvanceAll(d, all[..|all| - 1]), all[|all| - 1])
  }

  ghost predicate Concerns(s: Statement, k: int) { !s.WriteWhole? && s.save == k }

  ghost predicate LeaveAlone(all: seq<Statement>, k: int) {
    forall i :: 0 <= i < |all| ==> !Concerns(all[i], k)
  }

  ghost predicate StatementTyped(schema: Schema, s: Statement) {
    match s
    case Read(_, p, _) => Config(schema, p)
    case WriteWhole(config) => Config(schema, config)
    case _ => true
  }

  ghost predicate DeskTyped(schema: Schema, d: Desk) {
    && Config(schema, d.row.config)
    && forall k :: k in d.saves ==> Config(schema, d.saves[k].patch) && Config(schema, d.saves[k].next.config)
  }

  lemma {:induction false} AdvanceAllTyped(schema: Schema, d: Desk, all: seq<Statement>)
    requires DeskTyped(schema, d) && forall i :: 0 <= i < |all| ==> StatementTyped(schema, all[i])
    ensures DeskTyped(schema, AdvanceAll(d, all))
  {
    if all == [] {
    } else {
      var n := |all| - 1;
      AdvanceAllTyped(schema, d, all[..n]);
      AdvanceTyped(schema, AdvanceAll(d, all[..n]), all[n]);
    }
  }

  lemma {:induction false} AdvanceTyped(schema: Schema, d: Desk, s: Statement)
    requires DeskTyped(schema, d) && StatementTyped(schema, s)
    ensures DeskTyped(schema, Advance(d, s))
  {
    if s.Read? && Accepts(d.row, s.patch, s.since) { PatchedShape(schema, d.row.config, s.patch); }
  }

  lemma {:induction false} SaveWaits(d: Desk, all: seq<Statement>, k: int)
    requires k in d.saves && LeaveAlone(all, k)
    ensures k in AdvanceAll(d, all).saves && AdvanceAll(d, all).saves[k] == d.saves[k]
  {
    if all == [] {
    } else {
      SaveWaits(d, all[..|all| - 1], k);
      assert !Concerns(all[|all| - 1], k);
    }
  }

  lemma {:induction false} WriteAlone(d: Desk, k: int)
    requires k in d.saves && !d.saves[k].written
    ensures var w := d.saves[k];
      Closed(Landed(d, k), k) ==
        Desk(Row(w.next.config, d.row.version + 1, w.next.touched), d.saves - {k},
          Marked(d.landed, w.names, d.row.version + 1))
  {
    var w := d.saves[k];
    assert d.saves[k := w.(written := true)] - {k} == d.saves - {k};
  }

  /** A save with nothing in between its statements is the atomic save. */
  lemma {:induction false} AloneIsSaved(d: Desk, k: int, p: Message, since: int)
    requires k !in d.saves && Accepts(d.row, p, since)
    ensures Closed(Landed(Opened(d, k, p, since), k), k) ==
      Desk(Saved(d.row, p), d.saves, Marked(d.landed, PathNames(p), d.row.version + 1))
  {
    var ready := Opened(d, k, p, since);
    ReadIs(d, k, p, since);
    WriteAlone(ready, k);
    assert (d.saves[k := Draft(d.row, p)]) - {k} == d.saves;
  }

  /** Whatever happens between the read and the write of a save, at every leaf the write
      gives what saving at that moment would have given if and only if the save edits the
      leaf or its stored value is still the one that was read. */
  lemma {:induction false} OverlapExact(schema: Schema, d: Desk, k: int, q: Message, since: int, mid: seq<Statement>,
      path: seq<string>)
    requires DeskTyped(schema, d) && Config(schema, q) && k !in d.saves && Accepts(d.row, q, since)
    requires LeaveAlone(mid, k) && forall i :: 0 <= i < |mid| ==> StatementTyped(schema, mid[i])
    ensures var found := AdvanceAll(Opened(d, k, q, since), mid);
      Lookup(Core(Landed(found, k).row.config), path) == Lookup(Core(Saved(found.row, q).config), path)
      <==> path in Touched(q) || Lookup(Core(d.row.config), path) == Lookup(Core(found.row.config), path)
  {
    var ready := Opened(d, k, q, since);
    AdvanceTyped(schema, d, Read(k, q, since));
    SaveWaits(ready, mid, k);
    AdvanceAllTyped(schema, ready, mid);
    PatchedFrames(schema, d.row.config, q, path);
    PatchedFrames(schema, AdvanceAll(ready, mid).row.config, q, path);
  }

  lemma {:induction false} ReadIs(d: Desk, k: int, p: Message, since: int)
    requires k !in d.saves && Accepts(d.row, p, since)
    ensures Opened(d, k, p, since) == d.(saves := d.saves[k := Draft(d.row, p)])
  {}

  /** Both saves read the row, then the first writes, then the second. */
  ghost function Overlapped(row: Row, p: Message, q: Message): Desk {
    OneThenTwo(Opened(Opened(Desk(row, map[], row.touched), 1, p, 0), 2, q, 0))
  }

  ghost function OneThenTwo(ready: Desk): Desk {
    Closed(Landed(Closed(Landed(ready, 1), 1), 2), 2)
  }

  lemma {:induction false} OverlappedIs(row: Row, p: Message, q: Message)
    requires PathNames(p) != {} && PathNames(q) != {}
    ensures Overlapped(row, p, q).row == Row(Draft(row, q).next.config, row.version + 2, Draft(row, q).next.touched)
  {
    BothRead(row, p, q);
    TwoWrites(row, row.touched, Draft(row, p), Draft(row, q));
  }

  lemma {:induction false} BothRead(row: Row, p: Message, q: Message)
    requires PathNames(p) != {} && PathNames(q) != {}
    ensures Opened(Opened(Desk(row, map[], row.touched), 1, p, 0), 2, q, 0)
      == Desk(row, map[1 := Draft(row, p), 2 := Draft(row, q)], row.touched)
  {
    var start, w := Desk(row, map[], row.touched), Draft(row, p);
    ReadIs(start, 1, p, 0);
    ReadIs(Desk(row, map[1 := w], row.touched), 2, q, 0);
  }

  lemma {:induction false} TwoWrites(row: Row, landed: map<string, int>, first: Save, second: Save)
    requires !first.written && !second.written
    ensures OneThenTwo(Desk(row, map[1 := first, 2 := second], landed)).row
        == Row(second.next.config, row.version + 2, second.next.touched)
  {
    var ready := Desk(row, map[1 := first, 2 := second], landed);
    WriteAlone(ready, 1);
    WriteAlone(Closed(Landed(ready, 1), 1), 2);
  }

  /** Two saves that read the same row. The result differs from saving one after the other
      exactly at the leaves only the first edits, unless it changed nothing there; and the
      marks that remain are the second's alone, one version too low. */
  lemma {:induction false} OverlappingSavesLoseEdits(schema: Schema, row: Row, p: Message, q: Message,
      path: seq<string>)
    requires Config(schema, row.config) && Config(schema, p) && Config(schema, q)
    requires PathNames(p) != {} && PathNames(q) != {}
    ensures Overlapped(row, p, q).row ==
      Row(Patched(row.config, q), row.version + 2, Marked(row.touched, PathNames(q), row.version + 1))
    ensures
      var end, serial := Overlapped(row, p, q).row.config, Saved(Saved(row, p), q).config;
      Lookup(Core(end), path) == Lookup(Core(serial), path) <==>
      (path in Touched(p) && path !in Touched(q) ==> Lookup(Core(row.config), path) == Lookup(Core(p), path))
  {
    OverlappedRow(row, p, q);
    LostLeaf(schema, row.config, p, q, path);
    SavedConfig(Saved(row, p), q);
    SavedConfig(row, p);
  }

  lemma {:induction false} SavedConfig(row: Row, p: Message)
    ensures Saved(row, p).config == Patched(row.config, p)
  {}

  lemma {:induction false} OverlappedRow(row: Row, p: Message, q: Message)
    requires PathNames(p) != {} && PathNames(q) != {}
    ensures Overlapped(row, p, q).row ==
      Row(Patched(row.config, q), row.version + 2, Marked(row.touched, PathNames(q), row.version + 1))
  {
    OverlappedIs(row, p, q);
  }

  lemma {:induction false} LostLeaf(schema: Schema, s: Message, p: Message, q: Message, path: seq<string>)
    requires Config(schema, s) && Config(schema, p) && Config(schema, q)
    ensures Lookup(Core(Patched(s, q)), path) == Lookup(Core(Patched(Patched(s, p), q)), path) <==>
      (path in Touched(p) && path !in Touched(q) ==> Lookup(Core(s), path) == Lookup(Core(p), path))
  {
    PatchedShape(schema, s, p);
    PatchedFrames(schema, s, p, path);
    PatchedFrames(schema, s, q, path);
    PatchedFrames(schema, Patched(s, p), q, path);
  }

  /** Two editors of a fresh config: the first one's field is gone. */
  lemma {:induction false} LostEditExample()
    ensures var p, q := Message(map["a" := Scalar("1")]), Message(map["b" := Scalar("2")]);
      && Lookup(Core(Overlapped(NO_ROW, p, q).row.config), ["a"]) == None
      && Lookup(Core(Saved(Saved(NO_ROW, p), q).config), ["a"]) == Some(Scalar("1"))
  {
    var schema := map[ROOT := map["type" := ScalarType, "ver" := ScalarType, "a" := ScalarType, "b" := ScalarType]];
    var p, q := Message(map["a" := Scalar("1")]), Message(map["b" := Scalar("2")]);
    ExampleTyped(schema, p, q);
    ExampleTouched(p, "a", "1");
    ExampleTouched(q, "b", "2");
    assert Render(["a"]) in PathNames(p) && Render(["b"]) in PathNames(q);
    OverlappedRow(NO_ROW, p, q);
    PatchedShape(schema, FRESH, p);
    PatchedFrames(schema, FRESH, q, ["a"]);
    PatchedFrames(schema, FRESH, p, ["a"]);
    PatchedFrames(schema, Patched(FRESH, p), q, ["a"]);
    SavedConfig(Saved(NO_ROW, p), q);
    SavedConfig(NO_ROW, p);
  }

  lemma {:induction false} ExampleTyped(schema: Schema, p: Message, q: Message)
    requires schema == map[ROOT := map["type" := ScalarType, "ver" := ScalarType, "a" := ScalarType, "b" := ScalarType]]
    requires p == Message(map["a" := Scalar("1")]) && q == Message(map["b" := Scalar("2")])
    ensures Config(schema, FRESH) && Config(schema, p) && Config(schema, q)
  {}

  lemma {:induction false} ExampleTouched(m: Message, name: string, value: string)
    requires m == Message(map[name := Scalar(value)]) && name != "type" && name != "ver"
    ensures [name] in Touched(m) && (forall path :: path in Touched(m) ==> path == [name])
    ensures Lookup(Core(m), [name]) == Some(Scalar(value)) && Lookup(Core(FRESH), [name]) == None
  {
    assert Core(m).fields == m.fields && "ver" in FRESH.fields;
    assert Tails(Scalar(value)) == {[]};
    forall path ensures path in Touched(m) <==> path == [name] {
      LeafAt(Core(m), path);
      assert path != [] ==> path == [path[0]] + path[1..];
      assert [name][0] == name && [name][1..] == [];
    }
    LookupFindsLeaves(Core(m), [name]);
  }

  // ---- what overlapping does to the marks ------------------------------------------------

  /** Versions bound all marks, and every save under way edits something. */
  ghost predicate DeskSound(d: Desk) {
    && (forall s :: s in d.landed ==> d.landed[s] <= d.row.version)
    && (forall k :: k in d.saves ==> d.saves[k].names != {})
  }

  ghost predicate NoneLands(d: Desk, all: seq<Statement>) {
    forall i :: 0 <= i < |all| ==> !Lands(AdvanceAll(d, all[..i]), all[i])
  }

  ghost predicate Grown(d: Desk, e: Desk) {
    && d.row.version <= e.row.version
    && (d.row.version == e.row.version ==> d.landed == e.landed)
    && forall s :: s in d.landed ==> s in e.landed && d.landed[s] <= e.landed[s]
  }

  lemma {:induction false} AdvanceGrows(d: Desk, s: Statement)
    requires DeskSound(d)
    ensures DeskSound(Advance(d, s)) && Grown(d, Advance(d, s))
    ensures !Lands(d, s) ==> Advance(d, s).landed == d.landed
    ensures Lands(d, s) ==> exists f :: f in Advance(d, s).landed && Advance(d, s).landed[f] == d.row.version + 1
  {
    if Lands(d, s) {
      var f :| f in d.saves[s.save].names;
      assert f in Advance(d, s).landed;
    }
  }

  lemma {:induction false} NoneLandsNext(d: Desk, all: seq<Statement>)
    requires all != []
    ensures var n := |all| - 1;
      NoneLands(d, all) <==> NoneLands(d, all[..n]) && !Lands(AdvanceAll(d, all[..n]), all[n])
  {
    var n := |all| - 1;
    assert forall i :: 0 <= i < n ==> all[..n][..i] == all[..i];
    if NoneLands(d, all[..n]) && !Lands(AdvanceAll(d, all[..n]), all[n]) {
      forall i | 0 <= i < |all| ensures !Lands(AdvanceAll(d, all[..i]), all[i]) {
        if i < n { assert !Lands(AdvanceAll(d, all[..n][..i]), all[..n][i]); }
      }
    }
    if NoneLands(d, all) {
      forall i | 0 <= i < n ensures !Lands(AdvanceAll(d, all[..n][..i]), all[..n][i]) {
        assert !Lands(AdvanceAll(d, all[..i]), all[i]);
      }
    }
  }

  lemma {:induction false} AdvanceAllGrows(d: Desk, all: seq<Statement>)
    requires DeskSound(d)
    ensures DeskSound(AdvanceAll(d, all)) && Grown(d, AdvanceAll(d, all))
    ensures NoneLands(d, all) ==> AdvanceAll(d, all).landed == d.landed
    ensures !NoneLands(d, all) ==>
      exists f :: f in AdvanceAll(d, all).landed && AdvanceAll(d, all).landed[f] > d.row.version
  {
    if all == [] {
    } else {
      var n := |all| - 1;
      var before := AdvanceAll(d, all[..n]);
      AdvanceAllGrows(d, all[..n]);
      AdvanceGrows(before, all[n]);
      NoneLandsNext(d, all);
      GrownTwice(d, before, AdvanceAll(d, all), d.row.version);
    }
  }

  lemma {:induction false} GrownTwice(d: Desk, e: Desk, g: Desk, v: nat)
    requires Grown(d, e) && Grown(e, g)
    ensures Grown(d, g)
    ensures (exists f :: f in e.landed && e.landed[f] > v) ==> (exists f :: f in g.landed && g.landed[f] > v)
  {}

  /** From marks that were right at version v: what a save of these fields, made for version
      v + 1 but landing after `found`, leaves beside what really landed. */
  lemma {:induction false} MarksCompare(was: map<string, int>, names: set<string>, v: nat, found: nat,
      wrote: map<string, int>, end: map<string, int>, quiet: bool)
    requires names != {} && v <= found && forall f :: f in was ==> was[f] <= v
    requires found == v ==> wrote == Marked(was, names, v + 1)
    requires forall f :: f in names ==> f in wrote && wrote[f] == found + 1
    requires forall f :: f in wrote ==> f in end && wrote[f] <= end[f]
    requires if quiet then end == wrote else exists f :: f in end && end[f] > found + 1
    ensures Marked(was, names, v + 1) == end <==> found == v && quiet
    ensures forall f :: f in names ==> f in end && end[f] > found
  {
    var marks := Marked(was, names, v + 1);
    assert forall f :: f in marks ==> marks[f] <= v + 1;
    var f :| f in names;
    assert f in wrote && wrote[f] == found + 1 && f in marks && marks[f] == v + 1;
    if !quiet {
      var g :| g in end && end[g] > found + 1;
      assert g in marks ==> marks[g] != end[g];
    }
  }

  /** Somebody who opened the editor at this version is not told that the field was patched since. */
  ghost predicate Missed(end: Desk, f: string, editor: nat) {
    f in end.landed && end.landed[f] > editor && f !in Clash({f}, end.row.touched, editor)
  }

  /** Who misses what, after a save of these fields made for version v + 1 with these marks. */
  ghost predicate MissedBy(end: Desk, was: map<string, int>, names: set<string>, v: nat) {
    forall f, editor: nat :: editor > 0 ==>
      (Missed(end, f, editor) <==>
        f in end.landed && editor < end.landed[f]
        && if f in names then v < editor else f in was ==> was[f] <= editor)
  }

  lemma {:induction false} MissedExactly(end: Desk, was: map<string, int>, names: set<string>, v: nat, f: string,
      editor: nat)
    requires end.row.touched == Marked(was, names, v + 1) && editor > 0
    ensures Missed(end, f, editor) <==>
      f in end.landed && editor < end.landed[f]
      && if f in names then v < editor else f in was ==> was[f] <= editor
  {
    assert f in Clash({f}, end.row.touched, editor) <==> f in end.row.touched && end.row.touched[f] > editor;
  }

  lemma {:induction false} MissedAll(end: Desk, was: map<string, int>, names: set<string>, v: nat)
    requires end.row.touched == Marked(was, names, v + 1)
    ensures MissedBy(end, was, names, v)
  {
    forall f, editor: nat | editor > 0
      ensures Missed(end, f, editor) <==>
        f in end.landed && editor < end.landed[f]
        && if f in names then v < editor else f in was ==> was[f] <= editor
    {
      MissedExactly(end, was, names, v, f, editor);
    }
  }

  /** A save from its read on: what it finds, what it leaves, and what its marks leave. */
  lemma {:induction false} SaveMoments(ready: Desk, k: int, before: seq<Statement>, after: seq<Statement>)
    requires k in ready.saves && !ready.saves[k].written && DeskSound(ready)
    requires LeaveAlone(before, k) && LeaveAlone(after, k)
    ensures var found := AdvanceAll(ready, before);
      var wrote := Landed(found, k);
      var last := AdvanceAll(wrote, after);
      && DeskSound(wrote) && wrote.row.version == found.row.version + 1 && Grown(ready, found)
      && wrote.landed == Marked(found.landed, ready.saves[k].names, found.row.version + 1)
      && Closed(last, k).row.touched == ready.saves[k].next.touched
      && Closed(last, k).landed == last.landed
  {
    SaveWaits(ready, before, k);
    AdvanceAllGrows(ready, before);
    var found := AdvanceAll(ready, before);
    assert Lands(found, WriteConfig(k));
    AdvanceGrows(found, WriteConfig(k));
    var wrote := Landed(found, k);
    SaveWaits(wrote, after, k);
  }

  /** The marks a save leaves are right if and only if its config found the version it had
      read and no other patch landed before its marks did. Whatever happened, a conflict on a
      field the save edits is missed exactly by editors opened after the version it read and
      before the version it, or a later patch, really got; a conflict on any other field by
      editors opened before the version it was really last patched, unless the mark the save
      had read already told them. */
  lemma {:induction false} MarksRightExactly(d: Desk, k: int, q: Message, since: int, before: seq<Statement>,
      after: seq<Statement>)
    requires k !in d.saves && Accepts(d.row, q, since) && DeskSound(d) && d.row.touched == d.landed
    requires LeaveAlone(before, k) && LeaveAlone(after, k)
    ensures var found := AdvanceAll(Opened(d, k, q, since), before);
      var wrote := Landed(found, k);
      var end := Closed(AdvanceAll(wrote, after), k);
      && (end.row.touched == end.landed <==> found.row.version == d.row.version && NoneLands(wrote, after))
      && (forall f :: f in PathNames(q) ==> f in end.landed && end.landed[f] > found.row.version)
      && MissedBy(end, d.landed, PathNames(q), d.row.version)
  {
    var ready := Opened(d, k, q, since);
    ReadIs(d, k, q, since);
    RightExactly(ready, k, before, after, d.row.version, PathNames(q));
    MissedAll(Closed(AdvanceAll(Landed(AdvanceAll(ready, before), k), after), k), d.landed, PathNames(q),
      d.row.version);
  }

  lemma {:induction false} RightExactly(ready: Desk, k: int, before: seq<Statement>, after: seq<Statement>, v: nat,
      names: set<string>)
    requires k in ready.saves && !ready.saves[k].written && DeskSound(ready)
    requires LeaveAlone(before, k) && LeaveAlone(after, k)
    requires v == ready.row.version && names == ready.saves[k].names
    requires ready.saves[k].next.touched == Marked(ready.landed, names, v + 1)
    ensures var found := AdvanceAll(ready, before);
      var wrote := Landed(found, k);
      var end := Closed(AdvanceAll(wrote, after), k);
      && (end.row.touched == end.landed <==> found.row.version == v && NoneLands(wrote, after))
      && end.row.touched == Marked(ready.landed, names, v + 1)
      && forall f :: f in names ==> f in end.landed && end.landed[f] > found.row.version
  {
    var found := AdvanceAll(ready, before);
    var wrote := Landed(found, k);
    var end := Closed(AdvanceAll(wrote, after), k);
    SaveMoments(ready, k, before, after);
    AdvanceAllGrows(wrote, after);
    MarksCompare(ready.landed, names, v, found.row.version, wrote.landed, end.landed, NoneLands(wrote, after));
  }

  /** What a statement saves, if it saves anything. */
  ghost function StepOf(before: Desk, s: Statement): Option<Step> {
    if Lands(before, s) then Some(Patch(before.saves[s.save].patch))
    else if s.WriteWhole? then Some(Push(s.config)) else None
  }

  ghost function Then(past: seq<Step>, next: Option<Step>): seq<Step> {
    if next.None? then past else past + [next.value]
  }

  /** What the statements of a run saved, in the order their configs went in. */
  ghost function HistoryOf(d: Desk, all: seq<Statement>): seq<Step> {
    if all == [] then []
    else Then(HistoryOf(d, all[..|all| - 1]), StepOf(AdvanceAll(d, all[..|all| - 1]), all[|all| - 1]))
  }

  /** Every config finds the version its save had read. */
  ghost predicate VersionsMatch(d: Desk, all: seq<Statement>) {
    forall i :: 0 <= i < |all| ==> VersionMatches(AdvanceAll(d, all[..i]), all[i])
  }

  ghost predicate VersionMatches(before: Desk, s: Statement) {
    Lands(before, s) ==> before.saves[s.save].next.version == before.row.version + 1
  }

  /** A save made for the next version was made from the present config. */
  ghost predicate Fresh(w: Save, row: Row) {
    && w.next.version <= row.version + 1 && w.names == PathNames(w.patch)
    && (w.next.version == row.version + 1 ==> w.next.config == Patched(row.config, w.patch))
  }

  ghost predicate Current(d: Desk) {
    forall k :: k in d.saves ==> Fresh(d.saves[k], d.row)
  }

  lemma {:induction false} DraftIsFresh(row: Row, p: Message)
    ensures Fresh(Draft(row, p), row)
  {}

  lemma {:induction false} StaysFresh(w: Save, row: Row, config: Message)
    requires Fresh(w, row)
    ensures Fresh(w, Pushed(row, config)) && Fresh(w.(written := true), Pushed(row, config))
    ensures forall marks :: Fresh(w, row.(touched := marks))
  {}

  lemma {:induction false} AdvanceCurrent(d: Desk, s: Statement)
    requires Current(d)
    ensures Current(Advance(d, s))
  {
    var e := Advance(d, s);
    forall k | k in e.saves
      ensures Fresh(e.saves[k], e.row)
    {
      if k in d.saves {
        StaysFresh(d.saves[k], d.row, e.row.config);
      } else {
        DraftIsFresh(d.row, s.patch);
      }
    }
  }

  lemma {:induction false} AdvanceAllCurrent(d: Desk, all: seq<Statement>)
    requires Current(d)
    ensures Current(AdvanceAll(d, all))
  {
    if all == [] {
    } else {
      AdvanceAllCurrent(d, all[..|all| - 1]);
      AdvanceCurrent(AdvanceAll(d, all[..|all| - 1]), all[|all| - 1]);
    }
  }

  lemma {:induction false} ReplayThen(row: Row, past: seq<Step>, next: Option<Step>)
    ensures Run(row, Then(past, next)) == if next.None? then Run(row, past) else Apply1(Run(row, past), next.value)
  {
    if next.Some? { assert (past + [next.value])[..|past|] == past; }
  }

  ghost predicate Replays(d: Desk, r: Row, exact: bool) {
    d.row.version == r.version && d.landed == r.touched && (exact ==> d.row.config == r.config)
  }

  lemma {:induction false} AdvanceReplays(d: Desk, s: Statement, r: Row, exact: bool)
    requires Current(d) && Replays(d, r, exact) && (exact ==> VersionMatches(d, s))
    ensures var x := StepOf(d, s); Replays(Advance(d, s), if x.None? then r else Apply1(r, x.value), exact)
  {
    match s
    case Read(_, _, _) =>
    case WriteMarks(_) =>
    case WriteWhole(_) =>
    case WriteConfig(k) => if Unwritten(d, k) { LandReplays(d, k, r, exact); }
  }

  lemma {:induction false} LandReplays(d: Desk, k: int, r: Row, exact: bool)
    requires Unwritten(d, k) && Replays(d, r, exact)
    requires var w := d.saves[k]; Fresh(w, d.row) && (exact ==> w.next.version == d.row.version + 1)
    ensures Replays(Landed(d, k), Saved(r, d.saves[k].patch), exact)
  {}

  /** In every run the real versions of last patches are those of the history replayed save
      by save; and if every config found the version its save had read, which a version
      check in the write would ensure, so is the stored config. */
  lemma {:induction false} VersionCheckSerialises(d: Desk, all: seq<Statement>)
    requires Current(d)
    ensures Replays(AdvanceAll(d, all), Run(d.row.(touched := d.landed), HistoryOf(d, all)), VersionsMatch(d, all))
  {
    if all == [] {
    } else {
      var n := |all| - 1;
      VersionCheckSerialises(d, all[..n]);
      AdvanceAllCurrent(d, all[..n]);
      var before := AdvanceAll(d, all[..n]);
      var past, row := HistoryOf(d, all[..n]), d.row.(touched := d.landed);
      VersionsMatchBefore(d, all);
      ReplayThen(row, past, StepOf(before, all[n]));
      AdvanceReplays(before, all[n], Run(row, past), VersionsMatch(d, all));
    }
  }

  lemma {:induction false} VersionsMatchBefore(d: Desk, all: seq<Statement>)
    requires all != []
    ensures var n := |all| - 1;
      VersionsMatch(d, all) ==> VersionsMatch(d, all[..n]) && VersionMatches(AdvanceAll(d, all[..n]), all[n])
  {
    var n := |all| - 1;
    if VersionsMatch(d, all) {
      forall i | 0 <= i < n
        ensures VersionMatches(AdvanceAll(d, all[..n][..i]), all[..n][i])
      {
        assert all[..n][..i] == all[..i];
        assert VersionMatches(AdvanceAll(d, all[..i]), all[i]);
      }
    }
  }
}
