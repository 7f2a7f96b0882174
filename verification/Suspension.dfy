/** Cutting and restoring branches of the invite tree
    (internal/storage/invites_tree.go, logins in internal/auth/auth.go). */
module Suspension {
  import opened Wrappers
  import opened Sorting
  import opened Sums
  import opened InviteTree

  datatype Role = Owner | Admin | User

  /** The three suspension columns of an admin row. */
  datatype Cut = Cut(at: nat, reason: string, root: int)

  const NOT_CUT := Cut(0, "", 0)

  datatype Account = Account(role: Role, cut: Cut)

  datatype CutError = NoSuchAdmin | CannotSuspendOwner

  datatype Panel = Panel(rows: map<int, Account>, sessions: map<string, int>)

  /** Ids are not zero, and a row that is not cut carries no trace of a cut. */
  ghost predicate WellKept(s: Panel) {
    && 0 !in s.rows
    && forall id :: id in s.rows ==>
      (s.rows[id].cut.at == 0 ==> s.rows[id].cut == NOT_CUT) && (s.rows[id].cut.at > 0 ==> s.rows[id].cut.root != 0)
  }

  ghost predicate Suspended(s: Panel, id: int) {
    id in s.rows && s.rows[id].cut.at > 0
  }

  ghost predicate Cuttable(s: Panel, r: int) {
    r in s.rows && s.rows[r].role != Owner
  }

  ghost function CutRows(rows: map<int, Account>, branch: set<int>, cut: Cut): map<int, Account> {
    map id | id in rows ::
      if id in branch && rows[id].cut.at == 0 && rows[id].role != Owner then rows[id].(cut := cut) else rows[id]
  }

  ghost function RestoredRows(rows: map<int, Account>, r: int): map<int, Account> {
    map id | id in rows :: if rows[id].cut.root == r then rows[id].(cut := NOT_CUT) else rows[id]
  }

  /** The rows a cut of this branch changes. */
  ghost function Hit(s: Panel, branch: set<int>): set<int> {
    set id | id in s.rows && id in branch && s.rows[id].cut.at == 0 && s.rows[id].role != Owner
  }

  ghost function Suspend(s: Panel, parent: Parents, r: int, now: nat, reason: string): Panel {
    if !Cuttable(s, r) then s
    else
      var branch := Subtree(parent, r);
      Dropped(s.(rows := CutRows(s.rows, branch, Cut(now, reason, r))), branch)
  }

  ghost function Dropped(s: Panel, branch: set<int>): Panel {
    s.(sessions := map sid | sid in s.sessions && s.sessions[sid] !in branch :: s.sessions[sid])
  }

  ghost function Restore(s: Panel, r: int): Panel {
    Panel(RestoredRows(s.rows, r), s.sessions)
  }

  /** The admins and admin_sessions tables. */
  class AdminTables {
    var rows: map<int, Account>
    var sessions: map<string, int>

    ghost function State(): Panel
      reads this
    {
      Panel(rows, sessions)
    }

    constructor ()
      ensures State() == Panel(map[], map[])
    {
      rows, sessions := map[], map[];
    }

    method UpdateBranch(branch: set<int>, cut: Cut) returns (affected: nat)
      modifies this`rows
      ensures rows == CutRows(old(rows), branch, cut)
      ensures affected == |Hit(old(State()), branch)|
    {
      var hit := set id | id in rows && id in branch && rows[id].cut.at == 0 && rows[id].role != Owner;
      assert hit == Hit(State(), branch);
      affected := |hit|;
      rows := map id | id in rows :: if id in hit then rows[id].(cut := cut) else rows[id];
    }

    method DeleteSessions(branch: set<int>)
      modifies this`sessions
      ensures State() == Dropped(old(State()), branch)
    {
      sessions := map sid | sid in sessions && sessions[sid] !in branch :: sessions[sid];
    }

    method CreateSession(sid: string, id: int)
      requires sid !in sessions
      modifies this`sessions
      ensures State() == OpenSession(old(State()), sid, id)
    {
      sessions := sessions[sid := id];
    }

    /** Cuts a branch and drops its sessions, two statements, here with nothing in between.
        Owners further down are left as they are. */
    method SuspendSubtree(root: int, reason: string, now: nat, parent: Parents)
      returns (r: Result<nat, CutError>)
      modifies this
      ensures State() == Suspend(old(State()), parent, root, now, reason)
      ensures r.Err? <==> !Cuttable(old(State()), root)
      ensures r.Err? ==> r.error == if root in old(rows) then CannotSuspendOwner else NoSuchAdmin
      ensures r.Ok? ==> r.value == |Hit(old(State()), Subtree(parent, root))|
    {
      if root !in rows { return Err(NoSuchAdmin); }
      if rows[root].role == Owner { return Err(CannotSuspendOwner); }
      var ids := InviteSubtree(parent, root);
      var branch := set id | id in ids;
      assert branch == Elements(ids) == Subtree(parent, root);
      var affected := UpdateBranch(branch, Cut(now, reason, root));
      DeleteSessions(branch);
      r := Ok(affected);
    }

    /** Lifts exactly the cuts made at this point. */
    method RestoreSubtree(root: int) returns (affected: nat)
      modifies this
      ensures State() == Restore(old(State()), root)
      ensures affected == |set id | id in old(rows) && old(rows)[id].cut.root == root|
    {
      affected := |set id | id in rows && rows[id].cut.root == root|;
      rows := map id | id in rows :: if rows[id].cut.root == root then rows[id].(cut := NOT_CUT) else rows[id];
    }

    /** Every request asks again whether the account behind its session is cut. */
    method Authenticate(sid: string) returns (admin: Option<int>)
      ensures admin == if sid in sessions && sessions[sid] in rows && !Suspended(State(), sessions[sid])
                       then Some(sessions[sid]) else None
    {
      if sid !in sessions || sessions[sid] !in rows { return None; }
      var cut := IsSuspended(sessions[sid]);
      if cut.Ok? && cut.value.0 { return None; }
      admin := Some(sessions[sid]);
    }

    method IsSuspended(id: int) returns (r: Result<(bool, string), CutError>)
      ensures r.Err? <==> id !in rows
      ensures r.Ok? ==> r.value == (Suspended(State(), id), rows[id].cut.reason)
    {
      if id !in rows { return Err(NoSuchAdmin); }
      r := Ok((rows[id].cut.at > 0, rows[id].cut.reason));
    }

    /** A session is opened only for an account that was not cut when it was checked. */
    method Login(id: int, sid: string) returns (ok: bool)
      requires sid !in sessions
      modifies this
      ensures ok <==> id in old(rows) && !Suspended(old(State()), id)
      ensures State() == if ok then OpenSession(old(State()), sid, id) else old(State())
    {
      if id !in rows { return false; }
      var cut := IsSuspended(id);
      if cut.Ok? && cut.value.0 { return false; }
      CreateSession(sid, id);
      ok := true;
    }
  }

  ghost function OpenSession(s: Panel, sid: string, id: int): Panel {
    Panel(s.rows, s.sessions[sid := id])
  }

  // ---- the algebra of cuts ------------------------------------------------------------

  /** Restoring right after a cut gives what restoring without it would have given. */
  lemma {:induction false} RestoreUndoesSuspend(s: Panel, parent: Parents, r: int, now: nat, reason: string)
    requires WellKept(s) && r != 0 && now > 0
    ensures Restore(Suspend(s, parent, r, now, reason), r).rows == Restore(s, r).rows
  {
    assert Restore(Suspend(s, parent, r, now, reason), r).rows.Keys == Restore(s, r).rows.Keys;
    assert forall id :: id in s.rows ==>
      Restore(Suspend(s, parent, r, now, reason), r).rows[id] == Restore(s, r).rows[id];
  }

  /** A cut made under a standing cut and then lifted leaves the standing cut whole exactly
      when nobody still carried the inner root's mark from before. */
  lemma {:induction false} InnerCutIsNeutral(s: Panel, parent: Parents, r: int, c: int, now: nat, later: nat,
      reason: string, why: string)
    requires WellKept(s) && now > 0 && later > 0 && Cuttable(s, r) && c != 0 && c != r && Below(parent, c, r)
    ensures Restore(Suspend(Suspend(s, parent, r, now, reason), parent, c, later, why), c).rows
        == Suspend(s, parent, r, now, reason).rows
      <==> forall id :: id in s.rows ==> s.rows[id].cut.root != c
  {
    var outer := Suspend(s, parent, r, now, reason);
    SubtreeInside(parent, c, r);
    var both := Suspend(outer, parent, c, later, why);
    assert both.rows == outer.rows by {
      assert forall id :: id in Subtree(parent, c) ==> id in Subtree(parent, r);
      assert both.rows.Keys == outer.rows.Keys;
    }
    var end := Restore(both, c).rows;
    forall id | id in s.rows
      ensures end[id] == outer.rows[id] <==> s.rows[id].cut.root != c
    {
    }
    assert end.Keys == outer.rows.Keys == s.rows.Keys;
    if forall id :: id in s.rows ==> s.rows[id].cut.root != c { assert end == outer.rows; }
  }

  /** A cut made lower down first is still in force, with its own mark, after a higher
      branch was cut and restored. */
  lemma {:induction false} LowerCutSurvives(s: Panel, parent: Parents, r: int, c: int, now: nat, later: nat,
      reason: string, why: string, id: int)
    requires WellKept(s) && now > 0 && later > 0 && Cuttable(s, c) && c != r && r != 0
    requires id in Subtree(parent, c) && id in s.rows && s.rows[id].role != Owner && !Suspended(s, id)
    ensures var end := Restore(Suspend(Suspend(s, parent, c, now, reason), parent, r, later, why), r);
      id in end.rows && end.rows[id].cut == Cut(now, reason, c)
  {
  }

  /** A cut marks whom it finds active and leaves owners and those already cut as they were. */
  lemma {:induction false} CutMarksExactly(s: Panel, parent: Parents, r: int, now: nat, reason: string, id: int)
    requires Cuttable(s, r) && now > 0 && id in s.rows
    ensures var after := Suspend(s, parent, r, now, reason).rows;
      var hit := Below(parent, id, r) && s.rows[id].role != Owner && s.rows[id].cut.at == 0;
      && after.Keys == s.rows.Keys
      && after[id] == if hit then Account(s.rows[id].role, Cut(now, reason, r)) else s.rows[id]
  {
    InSubtree(parent, id, r);
  }

  /** Right after a cut no non-owner of the branch is active and nobody in it is logged in. */
  lemma {:induction false} CutIsComplete(s: Panel, parent: Parents, r: int, now: nat, reason: string)
    requires Cuttable(s, r) && now > 0
    ensures var end := Suspend(s, parent, r, now, reason);
      && (forall id :: id in Subtree(parent, r) && id in end.rows && end.rows[id].role != Owner ==> Suspended(end, id))
      && (forall sid :: sid in end.sessions ==> end.sessions[sid] !in Subtree(parent, r))
      && (forall id :: id in s.rows && id !in Subtree(parent, r) ==> end.rows[id] == s.rows[id])
  {
  }

  /** While the higher cut stands, lifting a lower one reopens somebody under it exactly
      when some non-owner there still carried the lower root's mark, that is, when the
      lower cut came first. The documentation promises that it never does. */
  lemma {:induction false} RestoreUnderStandingCut(s: Panel, parent: Parents, r: int, c: int, now: nat, reason: string)
    requires WellKept(s) && now > 0 && Cuttable(s, r) && c != 0 && c != r
    ensures var end := Restore(Suspend(s, parent, r, now, reason), c);
      (forall id :: id in Subtree(parent, r) && id in end.rows && end.rows[id].role != Owner ==> Suspended(end, id))
      <==>
      (forall id :: id in Subtree(parent, r) && id in s.rows && s.rows[id].role != Owner ==> s.rows[id].cut.root != c)
  {
    var cut := Suspend(s, parent, r, now, reason);
    var end := Restore(cut, c);
    CutIsComplete(s, parent, r, now, reason);
    forall id | id in Subtree(parent, r) && id in s.rows && s.rows[id].role != Owner
      ensures id in end.rows && end.rows[id].role != Owner
      ensures Suspended(end, id) <==> s.rows[id].cut.root != c
    {
    }
  }

  /** The order that fails: cut the branch of 3, then the one of 2 above it, then restore 3. */
  lemma {:induction false} LowerRestoreReopens()
    ensures var parent := map[3 := 2];
      var s := Panel(map[2 := Account(Admin, NOT_CUT), 3 := Account(User, NOT_CUT)], map[]);
      var end := Restore(Suspend(Suspend(s, parent, 3, 1, "x"), parent, 2, 2, "y"), 3);
      Below(parent, 3, 2) && Suspended(end, 2) && !Suspended(end, 3)
  {
    var parent := map[3 := 2];
    assert Up(parent, 3, 1) == Some(2);
    assert Up(parent, 3, 0) == Some(3) && Up(parent, 2, 0) == Some(2);
    InSubtree(parent, 3, 3);
    InSubtree(parent, 2, 2);
  }

  // ---- every run, statement by statement ---------------------------------------------------

  /** The tables, the logins that were found active but have no session yet, and the branches
      whose sessions a cut still has to drop. */
  datatype Machine = Machine(panel: Panel, logins: map<int, int>, drops: map<int, set<int>>)

  /** A cut reads the tree, marks rows and drops sessions in separate statements; a login
      checks and opens a session in two. A newcomer's first session is opened unchecked. */
  datatype Step =
    | CutBranch(request: int, parent: Parents, root: int, now: nat, reason: string)
    | DropSessions(request: int)
    | DoRestore(target: int)
    | CheckLogin(request: int, id: int)
    | DoRegister(request: int, newcomer: int, role: Role)
    | OpenLogin(request: int, sid: string)
    | Logout(sid: string)

  const START := Machine(Panel(map[], map[]), map[], map[])

  ghost predicate MayCut(m: Machine, step: Step) {
    step.CutBranch? && step.now > 0 && step.request !in m.drops && Cuttable(m.panel, step.root)
  }

  /** The login is let through: an active account, or a newcomer. */
  ghost predicate Checks(m: Machine, step: Step, request: int, id: int) {
    && request !in m.logins
    && ((step == CheckLogin(request, id) && id in m.panel.rows && !Suspended(m.panel, id))
        || (step.DoRegister? && step.request == request && step.newcomer == id && id !in m.panel.rows && id != 0))
  }

  ghost predicate Opens(m: Machine, step: Step, sid: string, id: int) {
    && step.OpenLogin? && step.sid == sid && sid !in m.panel.sessions
    && step.request in m.logins && m.logins[step.request] == id
  }

  ghost function Next(m: Machine, step: Step): Machine {
    match step
    case CutBranch(request, parent, root, now, reason) =>
      if !MayCut(m, step) then m
      else
        var branch := Subtree(parent, root);
        Machine(m.panel.(rows := CutRows(m.panel.rows, branch, Cut(now, reason, root))), m.logins,
          m.drops[request := branch])
    case DropSessions(request) =>
      if request !in m.drops then m
      else Machine(Dropped(m.panel, m.drops[request]), m.logins, m.drops - {request})
    case DoRestore(target) => m.(panel := Restore(m.panel, target))
    case CheckLogin(request, id) =>
      if Checks(m, step, request, id) then m.(logins := m.logins[request := id]) else m
    case DoRegister(request, newcomer, role) =>
      if !Checks(m, step, request, newcomer) then m
      else m.(panel := m.panel.(rows := m.panel.rows[newcomer := Account(role, NOT_CUT)]),
        logins := m.logins[request := newcomer])
    case OpenLogin(request, sid) =>
      if request in m.logins && Opens(m, step, sid, m.logins[request])
      then m.(panel := OpenSession(m.panel, sid, m.logins[request]), logins := m.logins - {request}) else m
    case Logout(sid) => m.(panel := m.panel.(sessions := m.panel.sessions - {sid}))
  }

  ghost function Run(steps: seq<Step>): Machine {
    if steps == [] then START else Next(Run(steps[..|steps| - 1]), steps[|steps| - 1])
  }

  lemma {:induction false} RunsStayWellKept(steps: seq<Step>)
    ensures WellKept(Run(steps).panel)
  {
    if steps == [] {
    } else {
      RunsStayWellKept(steps[..|steps| - 1]);
      StepStaysWellKept(Run(steps[..|steps| - 1]), steps[|steps| - 1]);
    }
  }

  lemma {:induction false} StepStaysWellKept(m: Machine, step: Step)
    requires WellKept(m.panel)
    ensures WellKept(Next(m, step).panel)
  {}

  // ---- whose mark an account carries ----------------------------------------------------------

  ghost predicate Cuts(m: Machine, step: Step, id: int, cut: Cut) {
    && MayCut(m, step) && Cut(step.now, step.reason, step.root) == cut
    && id in Hit(m.panel, Subtree(step.parent, step.root))
  }

  /** Step i cut this account with this mark, and its root has not been restored since. */
  ghost predicate Stands(steps: seq<Step>, i: nat, id: int, cut: Cut) {
    && i < |steps| && Cuts(Run(steps[..i]), steps[i], id, cut)
    && forall j :: i < j < |steps| ==> steps[j] != DoRestore(cut.root)
  }

  ghost predicate Marked(m: Machine, id: int, cut: Cut) { id in m.panel.rows && m.panel.rows[id].cut == cut }

  lemma {:induction false} StandsNext(steps: seq<Step>, id: int, cut: Cut)
    requires steps != []
    ensures var n := |steps| - 1;
      (exists i: nat :: Stands(steps, i, id, cut)) <==>
        Cuts(Run(steps[..n]), steps[n], id, cut)
        || (steps[n] != DoRestore(cut.root) && exists i: nat :: Stands(steps[..n], i, id, cut))
  {
    var n := |steps| - 1;
    forall i: nat | i < n ensures steps[..n][..i] == steps[..i] {}
    if i: nat :| Stands(steps, i, id, cut) {
      if i < n { assert Stands(steps[..n], i, id, cut); }
    }
    if Cuts(Run(steps[..n]), steps[n], id, cut) { assert Stands(steps, n, id, cut); }
    if i: nat :| steps[n] != DoRestore(cut.root) && Stands(steps[..n], i, id, cut) {
      assert Stands(steps, i, id, cut);
    }
  }

  lemma {:induction false} StepMarks(m: Machine, step: Step, id: int, cut: Cut)
    requires WellKept(m.panel) && cut.at > 0
    ensures Marked(Next(m, step), id, cut) <==>
      Cuts(m, step, id, cut) || (step != DoRestore(cut.root) && Marked(m, id, cut))
  {}

  /** In every run, whatever else is cut or restored in between, an account carries the mark
      of a cut exactly when that cut found it active and its root has not been restored since:
      no other decision re-marks it, and none but that one can reopen it. */
  lemma {:induction false} MarkIsTheStandingCut(steps: seq<Step>, id: int, cut: Cut)
    requires cut.at > 0
    ensures Marked(Run(steps), id, cut) <==> exists i: nat :: Stands(steps, i, id, cut)
  {
    if steps == [] {
    } else {
      var n := |steps| - 1;
      MarkIsTheStandingCut(steps[..n], id, cut);
      RunsStayWellKept(steps[..n]);
      StepMarks(Run(steps[..n]), steps[n], id, cut);
      StandsNext(steps, id, cut);
    }
  }

  // ---- when a suspended account keeps a session -----------------------------------------------

  ghost predicate Ends(m: Machine, step: Step, sid: string, id: int) {
    step == Logout(sid) || (step.DropSessions? && step.request in m.drops && id in m.drops[step.request])
  }

  ghost predicate OpenSince(steps: seq<Step>, j: nat, sid: string, id: int) {
    && j < |steps| && Opens(Run(steps[..j]), steps[j], sid, id)
    && forall k: nat :: j < k < |steps| ==> !Ends(Run(steps[..k]), steps[k], sid, id)
  }

  ghost predicate Holds(m: Machine, sid: string, id: int) { sid in m.panel.sessions && m.panel.sessions[sid] == id }

  lemma {:induction false} OpenSinceEarlier(steps: seq<Step>, j: nat, sid: string, id: int)
    requires steps != [] && j < |steps| - 1
    ensures var n := |steps| - 1;
      OpenSince(steps, j, sid, id) <==> OpenSince(steps[..n], j, sid, id) && !Ends(Run(steps[..n]), steps[n], sid, id)
  {
    var n := |steps| - 1;
    assert forall i: nat :: i < n ==> steps[..n][..i] == steps[..i] && steps[..n][i] == steps[i];
    if OpenSince(steps, j, sid, id) {
      forall k: nat | j < k < n ensures !Ends(Run(steps[..n][..k]), steps[..n][k], sid, id) {
        assert !Ends(Run(steps[..k]), steps[k], sid, id);
      }
    }
    if OpenSince(steps[..n], j, sid, id) && !Ends(Run(steps[..n]), steps[n], sid, id) {
      forall k: nat | j < k < |steps| ensures !Ends(Run(steps[..k]), steps[k], sid, id) {
        if k < n { assert !Ends(Run(steps[..n][..k]), steps[..n][k], sid, id); }
      }
    }
  }

  lemma {:induction false} OpenSinceNext(steps: seq<Step>, sid: string, id: int)
    requires steps != []
    ensures var n := |steps| - 1;
      (exists j: nat :: OpenSince(steps, j, sid, id)) <==>
        Opens(Run(steps[..n]), steps[n], sid, id)
        || (!Ends(Run(steps[..n]), steps[n], sid, id) && exists j: nat :: OpenSince(steps[..n], j, sid, id))
  {
    var n := |steps| - 1;
    if j: nat :| OpenSince(steps, j, sid, id) {
      if j < n { OpenSinceEarlier(steps, j, sid, id); }
    }
    if Opens(Run(steps[..n]), steps[n], sid, id) { assert OpenSince(steps, n, sid, id); }
    if j: nat :| OpenSince(steps[..n], j, sid, id) { OpenSinceEarlier(steps, j, sid, id); }
  }

  lemma {:induction false} StepHolds(m: Machine, step: Step, sid: string, id: int)
    ensures Holds(Next(m, step), sid, id) <==> Opens(m, step, sid, id) || (!Ends(m, step, sid, id) && Holds(m, sid, id))
  {}

  lemma {:induction false} SessionIsOpenSince(steps: seq<Step>, sid: string, id: int)
    ensures Holds(Run(steps), sid, id) <==> exists j: nat :: OpenSince(steps, j, sid, id)
  {
    if steps == [] {
    } else {
      SessionIsOpenSince(steps[..|steps| - 1], sid, id);
      StepHolds(Run(steps[..|steps| - 1]), steps[|steps| - 1], sid, id);
      OpenSinceNext(steps, sid, id);
    }
  }

  lemma {:induction false} LoginWasChecked(steps: seq<Step>, request: int) returns (c: nat)
    requires request in Run(steps).logins
    ensures c < |steps| && Checks(Run(steps[..c]), steps[c], request, Run(steps).logins[request])
  {
    var n := |steps| - 1;
    var m := Run(steps[..n]);
    if request in m.logins {
      c := LoginWasChecked(steps[..n], request);
      assert steps[..n][..c] == steps[..c];
    } else {
      c := n;
    }
  }

  /** A cut's sessions are still to be dropped, or they have been. */
  lemma {:induction false} DropComes(steps: seq<Step>, u: nat, request: int, branch: set<int>)
    requires u <= |steps| && request in Run(steps[..u]).drops && Run(steps[..u]).drops[request] == branch
    ensures (request in Run(steps).drops && Run(steps).drops[request] == branch)
      || exists x: nat :: u <= x < |steps| && Drops(steps, x, request, branch)
    decreases |steps| - u
  {
    if u == |steps| {
      assert steps[..u] == steps;
    } else {
      assert steps[..u + 1][..u] == steps[..u];
      if steps[u] == DropSessions(request) {
        assert Drops(steps, u, request, branch);
      } else {
        DropComes(steps, u + 1, request, branch);
      }
    }
  }

  ghost predicate Drops(steps: seq<Step>, x: nat, request: int, branch: set<int>) {
    && x < |steps| && steps[x] == DropSessions(request)
    && request in Run(steps[..x]).drops && Run(steps[..x]).drops[request] == branch
  }

  /** The login was checked before the cut marked the account, and opened its session after
      the cut had dropped the branch's sessions; the cut still stands, the session is still open. */
  ghost predicate SlipsThrough(steps: seq<Step>, c: nat, u: nat, x: nat, j: nat, id: int, sid: string) {
    && c < u < x < j < |steps| && steps[u].CutBranch? && steps[j].OpenLogin?
    && Checks(Run(steps[..c]), steps[c], steps[j].request, id)
    && Stands(steps, u, id, Cut(steps[u].now, steps[u].reason, steps[u].root))
    && Drops(steps, x, steps[u].request, Subtree(steps[u].parent, steps[u].root))
    && OpenSince(steps, j, sid, id)
  }

  /** From its cut on, an account whose cut still stands has been suspended all the time. */
  lemma {:induction false} SuspendedSince(steps: seq<Step>, u: nat, id: int, cut: Cut, k: nat)
    requires Stands(steps, u, id, cut) && cut.at > 0 && u < k <= |steps|
    ensures Suspended(Run(steps[..k]).panel, id)
  {
    assert steps[..k][..u] == steps[..u];
    assert Stands(steps[..k], u, id, cut);
    MarkIsTheStandingCut(steps[..k], id, cut);
  }

  /** Once no cut has sessions left to drop, a suspended account holds a session if and only
      if its login slipped through: checked before the cut, opened after the drop. */
  lemma {:induction false} SuspendedWithSession(steps: seq<Step>, id: int, sid: string)
    requires Run(steps).drops == map[]
    ensures Suspended(Run(steps).panel, id) && Holds(Run(steps), sid, id) <==>
      exists c: nat, u: nat, x: nat, j: nat :: SlipsThrough(steps, c, u, x, j, id, sid)
  {
    if c: nat, u: nat, x: nat, j: nat :| SlipsThrough(steps, c, u, x, j, id, sid) {
      SlippedStays(steps, c, u, x, j, id, sid);
    }
    if Suspended(Run(steps).panel, id) && Holds(Run(steps), sid, id) {
      var c, u, x, j := HowItSlipped(steps, id, sid);
    }
  }

  lemma {:induction false} SlippedStays(steps: seq<Step>, c: nat, u: nat, x: nat, j: nat, id: int, sid: string)
    requires SlipsThrough(steps, c, u, x, j, id, sid)
    ensures Suspended(Run(steps).panel, id) && Holds(Run(steps), sid, id)
  {
    SuspendedSince(steps, u, id, Cut(steps[u].now, steps[u].reason, steps[u].root), |steps|);
    assert steps[..|steps|] == steps;
    SessionIsOpenSince(steps, sid, id);
  }

  lemma {:induction false} HowItSlipped(steps: seq<Step>, id: int, sid: string) returns (c: nat, u: nat, x: nat, j: nat)
    requires Run(steps).drops == map[] && Suspended(Run(steps).panel, id) && Holds(Run(steps), sid, id)
    ensures SlipsThrough(steps, c, u, x, j, id, sid)
  {
    var cut := Run(steps).panel.rows[id].cut;
    MarkIsTheStandingCut(steps, id, cut);
    u :| Stands(steps, u, id, cut);
    SessionIsOpenSince(steps, sid, id);
    j :| OpenSince(steps, j, sid, id);
    x := CutWasDropped(steps, u, id, cut);
    OpenedAfterDrop(steps, j, x, steps[u].request, Subtree(steps[u].parent, steps[u].root), sid, id);
    c := CheckedBefore(steps, u, id, cut, j, sid);
  }

  lemma {:induction false} OpenedAfterDrop(steps: seq<Step>, j: nat, x: nat, request: int, branch: set<int>,
      sid: string, id: int)
    requires OpenSince(steps, j, sid, id) && Drops(steps, x, request, branch) && id in branch
    ensures x < j
  {
    assert Ends(Run(steps[..x]), steps[x], sid, id);
  }

  lemma {:induction false} CutWasDropped(steps: seq<Step>, u: nat, id: int, cut: Cut) returns (x: nat)
    requires Run(steps).drops == map[] && Stands(steps, u, id, cut)
    ensures u < x && Drops(steps, x, steps[u].request, Subtree(steps[u].parent, steps[u].root))
    ensures id in Subtree(steps[u].parent, steps[u].root)
  {
    var branch := Subtree(steps[u].parent, steps[u].root);
    assert steps[..u + 1][..u] == steps[..u];
    assert Run(steps[..u + 1]) == Next(Run(steps[..u]), steps[u]);
    DropComes(steps, u + 1, steps[u].request, branch);
    x :| u + 1 <= x < |steps| && Drops(steps, x, steps[u].request, branch);
  }

  lemma {:induction false} CheckedBefore(steps: seq<Step>, u: nat, id: int, cut: Cut, j: nat, sid: string)
      returns (c: nat)
    requires Stands(steps, u, id, cut) && cut.at > 0 && OpenSince(steps, j, sid, id)
    ensures c < u && c < j && steps[j].OpenLogin? && Checks(Run(steps[..c]), steps[c], steps[j].request, id)
  {
    c := LoginWasChecked(steps[..j], steps[j].request);
    assert steps[..j][..c] == steps[..c];
    if c > u { SuspendedSince(steps, u, id, cut, c); }
  }

  /** What the session of a request is good for: nothing while its account is cut. */
  ghost predicate Serves(s: Panel, sid: string, id: int) {
    sid in s.sessions && s.sessions[sid] == id && id in s.rows && !Suspended(s, id)
  }

  /** A session that slipped through serves nothing while the cut stands, and serves again,
      without a login, from the restore of the cut's root on: that much a cut that dropped it
      would not have left. */
  lemma {:induction false} SlippedServesAfterRestore(steps: seq<Step>, c: nat, u: nat, x: nat, j: nat, id: int,
      sid: string)
    requires SlipsThrough(steps, c, u, x, j, id, sid)
    ensures !Serves(Run(steps).panel, sid, id)
    ensures Serves(Next(Run(steps), DoRestore(steps[u].root)).panel, sid, id)
  {
    SlippedStays(steps, c, u, x, j, id, sid);
    MarkIsTheStandingCut(steps, id, Cut(steps[u].now, steps[u].reason, steps[u].root));
  }

  /** The shortest run in which it happens. */
  lemma {:induction false} LoginOutlivesCut()
    ensures var m := Run([DoRegister(0, 1, User), CutBranch(0, map[], 1, 1, "x"), DropSessions(0), OpenLogin(0, "s")]);
      m.drops == map[] && Suspended(m.panel, 1) && Holds(m, "s", 1)
  {
    var steps := [DoRegister(0, 1, User), CutBranch(0, map[], 1, 1, "x"), DropSessions(0), OpenLogin(0, "s")];
    assert steps[..3][..2] == steps[..2] && steps[..2][..1] == steps[..1] && steps[..1][..0] == [];
    var m1 := Machine(Panel(map[1 := Account(User, NOT_CUT)], map[]), map[0 := 1], map[]);
    assert Run(steps[..1]) == m1;
    assert Up(map[], 1, 0) == Some(1);
    InSubtree(map[], 1, 1);
    var m2 := Next(m1, steps[1]);
    assert Run(steps[..2]) == m2 && Suspended(m2.panel, 1);
    assert Run(steps[..3]) == Next(m2, steps[2]);
  }
}
