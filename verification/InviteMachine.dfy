/** Issuing and redeeming invite codes, in every interleaving
    (internal/storage/audit.go, internal/auth/auth.go, internal/handlers/admin/invites.go). */
module InviteMachine {
  import opened Wrappers
  import opened Text
  import opened Sums
  import opened InviteTree
  import opened InviteTotals

  datatype Token = Token(createdBy: int, maxUses: nat, useCount: nat, expiresAt: nat, usedAt: nat, usedBy: Option<int>)

  /** The invite_tokens and invite_redemptions tables. */
  datatype Desk = Desk(tokens: map<string, Token>, rows: set<(string, int)>)

  /** Zero uses means no ceiling, zero expiry means never. */
  predicate Spendable(t: Token, now: nat) {
    (t.maxUses == 0 || t.useCount < t.maxUses) && (t.expiresAt == 0 || t.expiresAt > now)
  }

  predicate Matches(tokens: map<string, Token>, code: string, typed: string, now: nat) {
    code in tokens && Upper(code) == Upper(typed) && Spendable(tokens[code], now)
  }

  function SpendOne(t: Token, admin: int, now: nat): Token {
    t.(useCount := t.useCount + 1,
       usedAt := if t.usedAt == 0 then now else t.usedAt,
       usedBy := if t.usedBy.None? then Some(admin) else t.usedBy)
  }

  /** The checking-and-counting statement: it touches every code spelled alike but for case. */
  function Spend(d: Desk, typed: string, admin: int, now: nat): Desk {
    d.(tokens := map code | code in d.tokens ::
      if Matches(d.tokens, code, typed, now) then SpendOne(d.tokens[code], admin, now) else d.tokens[code])
  }

  function Hits(d: Desk, typed: string, now: nat): set<string> {
    set code | code in d.tokens && Matches(d.tokens, code, typed, now)
  }

  datatype RedeemError = NotFound | AlreadyRecorded

  datatype LateError = EmptyCode | AlreadyInTree | UnknownCode | OwnCode | CodeSpent

  /** The account has come through some code: a redemption row, or a code's first user. */
  ghost predicate Redeemed(d: Desk, admin: int) {
    || (exists row :: row in d.rows && row.1 == admin)
    || exists code :: code in d.tokens && d.tokens[code].usedBy == Some(admin)
  }

  predicate Spelled(d: Desk, code: string, typed: string) { code in d.tokens && Upper(code) == Upper(typed) }

  /** The checks of the handler, with the code it found. */
  ghost predicate Allowed(d: Desk, admin: int, typed: string, found: Option<string>) {
    && typed != "" && !Redeemed(d, admin)
    && found.Some? && Spelled(d, found.value, typed) && d.tokens[found.value].createdBy != admin
  }

  /** What the handler asks of an existing account before it spends a use. */
  ghost predicate MayRedeem(d: Desk, admin: int, typed: string) {
    exists code :: Allowed(d, admin, typed, Some(code))
  }

  class InviteTables {
    var tokens: map<string, Token>
    var rows: set<(string, int)>

    ghost function State(): Desk
      reads this
    {
      Desk(tokens, rows)
    }

    constructor ()
      ensures State() == Desk(map[], {})
    {
      tokens, rows := map[], {};
    }

    /** A negative limit is nonsense and becomes one use. */
    method CreateInviteWithUses(code: string, expiresAt: nat, creator: int, maxUses: int) returns (ok: bool)
      modifies this
      ensures ok <==> code !in old(tokens)
      ensures State() == if ok then Issued(old(State()), code, expiresAt, creator, maxUses) else old(State())
    {
      if code in tokens { return false; }
      tokens := tokens[code := Token(creator, if maxUses < 0 then 1 else maxUses, 0, expiresAt, 0, None)];
      ok := true;
    }

    /** Spends one use and records who came; two statements, of which the second may fail. */
    method RedeemInvite(token: string, admin: int, now: nat) returns (r: Result<(), RedeemError>)
      modifies this
      ensures var typed := TrimSpace(token);
        if typed == "" || Hits(old(State()), typed, now) == {} then
          r == Err(NotFound) && State() == old(State())
        else
          State() == Recorded(Spend(old(State()), typed, admin, now), typed, admin) &&
          r == if (typed, admin) in old(rows) then Err(AlreadyRecorded) else Ok(())
    {
      var typed := TrimSpace(token);
      if typed == "" { return Err(NotFound); }
      var hits := set code | code in tokens && Matches(tokens, code, typed, now);
      assert hits == Hits(State(), typed, now);
      if hits == {} { return Err(NotFound); }
      tokens := map code | code in tokens ::
        if code in hits then SpendOne(tokens[code], admin, now) else tokens[code];
      if (typed, admin) in rows { return Err(AlreadyRecorded); }
      rows := rows + {(typed, admin)};
      r := Ok(());
    }

    method RedeemedInvite(admin: int) returns (yes: bool)
      ensures yes <==> Redeemed(State(), admin)
    {
      yes := (exists row :: row in rows && row.1 == admin)
        || (exists code :: code in tokens && tokens[code].usedBy == Some(admin));
    }

    method FindInvite(token: string) returns (found: Option<string>)
      ensures found.Some? ==> Spelled(State(), found.value, TrimSpace(token))
      ensures found.None? ==> TrimSpace(token) == "" || forall code :: !Spelled(State(), code, TrimSpace(token))
    {
      var typed := TrimSpace(token);
      if typed == "" { return None; }
      var codes := set code | code in tokens && Upper(code) == Upper(typed);
      if codes == {} {
        assert forall code :: Spelled(State(), code, typed) ==> code in codes;
        return None;
      }
      var code := AnyOf(codes);
      found := Some(code);
    }

    /** An existing account joins the tree by a code. */
    method HandleRedeemInvite(token: string, admin: int, now: nat)
        returns (r: Result<(), LateError>, ghost found: Option<string>)
      modifies this
      ensures var d, typed := old(State()), TrimSpace(token);
        && (r.Ok? <==> Allowed(d, admin, typed, found) && Hits(d, typed, now) != {})
        && State() == (if r.Ok? then Recorded(Spend(d, typed, admin, now), typed, admin) else d)
        && (found.Some? ==> Spelled(d, found.value, typed))
        && (r == Err(EmptyCode) <==> typed == "")
        && (r == Err(AlreadyInTree) <==> typed != "" && Redeemed(d, admin))
        && (r == Err(UnknownCode) <==> typed != "" && !Redeemed(d, admin) && forall code :: !Spelled(d, code, typed))
    {
      found := None;
      var typed := TrimSpace(token);
      TrimTwice(token);
      if typed == "" { return Err(EmptyCode), found; }
      var already := RedeemedInvite(admin);
      if already { return Err(AlreadyInTree), found; }
      var invite := FindInvite(typed);
      found := invite;
      if invite.None? { return Err(UnknownCode), found; }
      assert Spelled(State(), invite.value, typed);
      if tokens[invite.value].createdBy == admin { return Err(OwnCode), found; }
      var spent := RedeemInvite(typed, admin, now);
      if spent.Err? { return Err(CodeSpent), found; }
      r := Ok(());
    }
  }

  ghost function Issued(d: Desk, code: string, expiresAt: nat, creator: int, maxUses: int): Desk {
    d.(tokens := d.tokens[code := Token(creator, if maxUses < 0 then 1 else maxUses, 0, expiresAt, 0, None)])
  }

  ghost function Recorded(d: Desk, typed: string, admin: int): Desk {
    d.(rows := d.rows + {(typed, admin)})
  }

  // ---- all interleavings ------------------------------------------------------------------

  /** The tables, the requests of existing accounts that have passed the handler's checks,
      the redemptions that have spent a use but not yet recorded it, and the next account id. */
  datatype Machine = Machine(desk: Desk, cleared: map<int, (string, int)>, pending: map<int, (string, int)>,
      nextId: nat)

  datatype Step =
    | Issue(code: string, expiresAt: nat, creator: int, maxUses: int)
    | Revoke(code: string)
    | RegisterSpend(request: int, token: string, now: nat)
    | LateCheck(request: int, admin: int, token: string)
    | LateSpend(request: int, now: nat)
    | Record(request: int)

  /** A code nobody has seen before, in any spelling; codes are random. */
  ghost predicate FreshCode(m: Machine, code: string) {
    && (forall c :: c in m.desk.tokens ==> Upper(c) != Upper(code))
    && (forall row :: row in m.desk.rows ==> Upper(row.0) != Upper(code))
    && (forall q :: q in m.pending ==> Upper(m.pending[q].0) != Upper(code))
  }

  /** Registering takes a fresh account id whether or not the code turns out good. An
      existing account spends only after its checks, each statement a step of its own. */
  ghost function Next(m: Machine, step: Step): Machine {
    match step
    case Issue(code, expiresAt, creator, maxUses) =>
      if FreshCode(m, code) && 0 < creator < m.nextId
      then AfterIssue(m, code, expiresAt, creator, maxUses) else m
    case Revoke(code) => m.(desk := m.desk.(tokens := m.desk.tokens - {code}))
    case RegisterSpend(request, token, now) =>
      var taken := m.(nextId := m.nextId + 1);
      if TrimSpace(token) == "" then taken else AfterTry(taken, request, TrimSpace(token), m.nextId, now)
    case LateCheck(request, admin, token) =>
      if request !in m.cleared && 0 < admin < m.nextId && MayRedeem(m.desk, admin, TrimSpace(token))
      then m.(cleared := m.cleared[request := (TrimSpace(token), admin)]) else m
    case LateSpend(request, now) =>
      if request !in m.cleared then m
      else
        var (typed, admin) := m.cleared[request];
        AfterTry(m.(cleared := m.cleared - {request}), request, typed, admin, now)
    case Record(request) =>
      if request !in m.pending then m else AfterRecord(m, request)
  }

  ghost function AfterIssue(m: Machine, code: string, expiresAt: nat, creator: int, maxUses: int): Machine {
    m.(desk := Issued(m.desk, code, expiresAt, creator, maxUses))
  }

  ghost function AfterSpend(m: Machine, request: int, typed: string, admin: int, now: nat): Machine {
    m.(desk := Spend(m.desk, typed, admin, now), pending := m.pending[request := (typed, admin)])
  }

  /** Nothing happens if no code can be spent. */
  ghost function AfterTry(m: Machine, request: int, typed: string, admin: int, now: nat): Machine {
    if request in m.pending || Hits(m.desk, typed, now) == {} then m else AfterSpend(m, request, typed, admin, now)
  }

  ghost function AfterRecord(m: Machine, request: int): Machine
    requires request in m.pending
  {
    m.(desk := Recorded(m.desk, m.pending[request].0, m.pending[request].1), pending := m.pending - {request})
  }

  ghost function Run(m: Machine, steps: seq<Step>): Machine {
    if steps == [] then m else Next(Run(m, steps[..|steps| - 1]), steps[|steps| - 1])
  }

  const START := Machine(Desk(map[], {}), map[], map[], 1)

  /** Redemption rows of a code, in any spelling. */
  ghost function RowsOf(m: Machine, code: string): set<(string, int)> {
    set row | row in m.desk.rows && Upper(row.0) == Upper(code)
  }

  /** Uses of a code that are spent but not yet recorded. */
  ghost function PendingOf(m: Machine, code: string): set<int> {
    set q | q in m.pending && Upper(m.pending[q].0) == Upper(code)
  }

  ghost predicate OneSpelling(m: Machine) {
    forall c, d :: c in m.desk.tokens && d in m.desk.tokens && Upper(c) == Upper(d) ==> c == d
  }

  ghost predicate CountedCode(m: Machine, code: string, t: Token) {
    && |RowsOf(m, code)| + |PendingOf(m, code)| <= t.useCount
    && (t.maxUses > 0 ==> t.useCount <= t.maxUses)
    && 0 < t.createdBy < m.nextId
  }

  ghost predicate Counted(m: Machine) {
    forall code :: code in m.desk.tokens ==> CountedCode(m, code, m.desk.tokens[code])
  }

  /** Whoever came through a code is newer than its issuer. */
  ghost predicate ElderCode(m: Machine, code: string, t: Token) {
    && (t.usedBy.Some? ==> t.createdBy < t.usedBy.value)
    && (forall row :: row in RowsOf(m, code) ==> t.createdBy < row.1)
    && (forall q :: q in PendingOf(m, code) ==> t.createdBy < m.pending[q].1)
  }

  ghost predicate Elders(m: Machine) {
    forall code :: code in m.desk.tokens ==> ElderCode(m, code, m.desk.tokens[code])
  }

  /** The issuer of a code that is spent now is older than the account that spends it. */
  ghost predicate NewerThanIssuer(m: Machine, typed: string, admin: int) {
    forall code :: Spelled(m.desk, code, typed) ==> m.desk.tokens[code].createdBy < admin
  }

  lemma {:induction false} SpendKeepsCode(m: Machine, request: int, typed: string, admin: int, now: nat, code: string)
    requires code in m.desk.tokens && CountedCode(m, code, m.desk.tokens[code]) && request !in m.pending
    requires Upper(code) == Upper(typed) ==> Spendable(m.desk.tokens[code], now)
    ensures var n := AfterSpend(m, request, typed, admin, now);
      && CountedCode(n, code, n.desk.tokens[code])
      && (NewerThanIssuer(m, typed, admin) && ElderCode(m, code, m.desk.tokens[code]) ==>
        ElderCode(n, code, n.desk.tokens[code]))
  {
    var n := AfterSpend(m, request, typed, admin, now);
    assert RowsOf(n, code) == RowsOf(m, code);
    if Upper(code) == Upper(typed) {
      assert Spelled(m.desk, code, typed);
      assert PendingOf(n, code) == PendingOf(m, code) + {request};
      assert n.desk.tokens[code] == SpendOne(m.desk.tokens[code], admin, now);
    } else {
      assert PendingOf(n, code) == PendingOf(m, code);
      assert n.desk.tokens[code] == m.desk.tokens[code];
    }
  }

  lemma {:induction false} SpendKeepsCounted(m: Machine, request: int, typed: string, admin: int, now: nat)
    requires Counted(m) && OneSpelling(m) && request !in m.pending && Hits(m.desk, typed, now) != {}
    ensures var n := AfterSpend(m, request, typed, admin, now);
      Counted(n) && OneSpelling(n) && (Elders(m) && NewerThanIssuer(m, typed, admin) ==> Elders(n))
  {
    var hit := Pick(Hits(m.desk, typed, now));
    forall code | code in m.desk.tokens
      ensures var n := AfterSpend(m, request, typed, admin, now);
        && CountedCode(n, code, n.desk.tokens[code])
        && (Elders(m) && NewerThanIssuer(m, typed, admin) ==> ElderCode(n, code, n.desk.tokens[code]))
    {
      assert Upper(code) == Upper(typed) ==> code == hit;
      SpendKeepsCode(m, request, typed, admin, now, code);
    }
  }

  lemma {:induction false} RecordKeepsCode(m: Machine, request: int, code: string)
    requires request in m.pending && code in m.desk.tokens && CountedCode(m, code, m.desk.tokens[code])
    ensures CountedCode(AfterRecord(m, request), code, m.desk.tokens[code])
    ensures ElderCode(m, code, m.desk.tokens[code]) ==> ElderCode(AfterRecord(m, request), code, m.desk.tokens[code])
  {
    var (typed, admin) := m.pending[request];
    var n := AfterRecord(m, request);
    if Upper(code) == Upper(typed) {
      assert request in PendingOf(m, code);
      assert RowsOf(n, code) == RowsOf(m, code) + {(typed, admin)};
      assert PendingOf(n, code) == PendingOf(m, code) - {request};
    } else {
      assert RowsOf(n, code) == RowsOf(m, code);
      assert PendingOf(n, code) == PendingOf(m, code);
    }
  }

  lemma {:induction false} FreshCodeIsCounted(m: Machine, code: string, expiresAt: nat, creator: int, maxUses: int)
    requires FreshCode(m, code) && 0 < creator < m.nextId
    ensures var n := AfterIssue(m, code, expiresAt, creator, maxUses);
      CountedCode(n, code, n.desk.tokens[code]) && ElderCode(n, code, n.desk.tokens[code])
  {
    var n := AfterIssue(m, code, expiresAt, creator, maxUses);
    forall row | row in m.desk.rows ensures row !in RowsOf(n, code) {}
    forall q | q in m.pending ensures q !in PendingOf(n, code) {}
    assert RowsOf(n, code) == {} && PendingOf(n, code) == {};
  }

  lemma {:induction false} OtherCodesStay(m: Machine, n: Machine, c: string, t: Token)
    requires CountedCode(m, c, t) && n.desk.rows == m.desk.rows && n.pending == m.pending && n.nextId >= m.nextId
    ensures CountedCode(n, c, t) && (ElderCode(m, c, t) ==> ElderCode(n, c, t))
  {
    assert RowsOf(n, c) == RowsOf(m, c) && PendingOf(n, c) == PendingOf(m, c);
  }

  /** A step that only issues, revokes, checks or takes an id. */
  lemma {:induction false} QuietStepKeeps(m: Machine, n: Machine)
    requires Counted(m) && OneSpelling(m)
    requires n.desk.rows == m.desk.rows && n.pending == m.pending && n.nextId >= m.nextId
    requires forall c :: c in n.desk.tokens ==> c in m.desk.tokens && n.desk.tokens[c] == m.desk.tokens[c]
    ensures Counted(n) && OneSpelling(n) && (Elders(m) ==> Elders(n))
  {
    forall c | c in n.desk.tokens
      ensures CountedCode(n, c, n.desk.tokens[c]) && (Elders(m) ==> ElderCode(n, c, n.desk.tokens[c]))
    {
      OtherCodesStay(m, n, c, m.desk.tokens[c]);
    }
  }

  lemma {:induction false} IssueKeeps(m: Machine, code: string, expiresAt: nat, creator: int, maxUses: int)
    requires Counted(m) && OneSpelling(m) && FreshCode(m, code) && 0 < creator < m.nextId
    ensures var n := AfterIssue(m, code, expiresAt, creator, maxUses);
      Counted(n) && OneSpelling(n) && (Elders(m) ==> Elders(n))
  {
    var n := AfterIssue(m, code, expiresAt, creator, maxUses);
    FreshCodeIsCounted(m, code, expiresAt, creator, maxUses);
    forall c | c in n.desk.tokens
      ensures CountedCode(n, c, n.desk.tokens[c]) && (Elders(m) ==> ElderCode(n, c, n.desk.tokens[c]))
    {
      if c != code { OtherCodesStay(m, n, c, m.desk.tokens[c]); }
    }
  }

  lemma {:induction false} RecordKeeps(m: Machine, request: int)
    requires Counted(m) && OneSpelling(m) && request in m.pending
    ensures var n := AfterRecord(m, request); Counted(n) && OneSpelling(n) && (Elders(m) ==> Elders(n))
  {
    var n := AfterRecord(m, request);
    forall code | code in n.desk.tokens
      ensures CountedCode(n, code, n.desk.tokens[code]) && (Elders(m) ==> ElderCode(n, code, n.desk.tokens[code]))
    {
      RecordKeepsCode(m, request, code);
    }
  }

  ghost predicate Late(step: Step) { step.LateCheck? || step.LateSpend? }

  lemma {:induction false} SpendStepKeeps(m: Machine, request: int, typed: string, admin: int, now: nat)
    requires Counted(m) && OneSpelling(m)
    ensures var n := AfterTry(m, request, typed, admin, now);
      Counted(n) && OneSpelling(n) && (Elders(m) && NewerThanIssuer(m, typed, admin) ==> Elders(n))
  {
    if request !in m.pending && Hits(m.desk, typed, now) != {} { SpendKeepsCounted(m, request, typed, admin, now); }
  }

  lemma {:induction false} RegisterKeeps(m: Machine, request: int, token: string, now: nat)
    requires Counted(m) && OneSpelling(m)
    ensures var n := Next(m, RegisterSpend(request, token, now));
      Counted(n) && OneSpelling(n) && (Elders(m) ==> Elders(n))
  {
    var taken := m.(nextId := m.nextId + 1);
    QuietStepKeeps(m, taken);
    SpendStepKeeps(taken, request, TrimSpace(token), m.nextId, now);
    NextIdIsNewer(m, TrimSpace(token));
    RegisterIs(m, request, token, now);
  }

  lemma {:induction false} NextIdIsNewer(m: Machine, typed: string)
    requires Counted(m)
    ensures NewerThanIssuer(m, typed, m.nextId) && NewerThanIssuer(m.(nextId := m.nextId + 1), typed, m.nextId)
  {
    assert forall c :: Spelled(m.desk, c, typed) ==> CountedCode(m, c, m.desk.tokens[c]);
  }

  lemma {:induction false} RegisterIs(m: Machine, request: int, token: string, now: nat)
    ensures var taken := m.(nextId := m.nextId + 1);
      Next(m, RegisterSpend(request, token, now)) ==
        if TrimSpace(token) == "" then taken else AfterTry(taken, request, TrimSpace(token), m.nextId, now)
  {}

  lemma {:induction false} LateSpendKeeps(m: Machine, request: int, now: nat)
    requires Counted(m) && OneSpelling(m) && request in m.cleared
    ensures Counted(Next(m, LateSpend(request, now))) && OneSpelling(Next(m, LateSpend(request, now)))
  {
    var (typed, admin) := m.cleared[request];
    SpendStepKeeps(m, request, typed, admin, now);
    ChecksAreAside(AfterTry(m, request, typed, admin, now), m.cleared - {request});
    LateSpendIs(m, request, now);
  }

  lemma {:induction false} LateSpendIs(m: Machine, request: int, now: nat)
    requires request in m.cleared
    ensures Next(m, LateSpend(request, now)) ==
      AfterTry(m, request, m.cleared[request].0, m.cleared[request].1, now).(cleared := m.cleared - {request})
  {}

  lemma {:induction false} ChecksAreAside(m: Machine, cleared: map<int, (string, int)>)
    requires Counted(m) && OneSpelling(m)
    ensures Counted(m.(cleared := cleared)) && OneSpelling(m.(cleared := cleared))
  {
    QuietStepKeeps(m, m.(cleared := cleared));
  }

  lemma {:induction false} StepKeeps(m: Machine, step: Step)
    requires Counted(m) && OneSpelling(m)
    ensures Counted(Next(m, step)) && OneSpelling(Next(m, step))
    ensures Elders(m) && !Late(step) ==> Elders(Next(m, step))
  {
    match step
    case Issue(code, expiresAt, creator, maxUses) =>
      if FreshCode(m, code) && 0 < creator < m.nextId { IssueKeeps(m, code, expiresAt, creator, maxUses); }
    case Revoke(_) => QuietStepKeeps(m, Next(m, step));
    case LateCheck(_, _, _) => QuietStepKeeps(m, Next(m, step));
    case RegisterSpend(request, token, now) => RegisterKeeps(m, request, token, now);
    case LateSpend(request, now) => if request in m.cleared { LateSpendKeeps(m, request, now); }
    case Record(request) => if request in m.pending { RecordKeeps(m, request); }
  }

  /** In every reachable state, however registrations and redemptions by existing accounts
      interleave, the recorded and pending redemptions of a code never exceed its use count,
      and the count never exceeds a positive limit. */
  lemma {:induction false} RunsStayCounted(steps: seq<Step>)
    ensures Counted(Run(START, steps)) && OneSpelling(Run(START, steps))
  {
    if steps == [] {
    } else {
      RunsStayCounted(steps[..|steps| - 1]);
      StepKeeps(Run(START, steps[..|steps| - 1]), steps[|steps| - 1]);
    }
  }

  /** While members only join by registering, every inviter is older than whoever they invited. */
  lemma {:induction false} RegisteredRunsKeepElders(steps: seq<Step>)
    requires forall i :: 0 <= i < |steps| ==> !Late(steps[i])
    ensures Elders(Run(START, steps))
  {
    if steps == [] {
    } else {
      RegisteredRunsKeepElders(steps[..|steps| - 1]);
      RunsStayCounted(steps[..|steps| - 1]);
      StepKeeps(Run(START, steps[..|steps| - 1]), steps[|steps| - 1]);
    }
  }

  // ---- the tree the tables describe -------------------------------------------------------

  /** An edge row of the tables: the redemption's token must be spelled exactly like the
      stored code, or the account must be the code's first redeemer. */
  ghost predicate HasEdge(d: Desk, inviter: int, child: int) {
    exists code :: code in d.tokens && d.tokens[code].createdBy == inviter && inviter != child &&
      ((code, child) in d.rows || d.tokens[code].usedBy == Some(child))
  }

  ghost predicate TreeOf(d: Desk, parent: Parents) {
    forall c :: c in parent ==> HasEdge(d, parent[c], c)
  }

  lemma {:induction false} OlderInviters(parent: Parents, x: int, n: nat)
    requires forall c :: c in parent ==> parent[c] < c
    requires Up(parent, x, n).Some?
    ensures Up(parent, x, n).value <= x && (n > 0 ==> Up(parent, x, n).value < x)
    decreases n
  {
    if n == 0 {
    } else {
      OlderInviters(parent, parent[x], n - 1);
    }
  }

  /** While members join only by registering, the tree read off the tables is acyclic and
      every edge goes from an older account to a newer one, in every reachable state. */
  lemma {:induction false} RegisteredTreeIsAcyclic(steps: seq<Step>, parent: Parents)
    requires forall i :: 0 <= i < |steps| ==> !Late(steps[i])
    requires TreeOf(Run(START, steps).desk, parent)
    ensures forall c :: c in parent ==> parent[c] < c
    ensures Acyclic(parent)
  {
    RegisteredRunsKeepElders(steps);
    var m := Run(START, steps);
    forall c | c in parent ensures parent[c] < c {
      assert HasEdge(m.desk, parent[c], c);
      var code :| code in m.desk.tokens && m.desk.tokens[code].createdBy == parent[c] &&
        ((code, c) in m.desk.rows || m.desk.tokens[code].usedBy == Some(c));
      if (code, c) in m.desk.rows { assert (code, c) in RowsOf(m, code); }
    }
    forall x, n: nat | n > 0 ensures Up(parent, x, n) != Some(x) {
      if Up(parent, x, n).Some? { OlderInviters(parent, x, n); }
    }
  }

  // ---- where the promise of a cycle-free tree ends --------------------------------------

  /** A way down the tree, from inviter to invited. */
  ghost predicate Path(d: Desk, p: seq<int>) {
    |p| > 0 && forall i :: 0 <= i < |p| - 1 ==> HasEdge(d, p[i], p[i + 1])
  }

  ghost predicate Leads(d: Desk, p: seq<int>, a: int, b: int) {
    Path(d, p) && p[0] == a && p[|p| - 1] == b
  }

  /** b is a itself or somewhere below a. */
  ghost predicate Reaches(d: Desk, a: int, b: int) { exists p :: Leads(d, p, a, b) }

  ghost predicate Cyclic(d: Desk) { exists p :: Path(d, p) && |p| > 1 && p[0] == p[|p| - 1] }

  ghost predicate Adds(d: Desk, e: Desk, u: int, x: int) { HasEdge(e, u, x) && !HasEdge(d, u, x) }

  ghost predicate Keeps(d: Desk, e: Desk) { forall u, x :: HasEdge(d, u, x) ==> HasEdge(e, u, x) }

  lemma {:induction false} PathKept(d: Desk, e: Desk, p: seq<int>)
    requires Path(d, p) && Keeps(d, e)
    ensures Path(e, p)
  {
    forall i | 0 <= i < |p| - 1 ensures HasEdge(e, p[i], p[i + 1]) { assert HasEdge(d, p[i], p[i + 1]); }
  }

  /** Without the new edge, a walk from below x never leaves what is below x. */
  lemma {:induction false} WalkStaysBelow(d: Desk, e: Desk, u: int, x: int, p: seq<int>, i: nat, j: nat)
    requires Path(e, p) && i <= j < |p| && Reaches(d, x, p[i]) && !Reaches(d, x, u)
    requires forall a, b :: Adds(d, e, a, b) ==> a == u && b == x
    ensures Reaches(d, x, p[j])
    decreases j
  {
    if i < j {
      WalkStaysBelow(d, e, u, x, p, i, j - 1);
      assert HasEdge(e, p[j - 1], p[j - 1 + 1]);
      assert !Adds(d, e, p[j - 1], p[j]);
      var q :| Leads(d, q, x, p[j - 1]);
      var r := q + [p[j]];
      forall n | 0 <= n < |r| - 1 ensures HasEdge(d, r[n], r[n + 1]) {
        if n < |q| - 1 { assert HasEdge(d, q[n], q[n + 1]); }
      }
      assert Leads(d, r, x, p[j]);
    }
  }

  /** A loop uses the new edge, so it leads from x back to u. */
  lemma {:induction false} LoopNeedsReach(d: Desk, e: Desk, u: int, x: int, p: seq<int>)
    requires !Cyclic(d) && Path(e, p) && |p| > 1 && p[0] == p[|p| - 1]
    requires forall a, b :: Adds(d, e, a, b) ==> a == u && b == x
    ensures Reaches(d, x, u)
  {
    if forall i :: 0 <= i < |p| - 1 ==> HasEdge(d, p[i], p[i + 1]) {
      assert Path(d, p);
      assert false;
    } else {
      var i :| 0 <= i < |p| - 1 && !HasEdge(d, p[i], p[i + 1]);
      assert Adds(d, e, p[i], p[i + 1]);
      if !Reaches(d, x, u) {
        assert Leads(d, [x], x, x);
        WalkStaysBelow(d, e, u, x, p, i + 1, |p| - 1);
        WalkStaysBelow(d, e, u, x, p, 0, i);
      }
    }
  }

  /** One new edge closes a cycle exactly when the inviter was below the invited. */
  lemma {:induction false} OneEdge(d: Desk, e: Desk, u: int, x: int)
    requires !Cyclic(d) && Keeps(d, e) && HasEdge(e, u, x)
    requires forall a, b :: Adds(d, e, a, b) ==> a == u && b == x
    ensures Cyclic(e) <==> Reaches(d, x, u)
  {
    if Reaches(d, x, u) {
      var p :| Leads(d, p, x, u);
      PathKept(d, e, p);
      var r := [u] + p;
      forall i | 0 <= i < |r| - 1 ensures HasEdge(e, r[i], r[i + 1]) {
        if i > 0 { assert HasEdge(e, p[i - 1], p[i - 1 + 1]); }
      }
      assert Path(e, r);
    }
    if Cyclic(e) {
      var p :| Path(e, p) && |p| > 1 && p[0] == p[|p| - 1];
      LoopNeedsReach(d, e, u, x, p);
    }
  }

  lemma {:induction false} FewerEdges(d: Desk, e: Desk)
    requires !Cyclic(d) && Keeps(e, d)
    ensures !Cyclic(e)
  {
    if p :| Path(e, p) && |p| > 1 && p[0] == p[|p| - 1] { PathKept(e, d, p); }
  }

  // ---- what a step adds to the tree ---------------------------------------------------------

  lemma {:induction false} SpendAdds(d: Desk, typed: string, admin: int, now: nat, u: int, x: int)
    requires Adds(d, Spend(d, typed, admin, now), u, x)
    ensures x == admin && exists code :: Spelled(d, code, typed) && d.tokens[code].createdBy == u
  {
    var e := Spend(d, typed, admin, now);
    var code :| code in e.tokens && e.tokens[code].createdBy == u && u != x &&
      ((code, x) in e.rows || e.tokens[code].usedBy == Some(x));
    assert Spelled(d, code, typed);
  }

  lemma {:induction false} SpendKeepsEdges(d: Desk, typed: string, admin: int, now: nat)
    ensures Keeps(d, Spend(d, typed, admin, now))
  {
    var e := Spend(d, typed, admin, now);
    forall u, x | HasEdge(d, u, x) ensures HasEdge(e, u, x) {
      var code :| code in d.tokens && d.tokens[code].createdBy == u && u != x &&
        ((code, x) in d.rows || d.tokens[code].usedBy == Some(x));
      assert code in e.tokens && e.tokens[code].createdBy == u;
    }
  }

  lemma {:induction false} RecordAdds(d: Desk, typed: string, admin: int)
    ensures Keeps(d, Recorded(d, typed, admin))
    ensures forall u, x :: Adds(d, Recorded(d, typed, admin), u, x) ==>
      x == admin && typed in d.tokens && d.tokens[typed].createdBy == u
  {
    var e := Recorded(d, typed, admin);
    forall u, x | HasEdge(d, u, x) ensures HasEdge(e, u, x) {
      var code :| code in d.tokens && d.tokens[code].createdBy == u && u != x &&
        ((code, x) in d.rows || d.tokens[code].usedBy == Some(x));
      assert code in e.tokens;
    }
    forall u, x | Adds(d, e, u, x)
      ensures x == admin && typed in d.tokens && d.tokens[typed].createdBy == u
    {
      var code :| code in e.tokens && e.tokens[code].createdBy == u && u != x &&
        ((code, x) in e.rows || e.tokens[code].usedBy == Some(x));
      assert (code, x) in d.rows ==> HasEdge(d, u, x);
    }
  }

  lemma {:induction false} IssueAddsNothing(m: Machine, code: string, expiresAt: nat, creator: int, maxUses: int)
    requires FreshCode(m, code)
    ensures Keeps(AfterIssue(m, code, expiresAt, creator, maxUses).desk, m.desk)
  {
    var e := AfterIssue(m, code, expiresAt, creator, maxUses).desk;
    forall u, x | HasEdge(e, u, x) ensures HasEdge(m.desk, u, x) {
      var c :| c in e.tokens && e.tokens[c].createdBy == u && u != x &&
        ((c, x) in e.rows || e.tokens[c].usedBy == Some(x));
      assert (c, x) in m.desk.rows ==> Upper((c, x).0) != Upper(code);
    }
  }

  lemma {:induction false} RevokeAddsNothing(d: Desk, code: string)
    ensures Keeps(d.(tokens := d.tokens - {code}), d)
  {
    var e := d.(tokens := d.tokens - {code});
    forall u, x | HasEdge(e, u, x) ensures HasEdge(d, u, x) {
      var c :| c in e.tokens && e.tokens[c].createdBy == u && u != x &&
        ((c, x) in e.rows || e.tokens[c].usedBy == Some(x));
      assert c in d.tokens;
    }
  }

  /** A step adds at most one edge, and one that adds an edge removes none. */
  lemma {:induction false} StepAddsOne(m: Machine, step: Step)
    requires OneSpelling(m)
    ensures var n := Next(m, step);
      || Keeps(n.desk, m.desk)
      || (Keeps(m.desk, n.desk) && forall u, x, v, y :: Adds(m.desk, n.desk, u, x) && Adds(m.desk, n.desk, v, y) ==>
        u == v && x == y)
  {
    match step
    case Issue(code, expiresAt, creator, maxUses) =>
      if FreshCode(m, code) { IssueAddsNothing(m, code, expiresAt, creator, maxUses); }
    case Revoke(code) => RevokeAddsNothing(m.desk, code);
    case LateCheck(_, _, _) =>
    case RegisterSpend(request, token, now) => SpendAddsOne(m, TrimSpace(token), m.nextId, now);
    case LateSpend(request, now) =>
      if request in m.cleared { SpendAddsOne(m, m.cleared[request].0, m.cleared[request].1, now); }
    case Record(request) => if request in m.pending { RecordAdds(m.desk, m.pending[request].0, m.pending[request].1); }
  }

  lemma {:induction false} SpendAddsOne(m: Machine, typed: string, admin: int, now: nat)
    requires OneSpelling(m)
    ensures var e := Spend(m.desk, typed, admin, now);
      Keeps(m.desk, e) && forall u, x, v, y :: Adds(m.desk, e, u, x) && Adds(m.desk, e, v, y) ==> u == v && x == y
  {
    var e := Spend(m.desk, typed, admin, now);
    SpendKeepsEdges(m.desk, typed, admin, now);
    forall u, x, v, y | Adds(m.desk, e, u, x) && Adds(m.desk, e, v, y)
      ensures u == v && x == y
    {
      SpendAdds(m.desk, typed, admin, now, u, x);
      SpendAdds(m.desk, typed, admin, now, v, y);
    }
  }

  lemma {:induction false} StepStaysAcyclic(m: Machine, step: Step)
    requires OneSpelling(m) && !Cyclic(m.desk)
    ensures !Cyclic(Next(m, step).desk) <==> forall u, x :: Adds(m.desk, Next(m, step).desk, u, x) ==>
      !Reaches(m.desk, x, u)
  {
    var n := Next(m, step);
    StepAddsOne(m, step);
    if Keeps(n.desk, m.desk) {
      FewerEdges(m.desk, n.desk);
    } else {
      var u, x :| HasEdge(n.desk, u, x) && !HasEdge(m.desk, u, x);
      assert Adds(m.desk, n.desk, u, x);
      OneEdge(m.desk, n.desk, u, x);
    }
  }

  /** The step makes nobody the inviter of an account they are already below. */
  ghost predicate ClosesNothing(m: Machine, step: Step) {
    forall u, x :: Adds(m.desk, Next(m, step).desk, u, x) ==> !Reaches(m.desk, x, u)
  }

  /** At no moment of the run is there a cycle. */
  ghost predicate NeverCyclic(steps: seq<Step>) {
    !Cyclic(Run(START, steps).desk) && (steps == [] || NeverCyclic(steps[..|steps| - 1]))
  }

  /** No step of the run closes a cycle. */
  ghost predicate NothingCloses(steps: seq<Step>) {
    steps == [] ||
    (NothingCloses(steps[..|steps| - 1]) && ClosesNothing(Run(START, steps[..|steps| - 1]), steps[|steps| - 1]))
  }

  /** In every run, with redemptions by existing accounts in any interleaving, the tree stays
      free of cycles throughout if and only if no step makes somebody the inviter of an account
      they are already below. */
  lemma {:induction false} AcyclicRuns(steps: seq<Step>)
    ensures NeverCyclic(steps) <==> NothingCloses(steps)
  {
    if steps == [] {
      StartIsAcyclic();
    } else {
      var n := |steps| - 1;
      AcyclicRuns(steps[..n]);
      RunsStayCounted(steps[..n]);
      StepCloses(Run(START, steps[..n]), steps[n], Run(START, steps));
    }
  }

  lemma {:induction false} StepCloses(m: Machine, step: Step, n: Machine)
    requires OneSpelling(m) && n == Next(m, step)
    ensures !Cyclic(m.desk) ==> (!Cyclic(n.desk) <==> ClosesNothing(m, step))
  {
    if !Cyclic(m.desk) { StepStaysAcyclic(m, step); }
  }

  lemma {:induction false} StartIsAcyclic()
    ensures !Cyclic(START.desk)
  {
    forall p | Path(START.desk, p) ensures |p| <= 1 {
      assert |p| > 1 ==> !HasEdge(START.desk, p[0], p[0 + 1]);
    }
  }

  ghost predicate GivesEdge(d: Desk, code: string, typed: string, admin: int)
    requires code in d.tokens
  {
    typed == code || d.tokens[code].usedBy in {None, Some(admin)} || (code, admin) in d.rows
  }

  /** An existing account redeems a code it may redeem. The tree stays free of cycles if and
      only if the code's issuer is not below the account, or the redemption gives no edge: it
      was typed in another spelling and somebody else had used it first. */
  lemma {:induction false} LateRedemption(m: Machine, request: int, code: string, now: nat)
    requires OneSpelling(m) && !Cyclic(m.desk) && request in m.cleared && request !in m.pending
    requires Hits(m.desk, m.cleared[request].0, now) == {code} && m.desk.tokens[code].createdBy != m.cleared[request].1
    ensures var (typed, admin) := m.cleared[request];
      !Cyclic(Next(Next(m, LateSpend(request, now)), Record(request)).desk) <==>
        (GivesEdge(m.desk, code, typed, admin) ==> !Reaches(m.desk, admin, m.desk.tokens[code].createdBy))
  {
    var (typed, admin) := m.cleared[request];
    var spent := Spend(m.desk, typed, admin, now);
    var end := Recorded(spent, typed, admin);
    var u := m.desk.tokens[code].createdBy;
    assert code in Hits(m.desk, typed, now);
    assert Next(Next(m, LateSpend(request, now)), Record(request)).desk == end;
    SpendKeepsEdges(m.desk, typed, admin, now);
    RecordAdds(spent, typed, admin);
    forall a, b | Adds(m.desk, end, a, b) ensures a == u && b == admin {
      if Adds(m.desk, spent, a, b) {
        SpendAdds(m.desk, typed, admin, now, a, b);
      } else {
        assert Adds(spent, end, a, b);
      }
    }
    assert end.tokens[code].createdBy == u && end.tokens[code].usedBy.Some?;
    if GivesEdge(m.desk, code, typed, admin) {
      assert HasEdge(end, u, admin);
      OneEdge(m.desk, end, u, admin);
    } else {
      NoEdgeFromOtherSpelling(m.desk, code, typed, admin, now);
      FewerEdges(m.desk, end);
    }
  }

  lemma {:induction false} NoEdgeFromOtherSpelling(d: Desk, code: string, typed: string, admin: int, now: nat)
    requires Hits(d, typed, now) == {code} && typed != code && d.tokens[code].usedBy.Some?
    requires forall c, e :: c in d.tokens && e in d.tokens && Upper(c) == Upper(e) ==> c == e
    ensures Keeps(Recorded(Spend(d, typed, admin, now), typed, admin), d)
  {
    var end := Recorded(Spend(d, typed, admin, now), typed, admin);
    assert code in Hits(d, typed, now);
    forall u, x | HasEdge(end, u, x) ensures HasEdge(d, u, x) {
      var c :| c in end.tokens && end.tokens[c].createdBy == u && u != x &&
        ((c, x) in end.rows || end.tokens[c].usedBy == Some(x));
      assert c in d.tokens && c != typed;
      assert c != code ==> c !in Hits(d, typed, now);
    }
  }

  /** The map the panel reads holds some of these edges, so it has no cycle if they have none;
      if nobody has two inviters it holds all of them, and has one exactly if they do. */
  lemma {:induction false} ReadTree(d: Desk, parent: Parents)
    requires TreeOf(d, parent)
    ensures !Cyclic(d) ==> Acyclic(parent)
    ensures (forall u, x :: HasEdge(d, u, x) ==> x in parent && parent[x] == u) ==> (Acyclic(parent) <==> !Cyclic(d))
  {
    forall x, n: nat | n > 0 && Up(parent, x, n) == Some(x) ensures Cyclic(d) {
      var p := PathDown(d, parent, x, n);
    }
    if (forall u, x :: HasEdge(d, u, x) ==> x in parent && parent[x] == u) && Cyclic(d) {
      var p :| Path(d, p) && |p| > 1 && p[0] == p[|p| - 1];
      PathUp(d, parent, p);
      assert Up(parent, p[0], |p| - 1) == Some(p[0]);
    }
  }

  ghost predicate Joined(d: Desk, code: string, child: int, e: Edge) {
    code in d.tokens && (code, child) in d.rows && e == Edge(Some(d.tokens[code].createdBy), Some(child))
  }

  ghost predicate FirstUser(d: Desk, code: string, e: Edge) {
    code in d.tokens && d.tokens[code].usedBy.Some? && e == Edge(Some(d.tokens[code].createdBy), d.tokens[code].usedBy)
  }

  /** The rows the two queries of the tree return, in whatever order: each redemption of a code
      that is there, and each code's first user. */
  ghost predicate ReadsRows(d: Desk, redeemed: seq<Edge>, legacy: seq<Edge>) {
    && (forall e :: e in redeemed <==> exists code, child :: Joined(d, code, child, e))
    && forall e :: e in legacy <==> exists code :: FirstUser(d, code, e)
  }

  lemma {:induction false} RowIsEdge(d: Desk, redeemed: seq<Edge>, legacy: seq<Edge>, e: Edge)
    requires ReadsRows(d, redeemed, legacy) && e in redeemed + legacy && Usable(e)
    ensures HasEdge(d, Deref(e.createdBy), Deref(e.usedBy))
  {
    if e in redeemed {
      var code, child :| Joined(d, code, child, e);
    } else {
      var code :| FirstUser(d, code, e);
    }
  }

  lemma {:induction false} EdgeIsRow(d: Desk, redeemed: seq<Edge>, legacy: seq<Edge>, u: int, x: int)
    requires ReadsRows(d, redeemed, legacy) && HasEdge(d, u, x)
    ensures Edge(Some(u), Some(x)) in redeemed + legacy
  {
    var code :| code in d.tokens && d.tokens[code].createdBy == u && u != x &&
      ((code, x) in d.rows || d.tokens[code].usedBy == Some(x));
    var e := Edge(Some(u), Some(x));
    assert Joined(d, code, x, e) || FirstUser(d, code, e);
  }

  /** The map read off those rows is a tree of the tables, and holds everybody who has an
      inviter there. */
  method ReadEdges(d: Desk, redeemed: seq<Edge>, legacy: seq<Edge>) returns (parent: Parents)
    requires ReadsRows(d, redeemed, legacy)
    ensures TreeOf(d, parent)
    ensures forall u, x :: HasEdge(d, u, x) && u != 0 && x != 0 ==> x in parent
  {
    parent := InviteEdges(redeemed, legacy);
    var rows := redeemed + legacy;
    forall c | c in parent ensures HasEdge(d, parent[c], c) {
      var i: nat :| FirstInvite(rows, i, c);
      assert rows[i] in rows;
      RowIsEdge(d, redeemed, legacy, rows[i]);
    }
    forall u, x | HasEdge(d, u, x) && u != 0 && x != 0 ensures x in parent {
      EdgeIsRow(d, redeemed, legacy, u, x);
      var i :| 0 <= i < |rows| && rows[i] == Edge(Some(u), Some(x));
      var k := FirstOf(rows, x, i);
    }
  }

  lemma {:induction false} FirstOf(rows: seq<Edge>, x: int, i: nat) returns (k: nat)
    requires i < |rows| && Usable(rows[i]) && Deref(rows[i].usedBy) == x
    ensures FirstInvite(rows, k, x)
    decreases i
  {
    if j: nat :| j < i && Usable(rows[j]) && Deref(rows[j].usedBy) == x {
      k := FirstOf(rows, x, j);
    } else {
      k := i;
    }
  }

  /** The inviters of x read downward. */
  ghost function PathDown(d: Desk, parent: Parents, x: int, n: nat): (p: seq<int>)
    requires TreeOf(d, parent) && Up(parent, x, n).Some?
    ensures Path(d, p) && |p| == n + 1 && p[0] == Up(parent, x, n).value && p[n] == x
    decreases n
  {
    if n == 0 then [x]
    else
      var p := PathDown(d, parent, parent[x], n - 1);
      assert HasEdge(d, parent[x], x);
      p + [x]
  }

  lemma {:induction false} PathUp(d: Desk, parent: Parents, p: seq<int>)
    requires Path(d, p) && forall u, x :: HasEdge(d, u, x) ==> x in parent && parent[x] == u
    ensures Up(parent, p[|p| - 1], |p| - 1) == Some(p[0])
    decreases |p|
  {
    if |p| > 1 {
      var k := |p| - 1;
      assert HasEdge(d, p[k - 1], p[k - 1 + 1]);
      var q := p[..k];
      forall i | 0 <= i < |q| - 1 ensures HasEdge(d, q[i], q[i + 1]) { assert HasEdge(d, p[i], p[i + 1]); }
      PathUp(d, parent, q);
    }
  }

  /** 1 invites 2; then 1, who was never invited, asks to redeem a code of 2. */
  ghost function CycleSteps(now: nat): seq<Step> {
    [RegisterSpend(0, "", now), Issue("A", 0, 1, 1), RegisterSpend(1, "A", now), Record(1),
     Issue("B", 0, 2, 1), LateCheck(2, 1, "B"), LateSpend(2, now), Record(2)]
  }

  lemma {:induction false} RunNext(m: Machine, steps: seq<Step>, k: nat)
    requires k < |steps|
    ensures Run(m, steps[..k + 1]) == Next(Run(m, steps[..k]), steps[k])
  {
    assert steps[..k + 1][..k] == steps[..k];
  }

  lemma {:induction false} ShortCodes()
    ensures TrimSpace("") == "" && TrimSpace("A") == "A" && TrimSpace("B") == "B"
    ensures Upper("A") == "A" && Upper("B") == "B"
  {
    TrimNothing("A");
    TrimNothing("B");
  }

  const DESK_A := Desk(map["A" := Token(1, 1, 0, 0, 0, None)], {})

  function DeskA2(now: nat): Desk { Desk(map["A" := Token(1, 1, 1, 0, now, Some(2))], {}) }

  function DeskAB(now: nat): Desk {
    Desk(map["A" := Token(1, 1, 1, 0, now, Some(2)), "B" := Token(2, 1, 0, 0, 0, None)], {("A", 2)})
  }

  function DeskAB1(now: nat): Desk {
    Desk(map["A" := Token(1, 1, 1, 0, now, Some(2)), "B" := Token(2, 1, 1, 0, now, Some(1))], {("A", 2)})
  }

  lemma {:induction false} FirstJoins(now: nat)
    ensures Next(Next(START, RegisterSpend(0, "", now)), Issue("A", 0, 1, 1)) == Machine(DESK_A, map[], map[], 2)
  {
    ShortCodes();
  }

  lemma {:induction false} SecondSpends(now: nat)
    ensures Next(Machine(DESK_A, map[], map[], 2), RegisterSpend(1, "A", now))
      == Machine(DeskA2(now), map[], map[1 := ("A", 2)], 3)
  {
    ShortCodes();
    assert "A" in Hits(DESK_A, "A", now);
    assert Spend(DESK_A, "A", 2, now) == DeskA2(now);
  }

  lemma {:induction false} SecondIssues(now: nat)
    ensures Next(Next(Machine(DeskA2(now), map[], map[1 := ("A", 2)], 3), Record(1)), Issue("B", 0, 2, 1))
      == Machine(DeskAB(now), map[], map[], 3)
  {
    ShortCodes();
    var m := Machine(Recorded(DeskA2(now), "A", 2), map[], map[], 3);
    assert Next(Machine(DeskA2(now), map[], map[1 := ("A", 2)], 3), Record(1)) == m;
    assert FreshCode(m, "B");
  }

  lemma {:induction false} FirstIsCleared(now: nat)
    ensures Next(Machine(DeskAB(now), map[], map[], 3), LateCheck(2, 1, "B")) ==
      Machine(DeskAB(now), map[2 := ("B", 1)], map[], 3)
  {
    ShortCodes();
    assert Allowed(DeskAB(now), 1, "B", Some("B"));
  }

  lemma {:induction false} FirstSpends(now: nat)
    ensures Next(Next(Machine(DeskAB(now), map[2 := ("B", 1)], map[], 3), LateSpend(2, now)), Record(2)).desk
      == Recorded(DeskAB1(now), "B", 1)
  {
    ShortCodes();
    assert "B" in Hits(DeskAB(now), "B", now);
    assert Spend(DeskAB(now), "B", 1, now) == DeskAB1(now);
    assert Next(Machine(DeskAB(now), map[2 := ("B", 1)], map[], 3), LateSpend(2, now))
      == Machine(DeskAB1(now), map[], map[2 := ("B", 1)], 3);
  }

  lemma {:induction false} TwoNext(m: Machine, steps: seq<Step>, k: nat)
    requires k + 1 < |steps|
    ensures Run(m, steps[..k + 2]) == Next(Next(Run(m, steps[..k]), steps[k]), steps[k + 1])
  {
    RunNext(m, steps, k);
    RunNext(m, steps, k + 1);
  }

  lemma {:induction false} SecondJoins(now: nat)
    ensures Run(START, CycleSteps(now)[..3]) == Machine(DeskA2(now), map[], map[1 := ("A", 2)], 3)
  {
    TwoNext(START, CycleSteps(now), 0);
    FirstJoins(now);
    RunNext(START, CycleSteps(now), 2);
    SecondSpends(now);
  }

  lemma {:induction false} FirstAsks(now: nat)
    ensures Run(START, CycleSteps(now)[..5]).desk == DeskAB(now)
    ensures Run(START, CycleSteps(now)[..6]) == Machine(DeskAB(now), map[2 := ("B", 1)], map[], 3)
  {
    SecondHasIssued(now);
    RunNext(START, CycleSteps(now), 5);
    FirstIsCleared(now);
  }

  lemma {:induction false} SecondHasIssued(now: nat)
    ensures Run(START, CycleSteps(now)[..5]) == Machine(DeskAB(now), map[], map[], 3)
  {
    SecondJoins(now);
    TwoNext(START, CycleSteps(now), 3);
    SecondIssues(now);
  }

  lemma {:induction false} FirstRedeems(now: nat)
    ensures Run(START, CycleSteps(now)).desk == Recorded(DeskAB1(now), "B", 1)
  {
    FirstAsks(now);
    TwoNext(START, CycleSteps(now), 6);
    FirstSpends(now);
    assert CycleSteps(now)[..8] == CycleSteps(now);
  }

  lemma {:induction false} PathAscends(d: Desk, p: seq<int>)
    requires Path(d, p) && forall u, x :: HasEdge(d, u, x) ==> u < x
    ensures |p| > 1 ==> p[0] < p[|p| - 1]
    decreases |p|
  {
    if |p| > 1 {
      var k := |p| - 1;
      assert HasEdge(d, p[k - 1], p[k - 1 + 1]);
      var q := p[..k];
      forall i | 0 <= i < |q| - 1 ensures HasEdge(d, q[i], q[i + 1]) { assert HasEdge(d, p[i], p[i + 1]); }
      PathAscends(d, q);
    }
  }

  lemma {:induction false} AloneAscends(now: nat)
    ensures !Cyclic(DeskAB(now))
  {
    forall p | Path(DeskAB(now), p) && |p| > 1 ensures p[0] != p[|p| - 1] { PathAscends(DeskAB(now), p); }
  }

  lemma {:induction false} EachOther(now: nat)
    ensures var d := Recorded(DeskAB1(now), "B", 1);
      var parent := map[2 := 1, 1 := 2];
      Cyclic(d) && TreeOf(d, parent) && (forall u, x :: HasEdge(d, u, x) ==> x in parent && parent[x] == u)
  {
    var d := Recorded(DeskAB1(now), "B", 1);
    assert d.tokens["A"].createdBy == 1 && d.tokens["B"].createdBy == 2;
    assert HasEdge(d, 1, 2) && HasEdge(d, 2, 1);
    assert Path(d, [1, 2, 1]);
  }

  /** The run in which it happens, past every check of the handler: the tables end up saying,
      and the panel reading, that 1 and 2 invited each other. */
  lemma {:induction false} LateRedemptionMakesCycle(now: nat)
    ensures var d := Run(START, CycleSteps(now)).desk;
      var parent := map[2 := 1, 1 := 2];
      && !Cyclic(Run(START, CycleSteps(now)[..5]).desk) && Cyclic(d)
      && TreeOf(d, parent) && (forall u, x :: HasEdge(d, u, x) ==> x in parent && parent[x] == u) && !Acyclic(parent)
  {
    FirstAsks(now);
    FirstRedeems(now);
    AloneAscends(now);
    EachOther(now);
    ReadTree(Recorded(DeskAB1(now), "B", 1), map[2 := 1, 1 := 2]);
  }

  /** A newcomer's redemption puts them in the tree exactly when they typed the code as it
      is stored, or were its first user: the match ignores case, the join does not. */
  lemma {:induction false} RedemptionGivesEdge(d: Desk, code: string, typed: string, admin: int, now: nat)
    requires Hits(d, typed, now) == {code}
    requires forall c, e :: c in d.tokens && e in d.tokens && Upper(c) == Upper(e) ==> c == e
    requires forall row :: row in d.rows ==> row.1 != admin
    requires forall c :: c in d.tokens ==> d.tokens[c].usedBy != Some(admin) && d.tokens[c].createdBy != admin
    ensures var after := Recorded(Spend(d, typed, admin, now), typed, admin);
      (exists inviter :: HasEdge(after, inviter, admin)) <==> typed == code || d.tokens[code].usedBy.None?
  {
    var after := Recorded(Spend(d, typed, admin, now), typed, admin);
    assert code in Hits(d, typed, now);
    forall c | c in d.tokens && c != code
      ensures after.tokens[c] == d.tokens[c] && c != typed
    {
      assert c !in Hits(d, typed, now);
    }
    if typed == code || d.tokens[code].usedBy.None? {
      assert HasEdge(after, after.tokens[code].createdBy, admin);
    }
  }

  /** A code typed in lower case by its second user: a use is spent and recorded, and no edge
      comes of it. */
  lemma {:induction false} RedemptionWithoutEdge(now: nat)
    ensures var d := Desk(map["A" := Token(1, 0, 1, 0, 5, Some(2))], {("A", 2)});
      var after := Recorded(Spend(d, "a", 3, now), "a", 3);
      Hits(d, "a", now) == {"A"} && after.tokens["A"].useCount == 2 && !HasEdge(after, 1, 3)
  {
    var d := Desk(map["A" := Token(1, 0, 1, 0, 5, Some(2))], {("A", 2)});
    assert Upper("a") == Upper("A") == "A";
    assert Hits(d, "a", now) == {"A"};
    assert "a"[0] != "A"[0];
  }

  // ---- what a single redemption may do ----------------------------------------------------------

  /** No use of a code is ever spent at or after its expiry, nor beyond its limit; and a code
      that has neither passed can be spent under any spelling. */
  lemma {:induction false} SpentOnlyWhileGood(d: Desk, typed: string, admin: int, now: nat, code: string)
    requires code in d.tokens
    ensures var t, after := d.tokens[code], Spend(d, typed, admin, now).tokens[code];
      var expired, used := 0 < t.expiresAt <= now, 0 < t.maxUses <= t.useCount;
      && (after != t <==> Upper(code) == Upper(typed) && !expired && !used)
      && (after.useCount == t.useCount || after.useCount == t.useCount + 1)
      && (after.useCount != t.useCount <==> after != t)
      && after.maxUses == t.maxUses && after.expiresAt == t.expiresAt && after.createdBy == t.createdBy
  {}

  /** The first redeemer and the time of the first use stay. */
  lemma {:induction false} FirstUseStays(t: Token, first: int, at: nat, second: int, later: nat)
    requires t.usedBy.None? && t.usedAt == 0 && at > 0
    ensures var twice := SpendOne(SpendOne(t, first, at), second, later);
      twice.usedBy == Some(first) && twice.usedAt == at && twice.useCount == t.useCount + 2
  {}

  /** A fresh code can be spent exactly while fewer than its limit have been, a negative limit
      standing for one and zero for no limit at all. */
  lemma {:induction false} FreshLimit(code: string, creator: int, maxUses: int, n: nat, now: nat)
    ensures var t := Issued(Desk(map[], {}), code, 0, creator, maxUses).tokens[code];
      && t.createdBy == creator && t.useCount == 0 && t.usedBy == None
      && (Spendable(t.(useCount := n), now) <==> maxUses == 0 || n < if maxUses < 0 then 1 else maxUses)
  {}

  /** Whoever has redeemed a code may not redeem another, and nobody their own. */
  lemma {:induction false} RedeemedOnce(d: Desk, typed: string, admin: int, now: nat, other: string)
    ensures !MayRedeem(Recorded(Spend(d, typed, admin, now), typed, admin), admin, other)
    ensures (forall code :: Spelled(d, code, typed) ==> d.tokens[code].createdBy == admin) ==>
      !MayRedeem(d, admin, typed)
  {
    var after := Recorded(Spend(d, typed, admin, now), typed, admin);
    assert (typed, admin) in after.rows && (typed, admin).1 == admin;
  }
}
