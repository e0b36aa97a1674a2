/**
 * Which account an Access identity signs in to (apps/api/src/mcp/access-jwt.adapter.ts): resolve the employee on every
 * request, then bind the account to the first subject it sees, by a write-once update that racing first logins contend
 * for. The bearer is already verified; a login is its subject and its email claim.
 */
module AccessBinding {
  import opened Wrappers
  import opened Text

  type UserId = nat
  type Subject = nat
  type Workspace = nat
  type Request = nat

  datatype User = User(id: UserId, email: string, active: bool, emailVerified: bool, deleted: bool, subject: Option<Subject>)

  datatype Found = Nobody | Ambiguous | Employee(user: User)

  // ── findEmployee ───────────────────────────────────────────────────────────

  predicate IsExact(u: User, email: string) {
    u.email == email && !u.deleted
  }

  predicate IsVariant(u: User, email: string) {
    Lower(u.email) == email && !u.deleted
  }

  /** `WHERE email = $1 AND deleted_at IS NULL LIMIT 1`, in whatever order the rows come. */
  function FirstExact(rows: seq<User>, email: string): Option<User> {
    if rows == [] then None
    else if IsExact(rows[0], email) then Some(rows[0])
    else FirstExact(rows[1..], email)
  }

  function Variants(rows: seq<User>, email: string): seq<User> {
    if rows == [] then []
    else (if IsVariant(rows[0], email) then [rows[0]] else []) + Variants(rows[1..], email)
  }

  function FindEmployee(rows: seq<User>, email: string): Found {
    var exact := FirstExact(rows, email);
    if exact.Some? then Employee(exact.value)
    else
      var matches := Variants(rows, email);
      if |matches| > 1 then Ambiguous else if |matches| == 1 then Employee(matches[0]) else Nobody
  }

  /** uq_users_email */
  ghost predicate UniqueLiveEmails(rows: seq<User>) {
    forall i, j :: 0 <= i < j < |rows| && !rows[i].deleted && !rows[j].deleted ==> rows[i].email != rows[j].email
  }

  lemma {:induction false} FirstExactIsAny(rows: seq<User>, email: string)
    ensures match FirstExact(rows, email)
            case Some(u) => u in rows && IsExact(u, email)
            case None => forall u <- rows :: !IsExact(u, email)
  {
    if rows != [] { FirstExactIsAny(rows[1..], email); }
  }

  lemma {:induction false} VariantsCount(rows: seq<User>, email: string, u: User)
    ensures multiset(Variants(rows, email))[u] == if IsVariant(u, email) then multiset(rows)[u] else 0
  {
    if rows != [] {
      VariantsCount(rows[1..], email, u);
      assert rows == [rows[0]] + rows[1..];
    }
  }

  lemma SameExact(a: seq<User>, b: seq<User>, email: string)
    requires (forall u :: u in a <==> u in b) && UniqueLiveEmails(a)
    ensures FirstExact(a, email) == FirstExact(b, email)
  {
    FirstExactIsAny(a, email);
    FirstExactIsAny(b, email);
    if FirstExact(a, email).Some? && FirstExact(b, email).Some? {
      var x, y := FirstExact(a, email).value, FirstExact(b, email).value;
      var i :| 0 <= i < |a| && a[i] == x;
      var j :| 0 <= j < |a| && a[j] == y;
      assert i <= j && j <= i;
    }
  }

  lemma SameVariants(a: seq<User>, b: seq<User>, email: string)
    requires multiset(a) == multiset(b)
    ensures multiset(Variants(a, email)) == multiset(Variants(b, email))
  {
    forall u: User ensures multiset(Variants(a, email))[u] == multiset(Variants(b, email))[u] {
      VariantsCount(a, email, u);
      VariantsCount(b, email, u);
    }
  }

  lemma SingletonsAgree<T>(x: seq<T>, y: seq<T>)
    requires multiset(x) == multiset(y)
    ensures |x| == |y| && (|x| == 1 ==> x == y)
  {
    assert |x| == |multiset(x)| && |y| == |multiset(y)|;
    if |x| == 1 {
      assert x == [x[0]] && y == [y[0]];
      assert y[0] in multiset(x);
    }
  }

  /** With unique live emails the answer is about the data: any order of the same rows gives the same employee. */
  lemma RowOrderIsIrrelevant(a: seq<User>, b: seq<User>, email: string)
    requires multiset(a) == multiset(b) && UniqueLiveEmails(a)
    ensures FindEmployee(a, email) == FindEmployee(b, email)
  {
    assert forall u :: u in a <==> u in b by {
      assert forall u :: u in a <==> u in multiset(a);
      assert forall u :: u in b <==> u in multiset(b);
    }
    SameExact(a, b, email);
    SameVariants(a, b, email);
    SingletonsAgree(Variants(a, email), Variants(b, email));
  }

  predicate VariantAt(rows: seq<User>, email: string, i: nat) {
    i < |rows| && IsVariant(rows[i], email)
  }

  ghost predicate TwoVariants(rows: seq<User>, email: string) {
    exists i: nat, j: nat :: i < j && VariantAt(rows, email, i) && VariantAt(rows, email, j)
  }

  lemma {:induction false} VariantsAreRows(rows: seq<User>, email: string)
    ensures forall u <- Variants(rows, email) :: u in rows && IsVariant(u, email)
    ensures |Variants(rows, email)| == 0 <==> forall u <- rows :: !IsVariant(u, email)
  {
    if rows != [] {
      VariantsAreRows(rows[1..], email);
      assert rows[0] in rows && forall u <- rows :: u == rows[0] || u in rows[1..];
    }
  }

  lemma VariantAtCons(first: User, rest: seq<User>, email: string, i: nat)
    ensures VariantAt([first] + rest, email, 0) <==> IsVariant(first, email)
    ensures VariantAt([first] + rest, email, i + 1) <==> VariantAt(rest, email, i)
  {}

  lemma TwoVariantsCons(first: User, rest: seq<User>, email: string)
    ensures TwoVariants([first] + rest, email) <==>
              TwoVariants(rest, email) || (IsVariant(first, email) && exists j: nat :: VariantAt(rest, email, j))
  {
    var rows := [first] + rest;
    if TwoVariants(rest, email) {
      var i: nat, j: nat :| i < j && VariantAt(rest, email, i) && VariantAt(rest, email, j);
      VariantAtCons(first, rest, email, i);
      VariantAtCons(first, rest, email, j);
    } else if j: nat :| IsVariant(first, email) && VariantAt(rest, email, j) {
      VariantAtCons(first, rest, email, j);
    } else if TwoVariants(rows, email) {
      var i: nat, j: nat :| i < j && VariantAt(rows, email, i) && VariantAt(rows, email, j);
      VariantAtCons(first, rest, email, j - 1);
      VariantAtCons(first, rest, email, if i > 0 then i - 1 else 0);
    }
  }

  lemma {:induction false} ManyVariants(rows: seq<User>, email: string)
    ensures |Variants(rows, email)| > 1 <==> TwoVariants(rows, email)
  {
    if rows != [] {
      ManyVariants(rows[1..], email);
      VariantsAreRows(rows[1..], email);
      TwoVariantsCons(rows[0], rows[1..], email);
      assert (exists j: nat :: VariantAt(rows[1..], email, j)) <==> exists u <- rows[1..] :: IsVariant(u, email) by {
        if u :| u in rows[1..] && IsVariant(u, email) {
          var j: nat :| j < |rows[1..]| && rows[1..][j] == u;
          assert VariantAt(rows[1..], email, j);
        }
      }
      assert rows == [rows[0]] + rows[1..];
    }
  }

  /**
   * The exact address wins even beside a case variant; without one a single live variant is the employee, two are
   * ambiguous, and none is nobody.
   */
  lemma FindEmployeeIs(rows: seq<User>, email: string)
    ensures var found := FindEmployee(rows, email);
            var exact := exists u <- rows :: IsExact(u, email);
            && (found.Employee? ==> found.user in rows && if exact then IsExact(found.user, email) else IsVariant(found.user, email))
            && (found.Ambiguous? <==> !exact && TwoVariants(rows, email))
            && (found.Nobody? <==> !exact && forall u <- rows :: !IsVariant(u, email))
  {
    FirstExactIsAny(rows, email);
    VariantsAreRows(rows, email);
    ManyVariants(rows, email);
    var matches := Variants(rows, email);
    if |matches| == 1 { assert matches[0] in matches; }
  }

  // ── The write-once binding ─────────────────────────────────────────────────

  datatype BindError = DuplicateSubject

  predicate Unbound(rows: seq<User>, id: UserId) {
    exists u <- rows :: u.id == id && u.subject.None?
  }

  predicate SubjectTaken(rows: seq<User>, subject: Subject) {
    exists u <- rows :: u.subject == Some(subject)
  }

  function SetSubject(rows: seq<User>, id: UserId, subject: Subject): (r: seq<User>)
    ensures |r| == |rows|
    ensures forall i :: 0 <= i < |rows| ==>
              r[i] == if rows[i].id == id && rows[i].subject.None? then rows[i].(subject := Some(subject)) else rows[i]
  {
    seq(|rows|, i requires 0 <= i < |rows| =>
      if rows[i].id == id && rows[i].subject.None? then rows[i].(subject := Some(subject)) else rows[i])
  }

  function SubjectOf(rows: seq<User>, id: UserId): Option<Subject> {
    if rows == [] then None else if rows[0].id == id then rows[0].subject else SubjectOf(rows[1..], id)
  }

  // ── verify, step by step, for any number of requests ───────────────────────

  datatype DenyReason =
    | NoEmailClaim | NoActiveEmployee | AmbiguousEmail | SubjectMismatch | SubjectIsTaken | NoWorkspace | AmbiguousWorkspace

  datatype Verdict = Granted(user: UserId, workspace: Workspace) | Denied(reason: DenyReason)

  /** Where a request stands between its database statements, with what it has read so far. */
  datatype Phase =
    | Started
    | Unmatched(email: string)  // no row has the exact address: look for case variants
    | Resolved(employee: User)
    | Located(employee: User, workspace: Workspace)
    | Contending(id: UserId, workspace: Workspace)  // the update matched no row: read who won
    | Done(verdict: Verdict)

  datatype Login = Login(subject: Subject, claim: Option<string>, phase: Phase)

  datatype State = State(users: seq<User>, memberships: map<UserId, set<Workspace>>, logins: map<Request, Login>)

  datatype Event =
    | Begin(request: Request, subject: Subject, claim: Option<string>)
    | Continue(request: Request)
    | NewUser(user: User)
    | EditUser(id: UserId, email: string, active: bool, emailVerified: bool, deleted: bool)
    | SetMemberships(id: UserId, workspaces: set<Workspace>)

  /** `employee.status === 'active'` and a verified address. */
  function Vet(user: User): Phase {
    if user.active && user.emailVerified then Resolved(user) else Done(Denied(NoActiveEmployee))
  }

  /** findEmployee's first statement, on the normalised claim. */
  function LookExact(rows: seq<User>, claim: Option<string>): Phase {
    var email := if claim.Some? then Lower(Trim(claim.value)) else "";
    if email == "" then Done(Denied(NoEmailClaim))
    else
      match FirstExact(rows, email)
      case Some(user) => Vet(user)
      case None => Unmatched(email)
  }

  /** … and its second, on the rows as they are by then. */
  function LookVariants(rows: seq<User>, email: string): Phase {
    var matches := Variants(rows, email);
    if |matches| > 1 then Done(Denied(AmbiguousEmail))
    else if |matches| == 1 then Vet(matches[0])
    else Done(Denied(NoActiveEmployee))
  }

  /** With no change between them the two statements resolve what findEmployee finds. */
  lemma TwoLooksFindTheEmployee(rows: seq<User>, claim: Option<string>)
    requires claim.Some? && Lower(Trim(claim.value)) != ""
    ensures var first := LookExact(rows, claim);
            (if first.Unmatched? then LookVariants(rows, first.email) else first) ==
            match FindEmployee(rows, Lower(Trim(claim.value)))
            case Ambiguous => Done(Denied(AmbiguousEmail))
            case Nobody => Done(Denied(NoActiveEmployee))
            case Employee(user) => Vet(user)
  {}

  function Locate(memberships: map<UserId, set<Workspace>>, employee: User): Phase {
    var matches := if employee.id in memberships then memberships[employee.id] else {};
    if |matches| == 0 then Done(Denied(NoWorkspace))
    else if |matches| > 1 then Done(Denied(AmbiguousWorkspace))
    else Located(employee, TheOnly(matches))
  }

  function TheOnly(ws: set<Workspace>): (w: Workspace)
    requires |ws| == 1
    ensures ws == {w}
  {
    OnlyOne(ws);
    var w :| w in ws;
    w
  }

  lemma OnlyOne(ws: set<Workspace>)
    requires |ws| == 1
    ensures exists w :: ws == {w}
    ensures forall v, w :: v in ws && w in ws ==> v == w
  {
    var w :| w in ws;
    assert |ws - {w}| == 0;
    assert ws == {w};
  }

  /** The last refusal, then the binding: only a request that passed every check above writes. */
  function Bind(rows: seq<User>, login: Login, employee: User, workspace: Workspace): (seq<User>, Phase) {
    if employee.subject.Some? then
      (rows, Done(if employee.subject.value == login.subject then Granted(employee.id, workspace) else Denied(SubjectMismatch)))
    else if !Unbound(rows, employee.id) then (rows, Contending(employee.id, workspace))
    else if SubjectTaken(rows, login.subject) then (rows, Done(Denied(SubjectIsTaken)))
    else (SetSubject(rows, employee.id, login.subject), Done(Granted(employee.id, workspace)))
  }

  function Advance(s: State, login: Login): (seq<User>, Phase) {
    match login.phase
    case Started => (s.users, LookExact(s.users, login.claim))
    case Unmatched(email) => (s.users, LookVariants(s.users, email))
    case Resolved(employee) => (s.users, Locate(s.memberships, employee))
    case Located(employee, workspace) => Bind(s.users, login, employee, workspace)
    case Contending(id, workspace) =>
      (s.users, Done(if SubjectOf(s.users, id) == Some(login.subject) then Granted(id, workspace) else Denied(SubjectMismatch)))
    case Done(_) => (s.users, login.phase)
  }

  function Edit(rows: seq<User>, id: UserId, email: string, active: bool, verified: bool, deleted: bool): (r: seq<User>)
    ensures |r| == |rows| && forall i :: 0 <= i < |rows| ==> r[i].id == rows[i].id && r[i].subject == rows[i].subject
  {
    seq(|rows|, i requires 0 <= i < |rows| =>
      if rows[i].id == id then User(id, email, active, verified, deleted, rows[i].subject) else rows[i])
  }

  function Step(s: State, e: Event): State {
    match e
    case Begin(request, subject, claim) =>
      if request in s.logins then s else s.(logins := s.logins[request := Login(subject, claim, Started)])
    case Continue(request) =>
      if request !in s.logins then s
      else
        var (users, phase) := Advance(s, s.logins[request]);
        s.(users := users, logins := s.logins[request := s.logins[request].(phase := phase)])
    case NewUser(user) =>
      if (exists u <- s.users :: u.id == user.id) || user.subject.Some? then s else s.(users := s.users + [user])
    case EditUser(id, email, active, verified, deleted) => s.(users := Edit(s.users, id, email, active, verified, deleted))
    case SetMemberships(id, workspaces) => s.(memberships := s.memberships[id := workspaces])
  }

  function Run(s: State, es: seq<Event>): State
    decreases |es|
  {
    if es == [] then s else Run(Step(s, es[0]), es[1..])
  }

  // ── The invariant ──────────────────────────────────────────────────────────

  ghost predicate UniqueIds(rows: seq<User>) {
    forall i, j :: 0 <= i < j < |rows| ==> rows[i].id != rows[j].id
  }

  /** uq_users_access_subject */
  ghost predicate UniqueSubjects(rows: seq<User>) {
    forall i, j :: 0 <= i < j < |rows| && rows[i].subject.Some? ==> rows[i].subject != rows[j].subject
  }

  ghost predicate BoundTo(rows: seq<User>, id: UserId, subject: Subject) {
    exists u <- rows :: u.id == id && u.subject == Some(subject)
  }

  ghost predicate LoginOk(rows: seq<User>, login: Login) {
    match login.phase
    case Resolved(employee) => employee.subject.Some? ==> BoundTo(rows, employee.id, employee.subject.value)
    case Located(employee, _) => employee.subject.Some? ==> BoundTo(rows, employee.id, employee.subject.value)
    case Done(Granted(user, _)) => BoundTo(rows, user, login.subject)
    case _ => true
  }

  ghost predicate Inv(s: State) {
    && UniqueIds(s.users) && UniqueSubjects(s.users)
    && (forall r <- s.logins :: LoginOk(s.users, s.logins[r]))
  }

  /** Bindings are never taken away. */
  ghost predicate KeepsBindings(rows: seq<User>, rows': seq<User>) {
    |rows| <= |rows'|
    && forall i :: 0 <= i < |rows| ==> rows'[i].id == rows[i].id && (rows[i].subject.Some? ==> rows'[i].subject == rows[i].subject)
  }

  lemma BoundStays(rows: seq<User>, rows': seq<User>, id: UserId, subject: Subject)
    requires KeepsBindings(rows, rows') && BoundTo(rows, id, subject)
    ensures BoundTo(rows', id, subject)
  {
    var i :| 0 <= i < |rows| && rows[i].id == id && rows[i].subject == Some(subject);
    assert rows'[i] in rows' && rows'[i].id == id && rows'[i].subject == Some(subject);
  }

  lemma LoginsKept(s: State, rows': seq<User>)
    requires Inv(s) && KeepsBindings(s.users, rows')
    ensures forall r <- s.logins :: LoginOk(rows', s.logins[r])
  {
    forall r <- s.logins ensures LoginOk(rows', s.logins[r]) {
      assert LoginOk(s.users, s.logins[r]);
      match s.logins[r].phase
      case Resolved(employee) =>
        if employee.subject.Some? { BoundStays(s.users, rows', employee.id, employee.subject.value); }
      case Located(employee, _) =>
        if employee.subject.Some? { BoundStays(s.users, rows', employee.id, employee.subject.value); }
      case Done(Granted(user, _)) => BoundStays(s.users, rows', user, s.logins[r].subject);
      case _ =>
    }
  }

  lemma {:induction false} SubjectOfIsBound(rows: seq<User>, id: UserId)
    ensures SubjectOf(rows, id).Some? ==> BoundTo(rows, id, SubjectOf(rows, id).value)
  {
    if rows != [] {
      SubjectOfIsBound(rows[1..], id);
      assert rows[0] in rows;
      assert forall u <- rows[1..] :: u in rows;
    }
  }

  lemma SetSubjectKeeps(rows: seq<User>, id: UserId, subject: Subject)
    requires UniqueIds(rows) && UniqueSubjects(rows) && Unbound(rows, id) && !SubjectTaken(rows, subject)
    ensures var r := SetSubject(rows, id, subject);
            UniqueIds(r) && UniqueSubjects(r) && KeepsBindings(rows, r) && BoundTo(r, id, subject)
  {
    var r := SetSubject(rows, id, subject);
    var i :| 0 <= i < |rows| && rows[i].id == id && rows[i].subject.None?;
    assert r[i] in r;
    forall j | 0 <= j < |rows| ensures rows[j].subject != Some(subject) { assert rows[j] in rows; }
  }

  /** What one statement of one request does: it writes only by granting, and only a first binding. */
  lemma AdvanceOk(s: State, login: Login)
    requires Inv(s) && LoginOk(s.users, login)
    ensures var (users, phase) := Advance(s, login);
            && UniqueIds(users) && UniqueSubjects(users) && KeepsBindings(s.users, users)
            && LoginOk(users, login.(phase := phase))
  {
    match login.phase
    case Started =>
      var email := if login.claim.Some? then Lower(Trim(login.claim.value)) else "";
      FirstExactIsAny(s.users, email);
    case Unmatched(email) =>
      VariantsAreRows(s.users, email);
      var matches := Variants(s.users, email);
      if |matches| == 1 { assert matches[0] in matches; }
    case Located(employee, _) =>
      if employee.subject.None? && Unbound(s.users, employee.id) && !SubjectTaken(s.users, login.subject) {
        SetSubjectKeeps(s.users, employee.id, login.subject);
      }
    case Contending(id, _) => SubjectOfIsBound(s.users, id);
    case _ =>
  }

  lemma StepKeepsInv(s: State, e: Event)
    requires Inv(s)
    ensures Inv(Step(s, e)) && KeepsBindings(s.users, Step(s, e).users)
  {
    match e
    case Continue(request) =>
      if request in s.logins {
        AdvanceOk(s, s.logins[request]);
        LoginsKept(s, Advance(s, s.logins[request]).0);
      }
    case Begin(_, _, _) =>
    case SetMemberships(_, _) =>
    case NewUser(user) =>
      if !((exists u <- s.users :: u.id == user.id) || user.subject.Some?) {
        forall i | 0 <= i < |s.users| ensures s.users[i].id != user.id { assert s.users[i] in s.users; }
        LoginsKept(s, s.users + [user]);
      }
    case EditUser(id, email, active, verified, deleted) => LoginsKept(s, Edit(s.users, id, email, active, verified, deleted));
  }

  lemma {:induction false} RunKeepsInv(s: State, es: seq<Event>)
    requires Inv(s)
    ensures Inv(Run(s, es)) && KeepsBindings(s.users, Run(s, es).users)
    decreases |es|
  {
    if es != [] {
      StepKeepsInv(s, es[0]);
      RunKeepsInv(Step(s, es[0]), es[1..]);
    }
  }

  // ── The results ────────────────────────────────────────────────────────────

  ghost predicate GrantedTo(s: State, r: Request, user: UserId) {
    r in s.logins && s.logins[r].phase.Done? && s.logins[r].phase.verdict.Granted? && s.logins[r].phase.verdict.user == user
  }

  /**
   * Racing logins, one owner: whatever the interleaving of requests, account edits and membership changes, two requests
   * are granted the same account exactly when they carry the same subject.
   */
  lemma RacingLoginsOneOwner(s: State, es: seq<Event>, a: Request, b: Request, user: UserId, other: UserId)
    requires Inv(s) && GrantedTo(Run(s, es), a, user) && GrantedTo(Run(s, es), b, other)
    ensures user == other <==> Run(s, es).logins[a].subject == Run(s, es).logins[b].subject
  {
    RunKeepsInv(s, es);
    var s' := Run(s, es);
    assert LoginOk(s'.users, s'.logins[a]) && LoginOk(s'.users, s'.logins[b]);
    var i :| 0 <= i < |s'.users| && s'.users[i].id == user && s'.users[i].subject == Some(s'.logins[a].subject);
    var j :| 0 <= j < |s'.users| && s'.users[j].id == other && s'.users[j].subject == Some(s'.logins[b].subject);
  }

  /**
   * The one write: a request changes the accounts only in the statement that grants it, and then it gives its subject
   * to the one unbound account it resolved to an active, verified employee of exactly one workspace. So a request that
   * is denied, at whatever statement, has changed nothing.
   */
  lemma OnlyGrantsWrite(s: State, request: Request)
    requires Inv(s) && request in s.logins
    ensures var s' := Step(s, Continue(request));
            var login := s.logins[request];
            s'.users != s.users ==>
              && login.phase.Located? && Unbound(s.users, login.phase.employee.id)
              && s'.logins[request].phase == Done(Granted(login.phase.employee.id, login.phase.workspace))
              && BoundTo(s'.users, login.phase.employee.id, login.subject)
              && |s'.users| == |s.users|
              && (forall i :: 0 <= i < |s.users| && s'.users[i] != s.users[i] ==>
                    s.users[i].id == login.phase.employee.id
                    && s'.users[i] == s.users[i].(subject := Some(login.subject)))
  {
    var login := s.logins[request];
    if login.phase.Located? && Step(s, Continue(request)).users != s.users {
      SetSubjectKeeps(s.users, login.phase.employee.id, login.subject);
    }
  }

  lemma {:induction false} VerdictStays(s: State, es: seq<Event>, request: Request)
    requires request in s.logins && s.logins[request].phase.Done?
    ensures request in Run(s, es).logins && Run(s, es).logins[request] == s.logins[request]
    decreases |es|
  {
    if es != [] { VerdictStays(Step(s, es[0]), es[1..], request); }
  }

  /** Over a whole run: no statement of a request that ends denied has changed any account. */
  lemma {:induction false} DeniedNeverWrote(s: State, es: seq<Event>, k: nat, request: Request)
    requires Inv(s) && k < |es| && es[k] == Continue(request)
    requires request in Run(s, es).logins
    requires Run(s, es).logins[request].phase.Done? && Run(s, es).logins[request].phase.verdict.Denied?
    ensures Run(s, es[..k + 1]).users == Run(s, es[..k]).users
    decreases |es|
  {
    var s1 := Step(s, es[0]);
    if k == 0 {
      assert es[..1] == [es[0]] && es[..0] == [];
      assert Run(s, es[..1]) == Run(s1, []) == s1;
      if s1.users != s.users {
        OnlyGrantsWrite(s, request);
        VerdictStays(s1, es[1..], request);
      }
    } else {
      StepKeepsInv(s, es[0]);
      DeniedNeverWrote(s1, es[1..], k - 1, request);
      assert es[..k + 1][1..] == es[1..][..k] && es[..k][1..] == es[1..][..k - 1];
    }
  }

  /** How far a request gets says what it passed; a place is only ever found for an active, verified employee. */
  ghost predicate Vetted(login: Login) {
    match login.phase
    case Resolved(employee) => employee.active && employee.emailVerified
    case Located(employee, _) => employee.active && employee.emailVerified
    case _ => true
  }

  lemma ChecksComeFirst(s: State, e: Event)
    requires forall r <- s.logins :: Vetted(s.logins[r])
    ensures forall r <- Step(s, e).logins :: Vetted(Step(s, e).logins[r])
    ensures forall r <- Step(s, e).logins ::
              Step(s, e).logins[r].phase.Located? && r in s.logins && !s.logins[r].phase.Located? ==>
                s.logins[r].phase.Resolved?
                && s.logins[r].phase.employee.id in s.memberships
                && s.memberships[s.logins[r].phase.employee.id] == {Step(s, e).logins[r].phase.workspace}
  {}

  // ── The statements as they run ─────────────────────────────────────────────

  datatype Binding = Bound | Same | Mismatch

  class Directory {
    var users: seq<User>

    constructor (users: seq<User>)
      ensures this.users == users
    {
      this.users := users;
    }

    /** bindAccessSubject: `UPDATE … WHERE access_subject IS NULL`, and only on zero rows a read of who won. */
    method BindAccessSubject(id: UserId, subject: Subject) returns (r: Result<Binding, BindError>)
      modifies this
      ensures r.Err? <==> Unbound(old(users), id) && SubjectTaken(old(users), subject)
      ensures r == Ok(Bound) <==> Unbound(old(users), id) && !SubjectTaken(old(users), subject)
      ensures r == Ok(Same) <==> !Unbound(old(users), id) && SubjectOf(old(users), id) == Some(subject)
      ensures users == if r == Ok(Bound) then SetSubject(old(users), id, subject) else old(users)
    {
      if exists u <- users :: u.id == id && u.subject.None? {
        if exists u <- users :: u.subject == Some(subject) { return Err(DuplicateSubject); }
        users := SetSubject(users, id, subject);
        return Ok(Bound);
      }
      var current := SubjectOf(users, id);
      return Ok(if current == Some(subject) then Same else Mismatch);
    }
  }
}
