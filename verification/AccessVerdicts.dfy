/**
 * Who is granted, and why anybody is not: what each statement of a request answers, in the columns it reads, and the verdict
 * on a request that nothing disturbs.
 */
module AccessVerdicts {
  import opened Wrappers
  import opened Text
  import opened AccessBinding

  function PhaseAfter(s: State, request: Request): Phase
    requires request in s.logins
  {
    Step(s, Continue(request)).logins[request].phase
  }

  // ── One statement at a time ────────────────────────────────────────────────

  /** The first look: the normalised claim, an exact live row, an active and verified account. */
  lemma StartedAnswers(s: State, request: Request)
    requires request in s.logins && s.logins[request].phase == Started
    ensures var claim, phase := s.logins[request].claim, PhaseAfter(s, request);
            var email := if claim.Some? then Lower(Trim(claim.value)) else "";
            var exact := exists u <- s.users :: u.email == email && !u.deleted;
            && (email == "" ==> phase == Done(Denied(NoEmailClaim)))
            && (email != "" && !exact ==> phase == Unmatched(email))
            && (email != "" && exact ==>
                  exists u <- s.users :: u.email == email && !u.deleted
                    && phase == if u.active && u.emailVerified then Resolved(u) else Done(Denied(NoActiveEmployee)))
  {
    var claim := s.logins[request].claim;
    FirstExactIsAny(s.users, if claim.Some? then Lower(Trim(claim.value)) else "");
  }

  /** The second look: two live case variants are refused, and one is judged as an exact row is. */
  lemma UnmatchedAnswers(s: State, request: Request, email: string)
    requires request in s.logins && s.logins[request].phase == Unmatched(email)
    ensures var phase := PhaseAfter(s, request);
            && (TwoVariants(s.users, email) ==> phase == Done(Denied(AmbiguousEmail)))
            && ((forall u <- s.users :: Lower(u.email) != email || u.deleted) ==> phase == Done(Denied(NoActiveEmployee)))
            && (!TwoVariants(s.users, email) && (exists u <- s.users :: Lower(u.email) == email && !u.deleted) ==>
                  exists u <- s.users :: Lower(u.email) == email && !u.deleted
                    && phase == if u.active && u.emailVerified then Resolved(u) else Done(Denied(NoActiveEmployee)))
  {
    VariantsAreRows(s.users, email);
    ManyVariants(s.users, email);
    var matches := Variants(s.users, email);
    if |matches| == 1 {
      assert matches[0] in matches;
      assert IsVariant(matches[0], email);
    }
  }

  /** The workspace: none, the one, or more than one. */
  lemma ResolvedAnswers(s: State, request: Request, employee: User, workspace: Workspace)
    requires request in s.logins && s.logins[request].phase == Resolved(employee)
    ensures var places := if employee.id in s.memberships then s.memberships[employee.id] else {};
            && (PhaseAfter(s, request) == Located(employee, workspace) <==> places == {workspace})
            && (PhaseAfter(s, request) == Done(Denied(NoWorkspace)) <==> places == {})
            && (PhaseAfter(s, request) == Done(Denied(AmbiguousWorkspace)) <==> |places| > 1)
  {
    var places := if employee.id in s.memberships then s.memberships[employee.id] else {};
    if |places| == 1 { OnlyOne(places); }
  }

  /** An account that has a subject grants exactly that subject, and nothing is written. */
  lemma BoundAccountAnswers(s: State, request: Request, employee: User, workspace: Workspace)
    requires request in s.logins && s.logins[request].phase == Located(employee, workspace) && employee.subject.Some?
    ensures PhaseAfter(s, request) ==
            if employee.subject == Some(s.logins[request].subject) then Done(Granted(employee.id, workspace))
            else Done(Denied(SubjectMismatch))
    ensures Step(s, Continue(request)).users == s.users
  {}

  /** An account read without one: bound and granted if it still has none and nobody has this subject. */
  lemma FreeAccountAnswers(s: State, request: Request, employee: User, workspace: Workspace)
    requires request in s.logins && s.logins[request].phase == Located(employee, workspace) && employee.subject.None?
    ensures var phase, subject := PhaseAfter(s, request), s.logins[request].subject;
            var free := exists u <- s.users :: u.id == employee.id && u.subject == None;
            var taken := exists u <- s.users :: u.subject == Some(subject);
            && phase == (if !free then Contending(employee.id, workspace)
                         else if taken then Done(Denied(SubjectIsTaken))
                         else Done(Granted(employee.id, workspace)))
            && var users := Step(s, Continue(request)).users;
               if !free || taken then users == s.users
               else |users| == |s.users|
                    && forall i :: 0 <= i < |users| ==>
                         users[i] == if s.users[i].id == employee.id && s.users[i].subject == None
                                     then s.users[i].(subject := Some(subject)) else s.users[i]
  {}

  /** The loser of the race: granted exactly if the winner carried its own subject. */
  lemma ContendingAnswers(s: State, request: Request, id: UserId, workspace: Workspace)
    requires UniqueIds(s.users) && request in s.logins && s.logins[request].phase == Contending(id, workspace)
    ensures var won := exists u <- s.users :: u.id == id && u.subject == Some(s.logins[request].subject);
            PhaseAfter(s, request) == if won then Done(Granted(id, workspace)) else Done(Denied(SubjectMismatch))
    ensures Step(s, Continue(request)).users == s.users
  {
    SubjectOfFinds(s.users, id, s.logins[request].subject);
  }

  lemma {:induction false} SubjectOfFinds(rows: seq<User>, id: UserId, subject: Subject)
    requires UniqueIds(rows)
    ensures SubjectOf(rows, id) == Some(subject) <==> exists u <- rows :: u.id == id && u.subject == Some(subject)
  {
    if rows != [] {
      var rest := rows[1..];
      SubjectOfFinds(rest, id, subject);
      assert rows[0] in rows && forall u <- rows :: u == rows[0] || u in rest;
      assert forall u <- rest :: u in rows;
      forall u <- rest ensures u.id != rows[0].id {
        var i :| 0 <= i < |rest| && rest[i] == u;
        assert rows[i + 1] == u;
      }
    }
  }

  // ── What the others do meanwhile ───────────────────────────────────────────

  /** A request begins once, with what it carries; an account begins unbound; an edit and a membership are what they say. */
  lemma OtherEventsWrite(
    s: State, request: Request, subject: Subject, claim: Option<string>, user: User, id: UserId, workspaces: set<Workspace>)
    ensures Step(s, Begin(request, subject, claim)) ==
            if request in s.logins then s else s.(logins := s.logins[request := Login(subject, claim, Started)])
    ensures user.subject == None && (forall u <- s.users :: u.id != user.id) ==>
              Step(s, NewUser(user)) == s.(users := s.users + [user])
    ensures user.subject != None || (exists u <- s.users :: u.id == user.id) ==> Step(s, NewUser(user)) == s
    ensures Step(s, SetMemberships(id, workspaces)) == s.(memberships := s.memberships[id := workspaces])
  {}

  lemma EditWrites(s: State, id: UserId, email: string, active: bool, verified: bool, deleted: bool)
    ensures var s' := Step(s, EditUser(id, email, active, verified, deleted));
            && s'.logins == s.logins && s'.memberships == s.memberships && |s'.users| == |s.users|
            && forall i :: 0 <= i < |s.users| ==>
                 var u, u' := s.users[i], s'.users[i];
                 if u.id != id then u' == u
                 else u'.id == id && u'.email == email && u'.active == active && u'.emailVerified == verified
                      && u'.deleted == deleted && u'.subject == u.subject
  {}

  lemma ContinueTouchesItself(s: State, request: Request)
    ensures request !in s.logins ==> Step(s, Continue(request)) == s
    ensures request in s.logins ==>
              var s' := Step(s, Continue(request));
              && s'.memberships == s.memberships && s'.logins.Keys == s.logins.Keys
              && (forall r <- s.logins :: r != request ==> s'.logins[r] == s.logins[r])
              && s'.logins[request].subject == s.logins[request].subject && s'.logins[request].claim == s.logins[request].claim
  {}

  // ── Why a request is refused ───────────────────────────────────────────────

  ghost predicate HasAccount(rows: seq<User>, id: UserId) {
    exists u <- rows :: u.id == id
  }

  ghost predicate HasSubject(rows: seq<User>, id: UserId) {
    exists u <- rows :: u.id == id && u.subject.Some?
  }

  /** A request speaks of an account there is; one that contends, of one that is bound. */
  ghost predicate Placed(rows: seq<User>, login: Login) {
    match login.phase
    case Resolved(employee) => HasAccount(rows, employee.id)
    case Located(employee, _) => HasAccount(rows, employee.id)
    case Contending(id, _) => HasSubject(rows, id)
    case _ => true
  }

  lemma PlacedStays(rows: seq<User>, rows': seq<User>, login: Login)
    requires KeepsBindings(rows, rows') && Placed(rows, login)
    ensures Placed(rows', login)
  {
    match login.phase
    case Resolved(employee) => AccountStays(rows, rows', employee.id);
    case Located(employee, _) => AccountStays(rows, rows', employee.id);
    case Contending(id, _) =>
      var i :| 0 <= i < |rows| && rows[i].id == id && rows[i].subject.Some?;
      assert rows'[i] in rows' && rows'[i].id == id && rows'[i].subject.Some?;
    case _ =>
  }

  lemma AccountStays(rows: seq<User>, rows': seq<User>, id: UserId)
    requires KeepsBindings(rows, rows') && HasAccount(rows, id)
    ensures HasAccount(rows', id)
  {
    var i :| 0 <= i < |rows| && rows[i].id == id;
    assert rows'[i] in rows';
  }

  lemma AdvancePlaces(s: State, login: Login, phase: Phase)
    requires Inv(s) && LoginOk(s.users, login) && Placed(s.users, login) && phase == Advance(s, login).1
    ensures Placed(s.users, login.(phase := phase))
  {
    match login.phase
    case Started => FirstExactIsAny(s.users, if login.claim.Some? then Lower(Trim(login.claim.value)) else "");
    case Unmatched(email) =>
      VariantsAreRows(s.users, email);
      var matches := Variants(s.users, email);
      if |matches| == 1 { assert matches[0] in matches; }
    case Located(employee, _) =>
      if phase.Contending? {
        var u :| u in s.users && u.id == employee.id;
        assert u.subject.Some?;
      }
    case _ =>
  }

  lemma StepPlaces(s: State, e: Event, s': State)
    requires Inv(s) && (forall r <- s.logins :: Placed(s.users, s.logins[r])) && s' == Step(s, e)
    ensures forall r <- s'.logins :: Placed(s'.users, s'.logins[r])
  {
    StepKeepsInv(s, e);
    forall r <- s'.logins ensures Placed(s'.users, s'.logins[r]) {
      if e == Continue(r) {
        AdvancePlaces(s, s.logins[r], s'.logins[r].phase);
        PlacedStays(s.users, s'.users, s'.logins[r]);
      } else if r in s.logins {
        assert s'.logins[r] == s.logins[r];
        PlacedStays(s.users, s'.users, s.logins[r]);
      }
    }
  }

  lemma {:induction false} RunPlaces(s: State, es: seq<Event>)
    requires Inv(s) && forall r <- s.logins :: Placed(s.users, s.logins[r])
    ensures forall r <- Run(s, es).logins :: Placed(Run(s, es).users, Run(s, es).logins[r])
    decreases |es|
  {
    if es != [] {
      StepPlaces(s, es[0], Step(s, es[0]));
      StepKeepsInv(s, es[0]);
      RunPlaces(Step(s, es[0]), es[1..]);
    }
  }

  /** The account of the request's employee, at whichever statement reads or writes its subject. */
  function AccountOf(phase: Phase): Option<UserId> {
    match phase
    case Located(employee, _) => Some(employee.id)
    case Contending(id, _) => Some(id)
    case _ => None
  }

  ghost predicate BoundElsewhere(rows: seq<User>, id: UserId, subject: Subject) {
    exists u <- rows :: u.id == id && u.subject.Some? && u.subject != Some(subject)
  }

  ghost predicate SubjectElsewhere(rows: seq<User>, id: UserId, subject: Subject) {
    exists u <- rows :: u.id != id && u.subject == Some(subject)
  }

  /**
   * Over any run from one without requests: a mismatch is answered only when the account is bound to another subject, and
   * a taken subject only when another account has it.
   */
  lemma RefusalsAreEarned(start: State, es: seq<Event>, request: Request, s: State, reason: DenyReason)
    requires Inv(start) && start.logins == map[] && s == Run(start, es) && request in s.logins
    requires !s.logins[request].phase.Done? && PhaseAfter(s, request) == Done(Denied(reason))
    requires reason == SubjectMismatch || reason == SubjectIsTaken
    ensures var account := AccountOf(s.logins[request].phase);
            && account.Some?
            && (reason == SubjectMismatch ==> BoundElsewhere(s.users, account.value, s.logins[request].subject))
            && (reason == SubjectIsTaken ==> SubjectElsewhere(s.users, account.value, s.logins[request].subject))
  {
    RunKeepsInv(start, es);
    RunPlaces(start, es);
    var login := s.logins[request];
    assert LoginOk(s.users, login) && Placed(s.users, login);
    match login.phase
    case Located(employee, workspace) => LocatedRefusals(s, request, employee, workspace);
    case Contending(id, workspace) =>
      ContendingAnswers(s, request, id, workspace);
      var u :| u in s.users && u.id == id && u.subject.Some?;
      assert u.subject != Some(login.subject);
    case _ =>
  }

  lemma LocatedRefusals(s: State, request: Request, employee: User, workspace: Workspace)
    requires Inv(s) && request in s.logins && s.logins[request].phase == Located(employee, workspace)
    ensures PhaseAfter(s, request) == Done(Denied(SubjectMismatch)) ==>
              BoundElsewhere(s.users, employee.id, s.logins[request].subject)
    ensures PhaseAfter(s, request) == Done(Denied(SubjectIsTaken)) ==>
              SubjectElsewhere(s.users, employee.id, s.logins[request].subject)
  {
    var login := s.logins[request];
    assert LoginOk(s.users, login);
    if employee.subject.Some? {
      BoundAccountAnswers(s, request, employee, workspace);
    } else if PhaseAfter(s, request) == Done(Denied(SubjectIsTaken)) {
      FreeAccountAnswers(s, request, employee, workspace);
      var i :| 0 <= i < |s.users| && s.users[i].subject == Some(login.subject);
      var j :| 0 <= j < |s.users| && s.users[j].id == employee.id && s.users[j].subject == None;
      assert s.users[i] in s.users && i != j;
    }
  }

  // ── A request that nothing disturbs ────────────────────────────────────────

  /** What verify should answer on this data: every check in its order, and then the binding. */
  ghost predicate RightVerdict(s: State, login: Login, v: Verdict) {
    var email := if login.claim.Some? then Lower(Trim(login.claim.value)) else "";
    if email == "" then v == Denied(NoEmailClaim)
    else
      match FindEmployee(s.users, email)
      case Ambiguous => v == Denied(AmbiguousEmail)
      case Nobody => v == Denied(NoActiveEmployee)
      case Employee(u) =>
        var places := if u.id in s.memberships then s.memberships[u.id] else {};
        if !u.active || !u.emailVerified then v == Denied(NoActiveEmployee)
        else if places == {} then v == Denied(NoWorkspace)
        else if |places| > 1 then v == Denied(AmbiguousWorkspace)
        else if u.subject.Some? && u.subject != Some(login.subject) then v == Denied(SubjectMismatch)
        else if u.subject.None? && exists other <- s.users :: other.subject == Some(login.subject) then v == Denied(SubjectIsTaken)
        else v.Granted? && v.user == u.id && places == {v.workspace}
  }

  /** The account that gets the subject, if the verdict is a first grant. */
  ghost predicate RightUsers(s: State, login: Login, v: Verdict, users: seq<User>) {
    |users| == |s.users|
    && forall i :: 0 <= i < |users| ==>
         users[i] == if v.Granted? && s.users[i].id == v.user && s.users[i].subject == None
                     then s.users[i].(subject := Some(login.subject)) else s.users[i]
  }

  ghost predicate Ends(s: State, request: Request, login: Login, s': State) {
    && request in s'.logins && s'.logins[request].phase.Done?
    && RightVerdict(s, login, s'.logins[request].phase.verdict)
    && RightUsers(s, login, s'.logins[request].phase.verdict, s'.users)
  }

  function Alone(s: State, request: Request, n: nat): State
    decreases n
  {
    if n == 0 then s else Alone(Step(s, Continue(request)), request, n - 1)
  }

  lemma {:induction false} DoneStays(s: State, request: Request, n: nat)
    requires request in s.logins && s.logins[request].phase.Done?
    ensures var s' := Alone(s, request, n);
            request in s'.logins && s'.logins[request] == s.logins[request] && s'.users == s.users
    decreases n
  {
    if n > 0 { DoneStays(Step(s, Continue(request)), request, n - 1); }
  }

  /** From the workspace on. */
  lemma LocatedEnds(s: State, request: Request, employee: User, workspace: Workspace, n: nat, s': State)
    requires Inv(s) && request in s.logins && s.logins[request].phase == Located(employee, workspace) && employee in s.users
    requires n > 0 && s' == Alone(s, request, n)
    ensures request in s'.logins && s'.logins[request].phase.Done?
    ensures var v, subject := s'.logins[request].phase.verdict, s.logins[request].subject;
            && RightUsers(s, s.logins[request], v, s'.users)
            && (if employee.subject.Some? && employee.subject != Some(subject) then v == Denied(SubjectMismatch)
                else if employee.subject.None? && exists other <- s.users :: other.subject == Some(subject)
                then v == Denied(SubjectIsTaken)
                else v == Granted(employee.id, workspace))
  {
    var s1 := Step(s, Continue(request));
    if employee.subject.Some? {
      BoundAccountAnswers(s, request, employee, workspace);
      assert LoginOk(s.users, s.logins[request]);
      BoundAccountIsUnchanged(s, employee);
    } else {
      FreeAccountAnswers(s, request, employee, workspace);
    }
    DoneStays(s1, request, n - 1);
  }

  lemma BoundAccountIsUnchanged(s: State, employee: User)
    requires Inv(s) && employee in s.users && employee.subject.Some?
    ensures forall i :: 0 <= i < |s.users| && s.users[i].id == employee.id ==> s.users[i].subject.Some?
  {
    var k :| 0 <= k < |s.users| && s.users[k] == employee;
    forall i | 0 <= i < |s.users| && s.users[i].id == employee.id ensures s.users[i].subject.Some? { assert i <= k && k <= i; }
  }

  lemma ResolvedEnds(s: State, request: Request, employee: User, n: nat, s': State)
    requires Inv(s) && request in s.logins && s.logins[request].phase == Resolved(employee) && employee in s.users
    requires n > 1 && s' == Alone(s, request, n) && employee.active && employee.emailVerified
    ensures request in s'.logins && s'.logins[request].phase.Done?
    ensures var v, subject := s'.logins[request].phase.verdict, s.logins[request].subject;
            var places := if employee.id in s.memberships then s.memberships[employee.id] else {};
            && RightUsers(s, s.logins[request], v, s'.users)
            && (if places == {} then v == Denied(NoWorkspace)
                else if |places| > 1 then v == Denied(AmbiguousWorkspace)
                else if employee.subject.Some? && employee.subject != Some(subject) then v == Denied(SubjectMismatch)
                else if employee.subject.None? && exists other <- s.users :: other.subject == Some(subject)
                then v == Denied(SubjectIsTaken)
                else v.Granted? && v.user == employee.id && places == {v.workspace})
  {
    var places := if employee.id in s.memberships then s.memberships[employee.id] else {};
    var s1 := Step(s, Continue(request));
    StepKeepsInv(s, Continue(request));
    if |places| == 1 {
      var workspace := TheOnly(places);
      ResolvedAnswers(s, request, employee, workspace);
      LocatedEnds(s1, request, employee, workspace, n - 1, s');
    } else {
      ResolvedAnswers(s, request, employee, 0);
      DoneStays(s1, request, n - 1);
    }
  }

  /** A judged account: refused at once, or followed to its end. */
  lemma VettedEnds(s: State, request: Request, u: User, n: nat, s': State)
    requires Inv(s) && request in s.logins && s.logins[request].phase == Vet(u) && u in s.users
    requires n > 1 && s' == Alone(s, request, n)
    requires FindEmployee(s.users, if s.logins[request].claim.Some? then Lower(Trim(s.logins[request].claim.value)) else "") == Employee(u)
    requires s.logins[request].claim.Some? && Lower(Trim(s.logins[request].claim.value)) != ""
    ensures Ends(s, request, s.logins[request], s')
  {
    if u.active && u.emailVerified {
      ResolvedEnds(s, request, u, n, s');
    } else {
      DoneStays(s, request, n);
    }
  }

  /** The verdict depends on the accounts, the memberships and what the request carries, not on where it stands. */
  lemma SameDataSameEnd(s: State, s1: State, request: Request, login: Login, login1: Login, s': State)
    requires s1.users == s.users && s1.memberships == s.memberships
    requires login1.claim == login.claim && login1.subject == login.subject && Ends(s1, request, login1, s')
    ensures Ends(s, request, login, s')
  {}

  lemma FirstLook(s: State, request: Request, s1: State)
    requires request in s.logins && s.logins[request].phase == Started && s1 == Step(s, Continue(request))
    ensures s1.users == s.users && s1.memberships == s.memberships && request in s1.logins
    ensures s1.logins[request] == s.logins[request].(phase := LookExact(s.users, s.logins[request].claim))
  {}

  lemma NoClaimEnds(s: State, request: Request, n: nat)
    requires request in s.logins && s.logins[request].phase == Done(Denied(NoEmailClaim))
    requires (if s.logins[request].claim.Some? then Lower(Trim(s.logins[request].claim.value)) else "") == ""
    ensures Ends(s, request, s.logins[request], Alone(s, request, n))
  {
    DoneStays(s, request, n);
  }

  /**
   * A request left alone answers exactly what its data says: granted if and only if the claim names an active, verified
   * employee of exactly one workspace whose account has this subject, or has none while nobody else has it; and otherwise
   * refused for the first check that fails. It binds the account if it had no subject, and changes nothing else.
   */
  lemma UndisturbedVerdict(s: State, request: Request)
    requires Inv(s) && request in s.logins && s.logins[request].phase == Started
    ensures Ends(s, request, s.logins[request], Alone(s, request, 4))
  {
    var login := s.logins[request];
    var email := if login.claim.Some? then Lower(Trim(login.claim.value)) else "";
    var s1 := Step(s, Continue(request));
    assert Inv(s1) by { StepKeepsInv(s, Continue(request)); }
    FirstLook(s, request, s1);
    var s' := Alone(s1, request, 3);
    if email == "" {
      NoClaimEnds(s1, request, 3);
    } else if FirstExact(s.users, email).Some? {
      assert FirstExact(s.users, email).value in s.users by { FirstExactIsAny(s.users, email); }
      VettedEnds(s1, request, FirstExact(s.users, email).value, 3, s');
    } else {
      UnmatchedEnds(s1, request, email, s');
    }
    SameDataSameEnd(s, s1, request, login, s1.logins[request], s');
  }

  lemma UnmatchedEnds(s: State, request: Request, email: string, s': State)
    requires Inv(s) && request in s.logins && s.logins[request].phase == Unmatched(email) && email != ""
    requires s.logins[request].claim.Some? && Lower(Trim(s.logins[request].claim.value)) == email
    requires FirstExact(s.users, email).None? && s' == Alone(s, request, 3)
    ensures Ends(s, request, s.logins[request], s')
  {
    var s1 := Step(s, Continue(request));
    StepKeepsInv(s, Continue(request));
    FindEmployeeIs(s.users, email);
    var matches := Variants(s.users, email);
    if |matches| == 1 {
      VettedEnds(s1, request, matches[0], 2, s');
    } else {
      DoneStays(s1, request, 2);
    }
  }

  /** `Alone` is a run. */
  lemma {:induction false} AloneIsARun(s: State, request: Request, n: nat)
    ensures Alone(s, request, n) == Run(s, seq(n, _ => Continue(request)))
    decreases n
  {
    if n > 0 {
      AloneIsARun(Step(s, Continue(request)), request, n - 1);
      var es := seq(n, _ => Continue(request));
      assert es[1..] == seq(n - 1, _ => Continue(request));
    }
  }
}
