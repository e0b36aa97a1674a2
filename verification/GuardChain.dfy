/**
 * The enforcement points an MCP request passes, for any number of requests over one token store: the hook on every route
 * (apps/api/src/mcp/write-hook.ts), then, inside the router, the principal guard (principal.guard.ts), the write guard
 * (write.guard.ts) and the session guard (libs/platform/src/auth/session-auth.guard.ts). Time passes between any two.
 */
module GuardChain {
  import opened Wrappers
  import opened CallTokens
  import opened RoutePolicy

  type Id = nat

  /** `Raw` is a route outside the router: no guard runs on it. */
  datatype Access = Guarded | Public | Raw

  datatype Payload = Payload(sub: string, sessionId: string, workspaceId: string, permissions: seq<string>)

  /** What a request brings: its token header, the mark and user of the API-token guard, and its session. */
  datatype Call = Call(
    verb: string, route: Option<string>, header: Header, access: Access,
    apiTokenId: string, apiUser: Option<Payload>, session: Option<Principal>)

  datatype Stage = Arrived | PastHook | PastPrincipal | PastWrite | Handled | Refused(code: nat)

  /** A request on its way. The last two fields record whether its token was live when the hook and the write guard ran. */
  datatype Flight = Flight(
    call: Call, stage: Stage, user: Option<Payload>, bridged: bool, liveAtHook: bool, liveAtGate: bool)

  function PayloadOf(p: Principal): Payload {
    Payload(p.userId, p.sessionId, p.workspaceId, [])
  }

  predicate Allowed(policy: Policy, c: Call) {
    RequestAllowed(c.verb, c.route, policy)
  }

  predicate HasSub(user: Option<Payload>) {
    user.Some? && user.value.sub != ""
  }

  function Hook(policy: Policy, installed: bool, pending: map<Token, Entry>, f: Flight, at: Time): Flight {
    var live := Peek(pending, f.call.header, at).Some?;
    f.(liveAtHook := live,
       stage := if installed && live && !Allowed(policy, f.call) then Refused(403)
                else if f.call.access.Raw? then Handled else PastHook)
  }

  predicate ReadsToken(c: Call) {
    !c.access.Public? && c.apiTokenId == ""
  }

  function PrincipalGuard(pending: map<Token, Entry>, f: Flight, at: Time): Flight {
    var mcp := Peek(pending, f.call.header, at);
    if ReadsToken(f.call) && mcp.Some? then f.(stage := PastPrincipal, bridged := true, user := Some(PayloadOf(mcp.value)))
    else f.(stage := PastPrincipal)
  }

  function WriteGuard(policy: Policy, pending: map<Token, Entry>, f: Flight, at: Time): Flight {
    var carried := Peek(pending, f.call.header, at).Some?;
    f.(liveAtGate := carried,
       stage := if (!f.bridged && !carried) || Allowed(policy, f.call) then PastWrite else Refused(403))
  }

  function SessionGuard(f: Flight): Flight {
    if f.call.access.Public? || (f.call.apiTokenId != "" && HasSub(f.user)) || (f.bridged && HasSub(f.user)) then f.(stage := Handled)
    else if f.call.session.None? || f.call.session.value.userId == "" then f.(stage := Refused(401))
    else f.(stage := Handled, user := Some(PayloadOf(f.call.session.value)))
  }

  function Move(policy: Policy, installed: bool, pending: map<Token, Entry>, f: Flight, at: Time): Flight {
    match f.stage
    case Arrived => Hook(policy, installed, pending, f, at)
    case PastHook => PrincipalGuard(pending, f, at)
    case PastPrincipal => WriteGuard(policy, pending, f, at)
    case PastWrite => SessionGuard(f)
    case _ => f
  }

  predicate Consumes(f: Flight) {
    f.stage.PastHook? && ReadsToken(f.call)
  }

  // ── The system ─────────────────────────────────────────────────────────────

  datatype System = System(pending: map<Token, Entry>, ledger: Ledger, flights: map<Id, Flight>)

  datatype Happening =
    | Minting(sweepAt: Time, at: Time, principal: Principal, token: Token)
    | Arriving(id: Id, call: Call)
    | Moving(id: Id, at: Time)

  /** What a happening does to the token store: a guard that consumes spends the token, and any other read is a peek. */
  function TokenEvent(s: System, h: Happening): Option<CallTokens.Event> {
    match h
    case Minting(sweepAt, at, principal, token) => Some(Minted(sweepAt, at, principal, token))
    case Arriving(_, _) => None
    case Moving(id, at) =>
      if id !in s.flights then None
      else if Consumes(s.flights[id]) then Some(Consumed(s.flights[id].call.header, at))
      else Some(Peeked(s.flights[id].call.header, at))
  }

  predicate Feasible(s: System, h: Happening) {
    && (h.Arriving? ==> h.id !in s.flights)
    && (TokenEvent(s, h).Some? ==> Possible(s.ledger, TokenEvent(s, h).value))
  }

  function MoveFlights(policy: Policy, installed: bool, s: System, h: Happening): map<Id, Flight> {
    match h
    case Minting(_, _, _, _) => s.flights
    case Arriving(id, call) => s.flights[id := Flight(call, Arrived, call.apiUser, false, false, false)]
    case Moving(id, at) =>
      if id in s.flights then s.flights[id := Move(policy, installed, s.pending, s.flights[id], at)] else s.flights
  }

  function StepSystem(policy: Policy, installed: bool, s: System, h: Happening): System {
    var flights := MoveFlights(policy, installed, s, h);
    match TokenEvent(s, h)
    case None => s.(flights := flights)
    case Some(e) => System(Apply(s.pending, e), Record(s.ledger, e), flights)
  }

  predicate FeasibleRun(policy: Policy, installed: bool, s: System, hs: seq<Happening>)
    decreases |hs|
  {
    hs == [] || (Feasible(s, hs[0]) && FeasibleRun(policy, installed, StepSystem(policy, installed, s, hs[0]), hs[1..]))
  }

  function RunSystem(policy: Policy, installed: bool, s: System, hs: seq<Happening>): System
    decreases |hs|
  {
    if hs == [] then s else RunSystem(policy, installed, StepSystem(policy, installed, s, hs[0]), hs[1..])
  }

  const Boot := System(map[], Blank, map[])

  // ── The invariant ──────────────────────────────────────────────────────────

  /** The token this request carries was minted, is spent, and stands for `p`. */
  ghost predicate Redeemed(l: Ledger, c: Call, p: Principal) {
    var t := TokenIn(c.header);
    t.Some? && t.value in l.issued && t.value in l.spent && l.issued[t.value].principal == p
  }

  predicate CarriesIssued(l: Ledger, c: Call) {
    TokenIn(c.header).Some? && TokenIn(c.header).value in l.issued
  }

  /** The principal the request's token was minted for. */
  function MintedFor(l: Ledger, c: Call): Principal {
    if CarriesIssued(l, c) then l.issued[TokenIn(c.header).value].principal else Principal("", "", "")
  }

  /** Who may be the user of a handled request: exactly the one credential that authenticated it. */
  ghost predicate RightUser(l: Ledger, f: Flight) {
    if !f.call.access.Guarded? then !f.bridged && f.user == f.call.apiUser
    else if f.bridged && MintedFor(l, f.call).userId != "" then
      f.user == Some(PayloadOf(MintedFor(l, f.call)))
    else if f.call.apiTokenId != "" && HasSub(f.call.apiUser) then f.user == f.call.apiUser
    else f.call.session.Some? && f.call.session.value.userId != "" && f.user == Some(PayloadOf(f.call.session.value))
  }

  ghost predicate NoCredential(c: Call) {
    && c.access.Guarded? && !(c.apiTokenId != "" && HasSub(c.apiUser))
    && (c.session.None? || c.session.value.userId == "")
  }

  ghost predicate BridgeOk(l: Ledger, f: Flight) {
    f.bridged ==>
      && f.call.access.Guarded? && f.call.apiTokenId == "" && (f.stage.PastPrincipal? || f.stage.PastWrite? || f.stage.Handled? || f.stage.Refused?)
      && CarriesIssued(l, f.call)
      && Redeemed(l, f.call, MintedFor(l, f.call))
      && (f.stage.PastPrincipal? || f.stage.PastWrite? ==> f.user == Some(PayloadOf(MintedFor(l, f.call))))
  }

  ghost predicate GateOk(policy: Policy, installed: bool, f: Flight) {
    && (installed && f.liveAtHook && !f.stage.Arrived? && !f.stage.Refused? ==> Allowed(policy, f.call))
    && (f.bridged && (f.stage.PastWrite? || f.stage.Handled?) ==> Allowed(policy, f.call))
    && (f.liveAtGate && (f.stage.PastWrite? || f.stage.Handled?) ==> Allowed(policy, f.call))
    && (f.liveAtGate ==> f.stage.PastWrite? || f.stage.Handled? || f.stage.Refused?)
    && (f.stage == Refused(403) ==> !Allowed(policy, f.call))
  }

  ghost predicate FlightOk(policy: Policy, installed: bool, l: Ledger, f: Flight) {
    && BridgeOk(l, f) && GateOk(policy, installed, f)
    && (f.liveAtHook || f.liveAtGate ==> CarriesIssued(l, f.call))
    && (!f.bridged && !f.stage.Handled? ==> f.user == f.call.apiUser)
    && (f.stage.Handled? ==> RightUser(l, f))
    && (f.stage.Refused? ==> f.stage.code == 401 || f.stage.code == 403)
    && (f.stage == Refused(403) ==> f.bridged || f.liveAtHook || f.liveAtGate)
    && (f.stage == Refused(401) ==>
          NoCredential(f.call) && (f.bridged ==> MintedFor(l, f.call).userId == ""))
    && (f.call.access.Raw? ==> f.stage.Arrived? || f.stage.Handled? || f.stage == Refused(403))
  }

  ghost predicate OneEach(flights: map<Id, Flight>) {
    forall a <- flights, b <- flights ::
      a != b && flights[a].bridged && flights[b].bridged ==> TokenIn(flights[a].call.header) != TokenIn(flights[b].call.header)
  }

  ghost predicate SystemInv(policy: Policy, installed: bool, s: System) {
    && Keeps(s.pending, s.ledger)
    && (forall id <- s.flights :: FlightOk(policy, installed, s.ledger, s.flights[id]))
    && OneEach(s.flights)
  }

  ghost predicate LedgerGrows(l: Ledger, l': Ledger) {
    l.spent <= l'.spent && forall t <- l.issued :: t in l'.issued && l'.issued[t] == l.issued[t]
  }

  lemma FlightOkGrows(policy: Policy, installed: bool, l: Ledger, l': Ledger, f: Flight)
    requires FlightOk(policy, installed, l, f) && LedgerGrows(l, l')
    ensures FlightOk(policy, installed, l', f)
  {}

  lemma PeekIsIssued(pending: map<Token, Entry>, l: Ledger, raw: Header, at: Time)
    requires Keeps(pending, l) && Peek(pending, raw, at).Some?
    ensures TokenIn(raw).Some? && TokenIn(raw).value in l.issued && TokenIn(raw).value !in l.spent
    ensures l.issued[TokenIn(raw).value].principal == Peek(pending, raw, at).value
  {}

  lemma HookOk(policy: Policy, installed: bool, pending: map<Token, Entry>, l: Ledger, f: Flight, f': Flight, at: Time)
    requires Keeps(pending, l) && FlightOk(policy, installed, l, f) && f.stage.Arrived?
    requires f' == Hook(policy, installed, pending, f, at)
    ensures FlightOk(policy, installed, l, f')
  {
    if Peek(pending, f.call.header, at).Some? { PeekIsIssued(pending, l, f.call.header, at); }
  }

  lemma PrincipalOk(policy: Policy, installed: bool, pending: map<Token, Entry>, l: Ledger, l': Ledger, f: Flight, f': Flight, at: Time)
    requires Keeps(pending, l) && FlightOk(policy, installed, l', f) && f.stage.PastHook? && LedgerGrows(l, l')
    requires Consumes(f) && CarriesIssued(l, f.call) ==> TokenIn(f.call.header).value in l'.spent
    requires f' == PrincipalGuard(pending, f, at)
    ensures FlightOk(policy, installed, l', f')
  {
    if Peek(pending, f.call.header, at).Some? { PeekIsIssued(pending, l, f.call.header, at); }
  }

  lemma WriteOk(policy: Policy, installed: bool, pending: map<Token, Entry>, l: Ledger, f: Flight, f': Flight, at: Time)
    requires Keeps(pending, l) && FlightOk(policy, installed, l, f) && f.stage.PastPrincipal?
    requires f' == WriteGuard(policy, pending, f, at)
    ensures FlightOk(policy, installed, l, f')
  {
    if Peek(pending, f.call.header, at).Some? { PeekIsIssued(pending, l, f.call.header, at); }
  }

  lemma SessionOk(policy: Policy, installed: bool, l: Ledger, f: Flight, f': Flight)
    requires FlightOk(policy, installed, l, f) && f.stage.PastWrite?
    requires f' == SessionGuard(f)
    ensures FlightOk(policy, installed, l, f')
  {}

  /** One step of one request keeps what holds of it; `l'` is the ledger once the step's read is recorded. */
  lemma MoveOk(policy: Policy, installed: bool, pending: map<Token, Entry>, l: Ledger, l': Ledger, f: Flight, f': Flight, at: Time)
    requires Keeps(pending, l) && FlightOk(policy, installed, l, f) && LedgerGrows(l, l')
    requires Consumes(f) && CarriesIssued(l, f.call) ==> TokenIn(f.call.header).value in l'.spent
    requires f' == Move(policy, installed, pending, f, at)
    ensures FlightOk(policy, installed, l', f')
  {
    assert FlightOk(policy, installed, l', f) by { FlightOkGrows(policy, installed, l, l', f); }
    match f.stage
    case Arrived =>
      HookOk(policy, installed, pending, l, f, f', at);
      FlightOkGrows(policy, installed, l, l', f');
    case PastHook => PrincipalOk(policy, installed, pending, l, l', f, f', at);
    case PastPrincipal =>
      WriteOk(policy, installed, pending, l, f, f', at);
      FlightOkGrows(policy, installed, l, l', f');
    case PastWrite => SessionOk(policy, installed, l', f, f');
    case _ =>
  }

  /** A request that becomes bridged carries a token no request was bridged by before. */
  lemma BridgedAnew(policy: Policy, installed: bool, s: System, id: Id, at: Time, other: Id)
    requires SystemInv(policy, installed, s) && id in s.flights && other in s.flights && s.flights[other].bridged
    requires !s.flights[id].bridged && Move(policy, installed, s.pending, s.flights[id], at).bridged
    ensures TokenIn(s.flights[id].call.header) != TokenIn(s.flights[other].call.header)
  {
    PeekIsIssued(s.pending, s.ledger, s.flights[id].call.header, at);
    assert FlightOk(policy, installed, s.ledger, s.flights[other]);
  }

  lemma OneMoveKeepsOneEach(flights: map<Id, Flight>, id: Id, f': Flight)
    requires OneEach(flights) && id in flights && f'.call == flights[id].call
    requires f'.bridged && !flights[id].bridged ==>
               forall other <- flights | flights[other].bridged :: TokenIn(f'.call.header) != TokenIn(flights[other].call.header)
    ensures OneEach(flights[id := f'])
  {}

  lemma OneEachKept(policy: Policy, installed: bool, s: System, h: Happening, id: Id, f': Flight)
    requires SystemInv(policy, installed, s) && h.Moving? && h.id == id && id in s.flights
    requires f' == Move(policy, installed, s.pending, s.flights[id], h.at)
    ensures OneEach(s.flights[id := f'])
  {
    if f'.bridged && !s.flights[id].bridged {
      forall other <- s.flights | s.flights[other].bridged
        ensures TokenIn(s.flights[id].call.header) != TokenIn(s.flights[other].call.header)
      {
        BridgedAnew(policy, installed, s, id, h.at, other);
      }
    }
    assert f'.call == s.flights[id].call by { MoveKeepsCall(policy, installed, s.pending, s.flights[id], h.at); }
    OneMoveKeepsOneEach(s.flights, id, f');
  }

  lemma MoveKeepsCall(policy: Policy, installed: bool, pending: map<Token, Entry>, f: Flight, at: Time)
    ensures Move(policy, installed, pending, f, at).call == f.call
  {}

  lemma RecordGrows(l: Ledger, e: CallTokens.Event)
    requires Possible(l, e)
    ensures LedgerGrows(l, Record(l, e))
  {}

  lemma StepKeepsSystemInv(policy: Policy, installed: bool, s: System, h: Happening)
    requires SystemInv(policy, installed, s) && Feasible(s, h)
    ensures SystemInv(policy, installed, StepSystem(policy, installed, s, h))
    ensures LedgerGrows(s.ledger, StepSystem(policy, installed, s, h).ledger)
  {
    var s' := StepSystem(policy, installed, s, h);
    if h.Moving? && h.id in s.flights { OneEachKept(policy, installed, s, h, h.id, s'.flights[h.id]); }
    if TokenEvent(s, h).Some? {
      RecordGrows(s.ledger, TokenEvent(s, h).value);
      StepKeeps(s.pending, s.ledger, TokenEvent(s, h).value);
    }
    forall id <- s'.flights ensures FlightOk(policy, installed, s'.ledger, s'.flights[id]) {
      if h.Moving? && h.id == id {
        MoveOk(policy, installed, s.pending, s.ledger, s'.ledger, s.flights[id], s'.flights[id], h.at);
      } else if !(h.Arriving? && h.id == id) {
        FlightOkGrows(policy, installed, s.ledger, s'.ledger, s.flights[id]);
      }
    }
  }

  lemma {:induction false} RunKeepsSystemInv(policy: Policy, installed: bool, s: System, hs: seq<Happening>)
    requires SystemInv(policy, installed, s) && FeasibleRun(policy, installed, s, hs)
    ensures SystemInv(policy, installed, RunSystem(policy, installed, s, hs))
    decreases |hs|
  {
    if hs != [] {
      StepKeepsSystemInv(policy, installed, s, hs[0]);
      RunKeepsSystemInv(policy, installed, StepSystem(policy, installed, s, hs[0]), hs[1..]);
    }
  }

  // ── The results, over every run from boot ──────────────────────────────────

  ghost predicate Reached(policy: Policy, installed: bool, hs: seq<Happening>, s: System, id: Id, f: Flight) {
    && FeasibleRun(policy, installed, Boot, hs) && s == RunSystem(policy, installed, Boot, hs)
    && id in s.flights && f == s.flights[id]
  }

  lemma ReachedIsOk(policy: Policy, installed: bool, hs: seq<Happening>, s: System, id: Id, f: Flight)
    requires Reached(policy, installed, hs, s, id, f)
    ensures FlightOk(policy, installed, s.ledger, f) && OneEach(s.flights)
  {
    RunKeepsSystemInv(policy, installed, Boot, hs);
  }

  /**
   * With the hook installed, a request whose token was live at the hook reaches a handler, on any kind of route, only if
   * the policy allows it, even if the token expires or is consumed by another request in between. On the routes that
   * need no user it reaches the handler, once it has ended, exactly when the policy allows it.
   */
  lemma LiveTokenMeansAllowed(policy: Policy, hs: seq<Happening>, s: System, id: Id, f: Flight)
    requires Reached(policy, true, hs, s, id, f) && f.liveAtHook
    ensures f.stage.Handled? ==> Allowed(policy, f.call)
    ensures !f.call.access.Guarded? && (f.stage.Handled? || f.stage.Refused?) ==> (f.stage.Handled? <==> Allowed(policy, f.call))
  {
    ReachedIsOk(policy, true, hs, s, id, f);
  }

  /**
   * The guards alone are enough inside the router, with or without the hook: a bridged request that has ended was
   * handled exactly when the policy allows it, and one whose live token the write guard saw only if it does.
   */
  lemma BridgedIffAllowed(policy: Policy, installed: bool, hs: seq<Happening>, s: System, id: Id, f: Flight)
    requires Reached(policy, installed, hs, s, id, f) && (f.bridged || f.liveAtGate)
    ensures f.stage.Handled? ==> Allowed(policy, f.call)
    ensures f.bridged && (f.stage.Handled? || f.stage.Refused?)
            && MintedFor(s.ledger, f.call).userId != ""
            ==> (f.stage.Handled? <==> Allowed(policy, f.call))
  {
    ReachedIsOk(policy, installed, hs, s, id, f);
  }

  /** A bridged request acts as the very principal its token was minted for, with no permissions of its own. */
  lemma BridgedUserIsMinted(policy: Policy, installed: bool, hs: seq<Happening>, s: System, id: Id, f: Flight)
    requires Reached(policy, installed, hs, s, id, f) && f.bridged && f.stage.Handled?
    ensures CarriesIssued(s.ledger, f.call)
    ensures var p := MintedFor(s.ledger, f.call);
            p.userId != "" ==> f.user == Some(Payload(p.userId, p.sessionId, p.workspaceId, []))
  {
    ReachedIsOk(policy, installed, hs, s, id, f);
  }

  /** One token unlocks one request. */
  lemma OneRequestPerToken(policy: Policy, installed: bool, hs: seq<Happening>, s: System, a: Id, f: Flight, b: Id, g: Flight)
    requires Reached(policy, installed, hs, s, a, f) && Reached(policy, installed, hs, s, b, g)
    requires f.bridged && g.bridged && TokenIn(f.call.header) == TokenIn(g.call.header)
    ensures a == b
  {
    ReachedIsOk(policy, installed, hs, s, a, f);
  }

  /** No guarded handler runs for nobody: its user is the principal of a minted token, an API token's, or a session's. */
  lemma HandledForSomebody(policy: Policy, installed: bool, hs: seq<Happening>, s: System, id: Id, f: Flight)
    requires Reached(policy, installed, hs, s, id, f) && f.stage.Handled? && f.call.access.Guarded?
    ensures HasSub(f.user)
    ensures || (f.bridged && Redeemed(s.ledger, f.call, Principal(f.user.value.sub, f.user.value.workspaceId, f.user.value.sessionId)))
            || (f.call.apiTokenId != "" && f.user == f.call.apiUser)
            || (f.call.session.Some? && f.user == Some(PayloadOf(f.call.session.value)))
  {
    ReachedIsOk(policy, installed, hs, s, id, f);
  }

  /**
   * The chain narrows MCP and nothing else: a request whose header names no minted token is never refused by the policy,
   * and ends as it would with no MCP in the process.
   */
  lemma OthersPassUntouched(policy: Policy, installed: bool, hs: seq<Happening>, s: System, id: Id, f: Flight)
    requires Reached(policy, installed, hs, s, id, f) && !CarriesIssued(s.ledger, f.call)
    ensures !f.bridged
    ensures f.stage.Refused? ==> f.stage.code == 401 && NoCredential(f.call)
    ensures f.stage.Handled? ==>
              !NoCredential(f.call)
              && f.user == (if !f.call.access.Guarded? || (f.call.apiTokenId != "" && HasSub(f.call.apiUser)) then f.call.apiUser
                            else Some(PayloadOf(f.call.session.value)))
  {
    ReachedIsOk(policy, installed, hs, s, id, f);
  }

  // ── What each step answers ─────────────────────────────────────────────────

  function Moved(policy: Policy, installed: bool, s: System, id: Id, at: Time): System {
    StepSystem(policy, installed, s, Moving(id, at))
  }

  /** The token the request carries is pending and has not expired. */
  ghost predicate Carries(s: System, c: Call, at: Time) {
    TokenIn(c.header).Some? && TokenIn(c.header).value in s.pending && at < s.pending[TokenIn(c.header).value].expiresAt
  }

  /** The hook refuses exactly a live token on a request that is not allowed, if it is installed; raw routes then run. */
  lemma HookAnswers(policy: Policy, installed: bool, s: System, id: Id, at: Time)
    requires id in s.flights && s.flights[id].stage == Arrived
    ensures var s', f := Moved(policy, installed, s, id, at), s.flights[id];
            && s'.pending == s.pending && s'.flights == s.flights[id := s'.flights[id]]
            && s'.flights[id] == f.(stage := s'.flights[id].stage, liveAtHook := Carries(s, f.call, at))
            && s'.flights[id].stage ==
               (if installed && Carries(s, f.call, at) && !Allowed(policy, f.call) then Refused(403)
                else if f.call.access == Raw then Handled else PastHook)
  {}

  /** The principal guard spends the token a guarded request carries, unless an API token came first, and only then. */
  lemma PrincipalGuardAnswers(policy: Policy, installed: bool, s: System, id: Id, at: Time)
    requires id in s.flights && s.flights[id].stage == PastHook
    ensures var s', f := Moved(policy, installed, s, id, at), s.flights[id];
            var looks := f.call.access != Public && f.call.apiTokenId == "";
            && s'.pending == (if looks && TokenIn(f.call.header).Some? then s.pending - {TokenIn(f.call.header).value} else s.pending)
            && s'.flights == s.flights[id := s'.flights[id]]
            && s'.flights[id] ==
               (if looks && Carries(s, f.call, at) then
                  var p := s.pending[TokenIn(f.call.header).value].principal;
                  f.(stage := PastPrincipal, bridged := true, user := Some(Payload(p.userId, p.sessionId, p.workspaceId, [])))
                else f.(stage := PastPrincipal))
  {}

  /** The write guard judges a bridged request, and one that still carries a live token, and no other. */
  lemma WriteGuardAnswers(policy: Policy, installed: bool, s: System, id: Id, at: Time)
    requires id in s.flights && s.flights[id].stage == PastPrincipal
    ensures var s', f := Moved(policy, installed, s, id, at), s.flights[id];
            && s'.pending == s.pending && s'.flights == s.flights[id := s'.flights[id]]
            && s'.flights[id] == f.(stage := s'.flights[id].stage, liveAtGate := Carries(s, f.call, at))
            && s'.flights[id].stage ==
               (if (f.bridged || Carries(s, f.call, at)) && !Allowed(policy, f.call) then Refused(403) else PastWrite)
  {}

  /** The session guard: public, an API token's user, a bridged user, or the session's, in this order, or 401. */
  lemma SessionGuardAnswers(policy: Policy, installed: bool, s: System, id: Id, at: Time)
    requires id in s.flights && s.flights[id].stage == PastWrite
    ensures var s', f := Moved(policy, installed, s, id, at), s.flights[id];
            var known := f.user != None && f.user.value.sub != "";
            && s'.pending == s.pending && s'.flights == s.flights[id := s'.flights[id]]
            && s'.flights[id] ==
               (if f.call.access == Public || (f.call.apiTokenId != "" && known) || (f.bridged && known)
                then f.(stage := Handled)
                else if f.call.session != None && f.call.session.value.userId != "" then
                  var p := f.call.session.value;
                  f.(stage := Handled, user := Some(Payload(p.userId, p.sessionId, p.workspaceId, [])))
                else f.(stage := Refused(401)))
  {}

  /** A mint, an arrival, a move after the end, and a move of nobody. */
  lemma OtherHappenings(
    policy: Policy, installed: bool, s: System, sweepAt: Time, at: Time, principal: Principal, token: Token, id: Id, call: Call)
    ensures var s' := StepSystem(policy, installed, s, Minting(sweepAt, at, principal, token));
            && s'.flights == s.flights && s'.pending == Apply(s.pending, Minted(sweepAt, at, principal, token))
            && s'.ledger == Record(s.ledger, Minted(sweepAt, at, principal, token))
    ensures StepSystem(policy, installed, s, Arriving(id, call)) ==
            s.(flights := s.flights[id := Flight(call, Arrived, call.apiUser, false, false, false)])
    ensures id !in s.flights ==> Moved(policy, installed, s, id, at) == s
    ensures id in s.flights && (s.flights[id].stage == Handled || s.flights[id].stage.Refused?) ==>
              Moved(policy, installed, s, id, at).flights == s.flights && Moved(policy, installed, s, id, at).pending == s.pending
  {}

  /** Every read is entered in the ledger with its time: the guard's as a consume, any other as a peek. */
  lemma ReadsAreEntered(policy: Policy, installed: bool, s: System, id: Id, at: Time)
    requires id in s.flights
    ensures var f := s.flights[id];
            var consumes := f.stage == PastHook && f.call.access != Public && f.call.apiTokenId == "";
            Moved(policy, installed, s, id, at).ledger ==
            Record(s.ledger, if consumes then Consumed(f.call.header, at) else Peeked(f.call.header, at))
  {}

  /** What can happen next: a fresh id arrives, time does not fall, and a minted token is new. */
  lemma FeasibleIs(s: System, sweepAt: Time, at: Time, principal: Principal, token: Token, id: Id, call: Call)
    ensures Feasible(s, Minting(sweepAt, at, principal, token)) <==> s.ledger.clock <= sweepAt <= at && token !in s.ledger.issued
    ensures Feasible(s, Arriving(id, call)) <==> id !in s.flights
    ensures Feasible(s, Moving(id, at)) <==> (id in s.flights ==> s.ledger.clock <= at)
  {}

  lemma RunSystemCons(policy: Policy, installed: bool, s: System, h: Happening, hs: seq<Happening>)
    ensures RunSystem(policy, installed, s, [h] + hs) == RunSystem(policy, installed, StepSystem(policy, installed, s, h), hs)
    ensures FeasibleRun(policy, installed, s, [h] + hs) <==>
              Feasible(s, h) && FeasibleRun(policy, installed, StepSystem(policy, installed, s, h), hs)
    ensures RunSystem(policy, installed, s, []) == s && FeasibleRun(policy, installed, s, [])
  {
    assert ([h] + hs)[1..] == hs;
  }

  /** A tool call that is allowed and answered in time is handled, as the principal it was minted for. */
  lemma AllowedCallIsHandled(
    policy: Policy, installed: bool, s: System, id: Id, t1: Time, t2: Time, t3: Time, t4: Time, p: Principal, s': System)
    requires id in s.flights && s.flights[id].stage == Arrived && s.flights[id].call.access == Guarded
    requires s.flights[id].call.apiTokenId == "" && Allowed(policy, s.flights[id].call)
    requires Carries(s, s.flights[id].call, t2) && s.pending[TokenIn(s.flights[id].call.header).value].principal == p
    requires p.userId != "" && t1 <= t2 <= t3 <= t4
    requires s' == RunSystem(policy, installed, s, [Moving(id, t1), Moving(id, t2), Moving(id, t3), Moving(id, t4)])
    ensures id in s'.flights && s'.flights[id].stage == Handled && s'.flights[id].bridged
    ensures s'.flights[id].user == Some(Payload(p.userId, p.sessionId, p.workspaceId, []))
  {
    var s1 := Moved(policy, installed, s, id, t1);
    var s2 := Moved(policy, installed, s1, id, t2);
    var s3 := Moved(policy, installed, s2, id, t3);
    var s4 := Moved(policy, installed, s3, id, t4);
    FourMoves(policy, installed, s, id, t1, t2, t3, t4);
    HookAnswers(policy, installed, s, id, t1);
    PrincipalGuardAnswers(policy, installed, s1, id, t2);
    WriteGuardAnswers(policy, installed, s2, id, t3);
    SessionGuardAnswers(policy, installed, s3, id, t4);
  }

  lemma FourMoves(policy: Policy, installed: bool, s: System, id: Id, t1: Time, t2: Time, t3: Time, t4: Time)
    ensures RunSystem(policy, installed, s, [Moving(id, t1), Moving(id, t2), Moving(id, t3), Moving(id, t4)]) ==
            Moved(policy, installed, Moved(policy, installed, Moved(policy, installed, Moved(policy, installed, s, id, t1), id, t2), id, t3), id, t4)
  {
    var a, b, c, d: Happening := Moving(id, t1), Moving(id, t2), Moving(id, t3), Moving(id, t4);
    assert [a, b, c, d] == [a] + [b, c, d] && [b, c, d] == [b] + [c, d] && [c, d] == [c] + [d] && [d] == [d] + [];
    var s1 := Moved(policy, installed, s, id, t1);
    var s2 := Moved(policy, installed, s1, id, t2);
    RunSystemCons(policy, installed, s, a, [b, c, d]);
    RunSystemCons(policy, installed, s1, b, [c, d]);
    RunSystemCons(policy, installed, s2, c, [d]);
    RunSystemCons(policy, installed, Moved(policy, installed, s2, id, t3), d, []);
  }

  // ── The guard that consumes, as it runs ────────────────────────────────────

  class McpRequest {
    const call: Call
    var user: Option<Payload>

    constructor (call: Call)
      ensures this.call == call && user == call.apiUser
    {
      this.call := call;
      user := call.apiUser;
    }
  }

  class Bridge {
    const tokens: TokenStore
    var marked: set<McpRequest>

    constructor (tokens: TokenStore)
      ensures this.tokens == tokens && marked == {}
    {
      this.tokens := tokens;
      marked := {};
    }

    function FlightOf(request: McpRequest): Flight
      reads this, request
    {
      Flight(request.call, PastHook, request.user, request in marked, false, false)
    }

    /** McpPrincipalGuard.canActivate: the only place that spends a token or sets the marker. */
    method CanActivate(request: McpRequest, now: Time)
      requires !request.call.access.Raw? && request !in marked
      modifies this, tokens, request
      ensures var f := PrincipalGuard(old(tokens.pending), old(FlightOf(request)), now);
              && request.user == f.user
              && marked == if f.bridged then old(marked) + {request} else old(marked)
      ensures tokens.pending ==
              if ReadsToken(request.call) then Spend(old(tokens.pending), request.call.header) else old(tokens.pending)
    {
      if request.call.access.Public? || request.call.apiTokenId != "" { return; }
      var mcp := tokens.Consume(request.call.header, now);
      if mcp.None? { return; }
      marked := marked + {request};
      request.user := Some(PayloadOf(mcp.value));
    }
  }
}
