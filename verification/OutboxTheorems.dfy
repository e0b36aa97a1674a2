/** What the lease-and-fence protocol guarantees over whole runs, for any number of workers. */
module OutboxTheorems {
  import opened Wrappers
  import opened OutboxLease

  // ── Fenced finish ──────────────────────────────────────────────────────────

  ghost predicate IsSent<R>(w: World<R>, id: Id) {
    id in w.rows && w.rows[id].status.Sent?
  }

  ghost predicate IsTerminal<R>(w: World<R>, id: Id) {
    id in w.rows && !w.rows[id].status.Pending?
  }

  /** How many events of the run take the row to `sent`. */
  ghost function SentTransitions<R>(max: nat, w: World<R>, es: seq<Event<R>>, id: Id): nat
    decreases |es|
  {
    if es == [] then 0
    else
      var w' := Step(max, w, es[0]);
      (if !IsSent(w, id) && IsSent(w', id) then 1 else 0) + SentTransitions(max, w', es[1..], id)
  }

  /** A row goes to `sent` in exactly one kind of event: a fenced finish of a successful delivery. */
  lemma SentExactlyByFencedSuccess<R>(max: nat, w: World<R>, e: Event<R>, id: Id)
    requires Inv(max, w)
    ensures !IsSent(w, id) && IsSent(Step(max, w, e), id) <==>
            e.Finish? && e.id == id && CommitsSent(w, e.token, id)
  {
    if id in w.rows { assert RowInv(max, w, id); }
    if e.Finish? && (e.token, e.id) in w.jobs { assert JobInv(w, (e.token, e.id)); }
  }

  lemma TerminalStep<R>(max: nat, w: World<R>, e: Event<R>, id: Id)
    requires Inv(max, w) && IsTerminal(w, id)
    ensures IsTerminal(Step(max, w, e), id) && Step(max, w, e).rows[id] == w.rows[id]
  {
    assert RowInv(max, w, id);
  }

  /** No worker, crash, lapsed lease or reaper touches a `sent` or `failed` row again. */
  lemma {:induction false} TerminalRowsNeverChange<R>(max: nat, w: World<R>, es: seq<Event<R>>, id: Id)
    requires Inv(max, w) && IsTerminal(w, id)
    ensures IsTerminal(Run(max, w, es), id) && Run(max, w, es).rows[id] == w.rows[id]
    decreases |es|
  {
    if es != [] {
      TerminalStep(max, w, es[0], id);
      StepKeepsInv(max, w, es[0]);
      TerminalRowsNeverChange(max, Step(max, w, es[0]), es[1..], id);
    }
  }

  /** Over any run a row makes at most one transition to `sent`, and one exactly when it ends there. */
  lemma {:induction false} OneSentTransition<R>(max: nat, w: World<R>, es: seq<Event<R>>, id: Id)
    requires Inv(max, w)
    ensures SentTransitions(max, w, es, id) + (if IsSent(w, id) then 1 else 0)
         == if IsSent(Run(max, w, es), id) then 1 else 0
    decreases |es|
  {
    if es != [] {
      var w' := Step(max, w, es[0]);
      StepKeepsInv(max, w, es[0]);
      if IsSent(w, id) { TerminalStep(max, w, es[0], id); }
      OneSentTransition(max, w', es[1..], id);
    }
  }

  lemma LostLeaseStep<R>(max: nat, w: World<R>, e: Event<R>, token: Token, id: Id)
    requires Inv(max, w) && token < w.nextToken && !HoldsLease(w.rows, id, token)
    ensures !HoldsLease(Step(max, w, e).rows, id, token) && token < Step(max, w, e).nextToken
  {}

  lemma {:induction false} LostLeaseStaysLost<R>(max: nat, w: World<R>, es: seq<Event<R>>, token: Token, id: Id)
    requires Inv(max, w) && token < w.nextToken && !HoldsLease(w.rows, id, token)
    ensures !HoldsLease(Run(max, w, es).rows, id, token)
    decreases |es|
  {
    if es != [] {
      LostLeaseStep(max, w, es[0], token, id);
      StepKeepsInv(max, w, es[0]);
      LostLeaseStaysLost(max, Step(max, w, es[0]), es[1..], token, id);
    }
  }

  /** Anything the holder of (token, id) can do. */
  ghost predicate ByWorker<R>(e: Event<R>, token: Token, id: Id) {
    match e
    case Renew(t, i, _) => t == token && i == id
    case Return(t, i, _) => t == token && i == id
    case Finish(t, i) => t == token && i == id
    case FinishThrows(t, i) => t == token && i == id
    case _ => false
  }

  /** Once a claim has replaced a worker's lease token, that worker never changes the table again. */
  lemma ReplacedWorkerChangesNothing<R>(
      max: nat, w: World<R>, offered: set<Id>, hold: nat, later: seq<Event<R>>, token: Token, id: Id, e: Event<R>)
    requires Inv(max, w) && token < w.nextToken
    requires id in Selected(w, max, offered)
    requires ByWorker(e, token, id)
    ensures var w1 := Run(max, DoClaim(max, w, offered, hold), later);
            Step(max, w1, e).rows == w1.rows
  {
    var claimed := DoClaim(max, w, offered, hold);
    ClaimKeepsInv(max, w, offered, hold);
    LostLeaseStaysLost(max, claimed, later, token, id);
    NoLeaseNoWrite(max, Run(max, claimed, later), token, id, e);
  }

  lemma NoLeaseNoWrite<R>(max: nat, w: World<R>, token: Token, id: Id, e: Event<R>)
    requires !HoldsLease(w.rows, id, token) && ByWorker(e, token, id)
    ensures Step(max, w, e).rows == w.rows
  {}

  // ── No endless retry ───────────────────────────────────────────────────────

  /** The renewal after which `deliver` runs. */
  ghost predicate StartsCall<R>(w: World<R>, e: Event<R>, id: Id) {
    && e.Renew? && e.id == id
    && (e.token, id) in w.jobs && w.jobs[(e.token, id)].phase.Waiting?
    && HoldsLease(w.rows, id, e.token)
  }

  ghost function CallsStarted<R>(max: nat, w: World<R>, es: seq<Event<R>>, id: Id): nat
    decreases |es|
  {
    if es == [] then 0
    else (if StartsCall(w, es[0], id) then 1 else 0) + CallsStarted(max, Step(max, w, es[0]), es[1..], id)
  }

  /** A fenced finish of a deferred delivery: the only step that gives an attempt back. */
  ghost predicate Defers<R>(w: World<R>, e: Event<R>, id: Id) {
    && e.Finish? && e.id == id && Commits(w, e.token, id)
    && w.jobs[(e.token, id)].phase.outcome.Deferred?
  }

  ghost function DeferralsIn<R>(max: nat, w: World<R>, es: seq<Event<R>>, id: Id): nat
    decreases |es|
  {
    if es == [] then 0
    else (if Defers(w, es[0], id) then 1 else 0) + DeferralsIn(max, Step(max, w, es[0]), es[1..], id)
  }

  lemma RenewCounts<R>(max: nat, w: World<R>, e: Event<R>, id: Id)
    requires Inv(max, w) && id in w.rows && e.Renew?
    ensures var w' := DoRenew(w, e.token, e.id, e.lease);
            && id in w'.hist && w'.hist[id].refunds == w.hist[id].refunds
            && w'.hist[id].calls == w.hist[id].calls + (if StartsCall(w, e, id) then 1 else 0)
  {}

  lemma FinishCounts<R>(max: nat, w: World<R>, e: Event<R>, id: Id)
    requires Inv(max, w) && id in w.rows && e.Finish?
    ensures var w' := DoFinish(max, w, e.token, e.id);
            && id in w'.hist && w'.hist[id].calls == w.hist[id].calls
            && w'.hist[id].refunds == w.hist[id].refunds + (if Defers(w, e, id) then 1 else 0)
  {}

  lemma HistoryStep<R>(max: nat, w: World<R>, e: Event<R>, id: Id)
    requires Inv(max, w) && id in w.rows
    ensures var w' := Step(max, w, e);
            && id in w'.hist
            && w'.hist[id].calls == w.hist[id].calls + (if StartsCall(w, e, id) then 1 else 0)
            && w'.hist[id].refunds == w.hist[id].refunds + (if Defers(w, e, id) then 1 else 0)
  {
    match e
    case Renew(_, _, _) => RenewCounts(max, w, e, id);
    case Finish(_, _) => FinishCounts(max, w, e, id);
    case _ =>
  }

  lemma {:induction false} HistoryCounts<R>(max: nat, w: World<R>, es: seq<Event<R>>, id: Id)
    requires Inv(max, w) && id in w.rows
    ensures var w' := Run(max, w, es);
            && id in w'.hist
            && w'.hist[id].calls == w.hist[id].calls + CallsStarted(max, w, es, id)
            && w'.hist[id].refunds == w.hist[id].refunds + DeferralsIn(max, w, es, id)
    decreases |es|
  {
    if es != [] {
      HistoryStep(max, w, es[0], id);
      StepKeepsInv(max, w, es[0]);
      HistoryCounts(max, Step(max, w, es[0]), es[1..], id);
    }
  }

  /** Whatever crashes: a row is delivered at most `max` times, plus once for each deferral. */
  lemma DeliveriesAreBounded<R>(max: nat, w: World<R>, es: seq<Event<R>>, id: Id)
    requires Inv(max, w) && id in w.rows && w.rows[id].attempts == 0 && w.hist[id] == Hist(0, 0, 0, {})
    ensures CallsStarted(max, w, es, id) <= max + DeferralsIn(max, w, es, id)
  {
    RunKeepsInv(max, w, es);
    HistoryCounts(max, w, es, id);
    assert RowInv(max, Run(max, w, es), id);
  }

  /** The attempt counter is spent at claim time and only a deferral returns one. */
  lemma AttemptsNeverFall<R>(max: nat, w: World<R>, e: Event<R>, id: Id)
    requires Inv(max, w) && id in w.rows
    ensures var after := Step(max, w, e).rows[id].attempts;
            && (Defers(w, e, id) ==> after == w.rows[id].attempts - 1)
            && (!Defers(w, e, id) ==> after >= w.rows[id].attempts)
            && (after > w.rows[id].attempts <==> e.Claim? && id in Selected(w, max, e.offered))
  {
    assert RowInv(max, w, id);
  }

  /** Steps left: 0 once terminal, else the claims that remain plus the reaper's pass. */
  ghost function Rank<R>(max: nat, w: World<R>, id: Id): nat
    requires id in w.rows && w.rows[id].attempts <= max
  {
    if w.rows[id].status.Pending? then 1 + max - w.rows[id].attempts else 0
  }

  lemma RankStep<R>(max: nat, w: World<R>, e: Event<R>, id: Id)
    requires Inv(max, w) && id in w.rows
    ensures var w' := Step(max, w, e);
            && id in w'.rows && w'.rows[id].attempts <= max && w.rows[id].attempts <= max
            && Rank(max, w', id) <= Rank(max, w, id) + (if Defers(w, e, id) then 1 else 0)
  {
    assert RowInv(max, w, id);
    StepKeepsInv(max, w, e);
    assert RowInv(max, Step(max, w, e), id);
  }

  lemma {:induction false} RankRun<R>(max: nat, w: World<R>, es: seq<Event<R>>, id: Id)
    requires Inv(max, w) && id in w.rows
    ensures var w' := Run(max, w, es);
            && Inv(max, w') && id in w'.rows && w'.rows[id].attempts <= max && w.rows[id].attempts <= max
            && Rank(max, w', id) <= Rank(max, w, id) + DeferralsIn(max, w, es, id)
    decreases |es|
  {
    if es == [] {
      assert RowInv(max, w, id);
    } else {
      RankStep(max, w, es[0], id);
      StepKeepsInv(max, w, es[0]);
      RankRun(max, Step(max, w, es[0]), es[1..], id);
    }
  }

  /** How long until the row is neither backing off nor leased. */
  function Wait(row: Row, now: int): nat {
    var lapse := if row.lockedUntil.Some? && row.lockedUntil.value > row.scheduledAt
                 then row.lockedUntil.value else row.scheduledAt;
    if lapse > now then lapse - now else 0
  }

  /** The clock passes the row's back-off and lease, then some worker runs a claim that reaches the row. */
  function Service<R>(w: World<R>, id: Id, hold: nat): seq<Event<R>>
    requires id in w.rows
  {
    [Advance(Wait(w.rows[id], w.now)), Claim({id}, hold)]
  }

  lemma ServiceLowersRank<R>(max: nat, w: World<R>, id: Id, hold: nat)
    requires Inv(max, w) && id in w.rows && w.rows[id].status.Pending?
    ensures var w' := Run(max, w, Service(w, id, hold));
            && Inv(max, w') && id in w'.rows && w'.rows[id].attempts <= max && w.rows[id].attempts <= max
            && Rank(max, w', id) < Rank(max, w, id)
            && DeferralsIn(max, w, Service(w, id, hold), id) == 0
  {
    assert RowInv(max, w, id);
    var es := Service<R>(w, id, hold);
    var w1 := Step(max, w, es[0]);
    var w2 := Step(max, w1, es[1]);
    assert es[1..] == [es[1]];
    RunOne(max, w1, es[1]);
    assert DeferralsIn(max, w1, [es[1]], id) == 0 by { assert [es[1]][1..] == []; }
    RunKeepsInv(max, w, es);
    assert RowInv(max, w2, id);
    assert id in Selected(w1, max, {id}) || Abandoned(w1.rows[id], max, w1.now);
  }

  /** Anything at all happens, then the row is served once. */
  datatype Round<R> = Round(before: seq<Event<R>>, hold: nat)

  ghost function Drive<R>(max: nat, w: World<R>, id: Id, rounds: seq<Round<R>>): (World<R>, nat)
    requires Inv(max, w) && id in w.rows
    decreases |rounds|
  {
    if rounds == [] then (w, 0)
    else
      RankRun(max, w, rounds[0].before, id);
      var w1 := Run(max, w, rounds[0].before);
      var served := Service<R>(w1, id, rounds[0].hold);
      RankRun(max, w1, served, id);
      var (last, deferrals) := Drive(max, Run(max, w1, served), id, rounds[1..]);
      (last, DeferralsIn(max, w, rounds[0].before, id) + DeferralsIn(max, w1, served, id) + deferrals)
  }

  /**
   * Every row ends `sent` or `failed`, whatever happens between the services: after as many services as its rank,
   * plus one for each deferral (a deferral is not an attempt).
   */
  lemma {:induction false} EveryRowTerminates<R>(max: nat, w: World<R>, id: Id, rounds: seq<Round<R>>)
    requires Inv(max, w) && id in w.rows
    requires w.rows[id].attempts <= max
    requires |rounds| >= Rank(max, w, id) + Drive(max, w, id, rounds).1
    ensures IsTerminal(Drive(max, w, id, rounds).0, id)
    decreases |rounds|
  {
    if rounds != [] {
      var before := rounds[0].before;
      RankRun(max, w, before, id);
      var w1 := Run(max, w, before);
      var served := Service<R>(w1, id, rounds[0].hold);
      RankRun(max, w1, served, id);
      var w2 := Run(max, w1, served);
      if w1.rows[id].status.Pending? {
        ServiceLowersRank(max, w1, id, rounds[0].hold);
        EveryRowTerminates(max, w2, id, rounds[1..]);
      } else {
        TerminalRowsNeverChange(max, w1, served, id);
        DriveKeepsTerminal(max, w2, id, rounds[1..]);
      }
    }
  }

  lemma {:induction false} DriveKeepsTerminal<R>(max: nat, w: World<R>, id: Id, rounds: seq<Round<R>>)
    requires Inv(max, w) && IsTerminal(w, id)
    ensures IsTerminal(Drive(max, w, id, rounds).0, id)
    decreases |rounds|
  {
    if rounds != [] {
      RankRun(max, w, rounds[0].before, id);
      var w1 := Run(max, w, rounds[0].before);
      TerminalRowsNeverChange(max, w, rounds[0].before, id);
      var served := Service<R>(w1, id, rounds[0].hold);
      RankRun(max, w1, served, id);
      TerminalRowsNeverChange(max, w1, served, id);
      DriveKeepsTerminal(max, Run(max, w1, served), id, rounds[1..]);
    }
  }

  /** A refusal that retrying cannot fix dead-letters the row at once; a retryable one only on the last attempt. */
  lemma RefusalEndsTheRow<R>(max: nat, w: World<R>, token: Token, id: Id)
    requires Inv(max, w) && Commits(w, token, id)
    ensures var outcome := w.jobs[(token, id)].phase.outcome;
            var row := Step(max, w, Finish(token, id)).rows[id];
            && (outcome.NonRetryable? ==> row.status.Failed?)
            && (outcome.Retryable? || outcome.RetryAfter? ==>
                  (row.status.Failed? <==> w.rows[id].attempts == max)
                  && (row.status.Pending? ==> row.scheduledAt > w.now))
            && (outcome.Deferred? ==> row.status.Pending? && row.scheduledAt >= w.now)
            && row.leaseToken.None?
  {
    assert JobInv(w, (token, id));
    assert RowInv(max, w, id);
    BackoffIsPositive(w.jobs[(token, id)].attempts);
  }

  function Pow2(n: nat): nat {
    if n == 0 then 1 else 2 * Pow2(n - 1)
  }

  /** The delay doubles with each attempt from 30 seconds, and stays at half an hour once it would pass it. */
  lemma {:induction false} BackoffDoublesToTheCap(attempts: nat)
    requires attempts >= 1
    ensures var doubled := BACKOFF_BASE_MS * Pow2(attempts - 1);
            BackoffDelayMs(attempts) == if doubled < BACKOFF_CAP_MS then doubled else BACKOFF_CAP_MS
    decreases attempts
  {
    if attempts > 1 { BackoffDoublesToTheCap(attempts - 1); }
  }

  lemma {:induction false} BackoffIsPositive(attempts: nat)
    ensures BackoffDelayMs(attempts) >= BACKOFF_BASE_MS
    decreases attempts
  {
    if attempts > 1 { BackoffIsPositive(attempts - 1); }
  }

  // ── The bound is exact ─────────────────────────────────────────────────────

  /** The clock passes any delay, and a worker claims the row and calls. */
  ghost function CallEvents<R>(token: Token, id: Id): seq<Event<R>> {
    [Advance(BACKOFF_CAP_MS), Claim({id}, 0), Renew(token, id, 0)]
  }

  /** The call ends in this outcome. */
  ghost function AnswerEvents<R>(token: Token, id: Id, outcome: Outcome<R>): seq<Event<R>> {
    [Return(token, id, outcome), Finish(token, id)]
  }

  ghost function Cycle<R>(token: Token, id: Id, outcome: Outcome<R>): seq<Event<R>> {
    CallEvents(token, id) + AnswerEvents(token, id, outcome)
  }

  ghost function Cycles<R>(token: Token, id: Id, outcome: Outcome<R>, n: nat): seq<Event<R>>
    decreases n
  {
    if n == 0 then [] else Cycle(token, id, outcome) + Cycles(token + 1, id, outcome, n - 1)
  }

  /** Pending, unleased, and due once the longest delay has passed. */
  ghost predicate Waits<R>(w: World<R>, id: Id, attempts: nat) {
    && id in w.rows && w.rows[id].status.Pending? && w.rows[id].attempts == attempts
    && w.rows[id].leaseToken.None? && w.rows[id].scheduledAt <= w.now + BACKOFF_CAP_MS
  }

  /** A row that is due and unleased once the delay has passed is claimed, its attempt spent. */
  lemma ClaimedWhenDue<R>(max: nat, w: World<R>, id: Id, w': World<R>)
    requires Inv(max, w) && id in w.rows
    requires w.rows[id].status.Pending? && w.rows[id].attempts < max && w.rows[id].leaseToken.None?
    requires w.rows[id].scheduledAt <= w.now
    requires w' == DoClaim(max, w, {id}, 0)
    ensures var t := w.nextToken;
            && HoldsLease(w'.rows, id, t) && w'.rows[id].attempts == w.rows[id].attempts + 1 && w'.rows[id].status.Pending?
            && (t, id) in w'.jobs && w'.jobs[(t, id)] == Job(w'.rows[id].attempts, Waiting)
            && id in w'.hist && w'.nextToken == t + 1
  {
    assert RowInv(max, w, id);
    assert id in Selected(w, max, {id});
    assert (w.nextToken, id) in w'.jobs;
  }

  lemma RenewCalls<R>(w: World<R>, token: Token, id: Id, w': World<R>)
    requires HoldsLease(w.rows, id, token) && id in w.hist && (token, id) in w.jobs && w.jobs[(token, id)].phase.Waiting?
    requires w' == DoRenew(w, token, id, 0)
    ensures HoldsLease(w'.rows, id, token) && w'.rows[id].attempts == w.rows[id].attempts
    ensures w'.rows[id].status == w.rows[id].status && id in w'.hist && w'.nextToken == w.nextToken
    ensures (token, id) in w'.jobs && w'.jobs[(token, id)] == w.jobs[(token, id)].(phase := Calling)
    ensures id in w'.hist && w'.hist[id].calls == w.hist[id].calls + 1
  {}

  lemma Called<R>(max: nat, w: World<R>, id: Id, attempts: nat) returns (w': World<R>)
    requires Inv(max, w) && attempts < max && Waits(w, id, attempts)
    ensures var t := w.nextToken;
            && w' == Run(max, w, CallEvents(t, id))
            && HoldsLease(w'.rows, id, t) && w'.rows[id].attempts == attempts + 1 && w'.rows[id].status.Pending?
            && (t, id) in w'.jobs && w'.jobs[(t, id)] == Job(attempts + 1, Calling) && id in w'.hist && w'.nextToken == t + 1
  {
    var t := w.nextToken;
    var es := CallEvents<R>(t, id);
    var w1 := Step(max, w, es[0]);
    StepKeepsInv(max, w, es[0]);
    var w2 := DoClaim(max, w1, {id}, 0);
    ClaimedWhenDue(max, w1, id, w2);
    w' := DoRenew(w2, t, id, 0);
    RenewCalls(w2, t, id, w');
    assert es[1..] == [es[1]] + [es[2]];
    RunCons(max, w1, es[1], [es[2]]);
    RunOne(max, w2, es[2]);
  }

  /** Either a deferral, which gives the attempt back, or a failure that is retried until the attempts are spent. */
  ghost predicate PutsOff<R>(outcome: Outcome<R>) {
    outcome == Deferred(None) || outcome == Retryable
  }

  ghost function Spent<R>(outcome: Outcome<R>, n: nat): nat {
    if outcome.Deferred? then 0 else n
  }

  lemma Answered<R>(max: nat, w: World<R>, token: Token, id: Id, attempts: nat, outcome: Outcome<R>, w': World<R>)
    requires attempts < max && PutsOff(outcome) && HoldsLease(w.rows, id, token) && w.rows[id].attempts == attempts + 1
    requires w.rows[id].status.Pending? && id in w.hist && (token, id) in w.jobs
    requires w.jobs[(token, id)] == Job(attempts + 1, Calling)
    requires w' == DoFinish(max, DoReturn(w, token, id, outcome), token, id)
    ensures attempts + Spent(outcome, 1) < max ==> Waits(w', id, attempts + Spent(outcome, 1))
    ensures w'.nextToken == w.nextToken && id in w'.rows
  {}

  lemma AnswerRun<R>(max: nat, w: World<R>, token: Token, id: Id, outcome: Outcome<R>)
    ensures Run(max, w, AnswerEvents(token, id, outcome)) == DoFinish(max, DoReturn(w, token, id, outcome), token, id)
  {
    var es := AnswerEvents(token, id, outcome);
    assert es == [es[0]] + [es[1]];
    RunCons(max, w, es[0], [es[1]]);
    RunOne(max, DoReturn(w, token, id, outcome), es[1]);
  }

  lemma OneCycle<R>(max: nat, w: World<R>, id: Id, attempts: nat, outcome: Outcome<R>)
    requires Inv(max, w) && attempts < max && Waits(w, id, attempts) && PutsOff(outcome)
    ensures var w' := Run(max, w, Cycle(w.nextToken, id, outcome));
            && w'.nextToken == w.nextToken + 1 && id in w'.rows
            && (attempts + Spent(outcome, 1) < max ==> Waits(w', id, attempts + Spent(outcome, 1)))
  {
    var t := w.nextToken;
    var w2 := Called(max, w, id, attempts);
    RunConcat(max, w, CallEvents(t, id), AnswerEvents(t, id, outcome));
    AnswerRun(max, w2, t, id, outcome);
    Answered(max, w2, t, id, attempts, outcome, Run(max, w, Cycle(t, id, outcome)));
  }

  lemma {:induction false} CountsConcat<R>(max: nat, w: World<R>, a: seq<Event<R>>, b: seq<Event<R>>, id: Id)
    ensures CallsStarted(max, w, a + b, id) == CallsStarted(max, w, a, id) + CallsStarted(max, Run(max, w, a), b, id)
    ensures DeferralsIn(max, w, a + b, id) == DeferralsIn(max, w, a, id) + DeferralsIn(max, Run(max, w, a), b, id)
    decreases |a|
  {
    if a == [] {
      assert a + b == b;
    } else {
      assert (a + b)[1..] == a[1..] + b;
      CountsConcat(max, Step(max, w, a[0]), a[1..], b, id);
    }
  }

  /** What can start a call or give an attempt back: nothing but a renewal and a finish. */
  lemma IdleCounts<R>(max: nat, w: World<R>, e: Event<R>, es: seq<Event<R>>, id: Id)
    requires !e.Renew? && !e.Finish?
    ensures CallsStarted(max, w, [e] + es, id) == CallsStarted(max, Step(max, w, e), es, id)
    ensures DeferralsIn(max, w, [e] + es, id) == DeferralsIn(max, Step(max, w, e), es, id)
  {
    assert ([e] + es)[1..] == es;
  }

  lemma OneCounts<R>(max: nat, w: World<R>, e: Event<R>, id: Id)
    ensures CallsStarted(max, w, [e], id) == if StartsCall(w, e, id) then 1 else 0
    ensures DeferralsIn(max, w, [e], id) == if Defers(w, e, id) then 1 else 0
  {
    assert [e][1..] == [];
  }

  lemma CalledCounts<R>(max: nat, w: World<R>, id: Id, attempts: nat)
    requires Inv(max, w) && attempts < max && Waits(w, id, attempts)
    ensures var es := CallEvents<R>(w.nextToken, id);
            CallsStarted(max, w, es, id) == 1 && DeferralsIn(max, w, es, id) == 0
  {
    var advance: Event<R>, claim: Event<R>, renew: Event<R> := Advance(BACKOFF_CAP_MS), Claim({id}, 0), Renew(w.nextToken, id, 0);
    var w1 := Step(max, w, advance);
    StepKeepsInv(max, w, advance);
    var w2 := DoClaim(max, w1, {id}, 0);
    ClaimedWhenDue(max, w1, id, w2);
    assert CallEvents<R>(w.nextToken, id) == [advance] + ([claim] + [renew]);
    IdleCounts(max, w, advance, [claim] + [renew], id);
    IdleCounts(max, w1, claim, [renew], id);
    OneCounts(max, w2, renew, id);
  }

  lemma AnsweredCounts<R>(max: nat, w: World<R>, token: Token, id: Id, outcome: Outcome<R>)
    requires HoldsLease(w.rows, id, token) && (token, id) in w.jobs && w.jobs[(token, id)].phase.Calling?
    ensures var es := AnswerEvents(token, id, outcome);
            CallsStarted(max, w, es, id) == 0 && DeferralsIn(max, w, es, id) == if outcome.Deferred? then 1 else 0
  {
    var back: Event<R>, finish: Event<R> := Return(token, id, outcome), Finish(token, id);
    assert AnswerEvents(token, id, outcome) == [back] + [finish];
    IdleCounts(max, w, back, [finish], id);
    OneCounts(max, DoReturn(w, token, id, outcome), finish, id);
  }

  lemma CycleCounts<R>(max: nat, w: World<R>, id: Id, attempts: nat, outcome: Outcome<R>)
    requires Inv(max, w) && attempts < max && Waits(w, id, attempts)
    ensures var es := Cycle(w.nextToken, id, outcome);
            CallsStarted(max, w, es, id) == 1 && DeferralsIn(max, w, es, id) == if outcome.Deferred? then 1 else 0
  {
    var w2 := Called(max, w, id, attempts);
    CalledCounts(max, w, id, attempts);
    AnsweredCounts(max, w2, w.nextToken, id, outcome);
    CountsConcat(max, w, CallEvents(w.nextToken, id), AnswerEvents(w.nextToken, id, outcome), id);
  }

  /** n deliveries in a row that are put off: each is a delivery, and each deferral gives its attempt back. */
  lemma {:induction false} CyclesCount<R>(max: nat, w: World<R>, id: Id, attempts: nat, outcome: Outcome<R>, n: nat)
    requires Inv(max, w) && attempts < max && Waits(w, id, attempts) && PutsOff(outcome)
    requires attempts + Spent(outcome, n) <= max
    ensures var es, w' := Cycles(w.nextToken, id, outcome, n), Run(max, w, Cycles(w.nextToken, id, outcome, n));
            && CallsStarted(max, w, es, id) == n && DeferralsIn(max, w, es, id) == n - Spent(outcome, n)
            && w'.nextToken == w.nextToken + n
            && (attempts + Spent(outcome, n) < max ==> Waits(w', id, attempts + Spent(outcome, n)))
    decreases n
  {
    if n > 0 {
      var cycle, rest := Cycle(w.nextToken, id, outcome), Cycles(w.nextToken + 1, id, outcome, n - 1);
      var w1 := Run(max, w, cycle);
      OneCycle(max, w, id, attempts, outcome);
      CycleCounts(max, w, id, attempts, outcome);
      CountsConcat(max, w, cycle, rest, id);
      RunConcat(max, w, cycle, rest);
      if attempts + Spent(outcome, 1) < max {
        RunKeepsInv(max, w, cycle);
        CyclesCount(max, w1, id, attempts + Spent(outcome, 1), outcome, n - 1);
      } else {
        assert n == 1 && rest == [];
      }
    }
  }

  /**
   * Deferrals have no budget: for every n there is a run of n deliveries, all of them deferred, after which the row is as
   * far from its end as before.
   */
  lemma DeferringHasNoBudget<R>(max: nat, w: World<R>, id: Id, attempts: nat, n: nat)
    requires Inv(max, w) && attempts < max && Waits(w, id, attempts)
    ensures var es := Cycles<R>(w.nextToken, id, Deferred(None), n);
            && CallsStarted(max, w, es, id) == n && DeferralsIn(max, w, es, id) == n
            && Waits(Run(max, w, es), id, attempts)
  {
    CyclesCount<R>(max, w, id, attempts, Deferred(None), n);
  }

  /** A row nobody has delivered yet. */
  ghost predicate Untried<R>(w: World<R>, id: Id) {
    id in w.rows && w.rows[id].status.Pending? && w.rows[id].attempts == 0 && id in w.hist && w.hist[id] == Hist(0, 0, 0, {})
  }

  /** The clock first passes the row's own due time; then d deferred deliveries, then every attempt fails. */
  ghost function Worst<R>(max: nat, w: World<R>, id: Id, d: nat): seq<Event<R>>
    requires id in w.rows
  {
    [Advance(Wait(w.rows[id], w.now))]
    + (Cycles<R>(w.nextToken, id, Deferred(None), d) + Cycles<R>(w.nextToken + d, id, Retryable, max))
  }

  /** From a row that only has to wait: d deferred deliveries, then every attempt. */
  lemma WaitingCounts<R>(max: nat, w: World<R>, id: Id, d: nat)
    requires max > 0 && Inv(max, w) && Waits(w, id, 0)
    ensures var es := Cycles<R>(w.nextToken, id, Deferred(None), d) + Cycles<R>(w.nextToken + d, id, Retryable, max);
            CallsStarted(max, w, es, id) == max + d && DeferralsIn(max, w, es, id) == d
  {
    var defers, retries := Cycles<R>(w.nextToken, id, Deferred(None), d), Cycles<R>(w.nextToken + d, id, Retryable, max);
    CyclesCount<R>(max, w, id, 0, Deferred(None), d);
    var w1 := Run(max, w, defers);
    RunKeepsInv(max, w, defers);
    CyclesCount<R>(max, w1, id, 0, Retryable, max);
    CountsConcat(max, w, defers, retries, id);
  }

  lemma WorstCounts<R>(max: nat, w: World<R>, id: Id, d: nat)
    requires max > 0 && Inv(max, w) && Untried(w, id)
    ensures CallsStarted(max, w, Worst(max, w, id, d), id) == max + d && DeferralsIn(max, w, Worst(max, w, id, d), id) == d
  {
    assert RowInv(max, w, id);
    var first: Event<R> := Advance(Wait(w.rows[id], w.now));
    var w1 := Step(max, w, first);
    StepKeepsInv(max, w, first);
    WaitingCounts(max, w1, id, d);
    IdleCounts(max, w, first,
               Cycles<R>(w.nextToken, id, Deferred(None), d) + Cycles<R>(w.nextToken + d, id, Retryable, max), id);
  }

  /**
   * The bound is exact: over the runs in which the row is deferred d times, a number bounds its deliveries if and only if
   * it is at least max + d. So max alone bounds them exactly when nothing is deferred.
   */
  lemma BudgetIsExact<R>(max: nat, w: World<R>, id: Id, d: nat, bound: nat)
    requires max > 0 && Inv(max, w) && Untried(w, id)
    ensures (forall es: seq<Event<R>> :: DeferralsIn(max, w, es, id) == d ==> CallsStarted(max, w, es, id) <= bound)
            <==> max + d <= bound
  {
    if max + d <= bound {
      forall es: seq<Event<R>> | DeferralsIn(max, w, es, id) == d ensures CallsStarted(max, w, es, id) <= bound {
        DeliveriesAreBounded(max, w, es, id);
      }
    } else {
      WorstCounts(max, w, id, d);
      var es := Worst(max, w, id, d);
      assert DeferralsIn(max, w, es, id) == d && !(CallsStarted(max, w, es, id) <= bound);
    }
  }

  // ── From the start, and without deferrals ──────────────────────────────────

  /** No delivery of the row answers "not now". */
  ghost predicate NeverDeferred<R>(es: seq<Event<R>>, id: Id) {
    forall e <- es :: e.Return? && e.id == id ==> !e.outcome.Deferred?
  }

  ghost predicate HoldsNoDeferral<R>(w: World<R>, id: Id) {
    forall k <- w.jobs :: k.1 == id && w.jobs[k].phase.Returned? ==> !w.jobs[k].phase.outcome.Deferred?
  }

  lemma HoldsNoDeferralStep<R>(max: nat, w: World<R>, e: Event<R>, id: Id)
    requires HoldsNoDeferral(w, id) && (e.Return? && e.id == id ==> !e.outcome.Deferred?)
    ensures HoldsNoDeferral(Step(max, w, e), id)
  {}

  lemma {:induction false} NeverDeferredCountsNone<R>(max: nat, w: World<R>, es: seq<Event<R>>, id: Id)
    requires HoldsNoDeferral(w, id) && NeverDeferred(es, id)
    ensures DeferralsIn(max, w, es, id) == 0
    decreases |es|
  {
    if es != [] {
      assert es[0] in es && forall e <- es[1..] :: e in es;
      HoldsNoDeferralStep(max, w, es[0], id);
      NeverDeferredCountsNone(max, Step(max, w, es[0]), es[1..], id);
    }
  }

  lemma AbsentStep<R>(max: nat, w: World<R>, e: Event<R>, id: Id)
    requires Inv(max, w) && id !in w.rows
    ensures !StartsCall(w, e, id) && !Defers(w, e, id)
    ensures if e.Enqueue? && e.id == id then Untried(Step(max, w, e), id) else id !in Step(max, w, e).rows
  {}

  /**
   * For a row that is not there yet, and so for every row of a database that was empty: over any run it is delivered at
   * most `max` times plus once for each deferral, and at most `max` times if no delivery of it answers with a deferral.
   */
  lemma {:induction false} BoundedFromTheStart<R>(max: nat, w: World<R>, es: seq<Event<R>>, id: Id)
    requires Inv(max, w) && id !in w.rows
    ensures CallsStarted(max, w, es, id) <= max + DeferralsIn(max, w, es, id)
    ensures NeverDeferred(es, id) ==> CallsStarted(max, w, es, id) <= max
    decreases |es|
  {
    if es != [] {
      var w1 := Step(max, w, es[0]);
      AbsentStep(max, w, es[0], id);
      StepKeepsInv(max, w, es[0]);
      if es[0].Enqueue? && es[0].id == id {
        DeliveriesAreBounded(max, w1, es[1..], id);
      } else {
        BoundedFromTheStart(max, w1, es[1..], id);
      }
    }
    if NeverDeferred(es, id) {
      forall k <- w.jobs ensures k.1 != id { assert JobInv(w, k); }
      NeverDeferredCountsNone(max, w, es, id);
    }
  }
}
