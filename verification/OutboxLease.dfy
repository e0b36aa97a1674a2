/**
 * The lease-and-fence protocol of the outbox relays
 * (libs/platform/src/outbox/abstract-outbox-relay.ts).
 *
 * The first half is what one SQL statement or one short transaction does to the table. The second half is the
 * distributed protocol: any number of workers, each holding claimed rows in memory, interleaved with crashes,
 * clock movement and lost leases. A run is ANY sequence of events; an event that is not possible is a no-op.
 */
module OutboxLease {
  import opened Wrappers

  type Id = nat
  type Token = nat

  /** `Sent` is what each outbox calls success (`published` in the audit outbox). */
  datatype Status = Pending | Sent | Failed

  datatype Row = Row(
    status: Status,
    attempts: nat,
    scheduledAt: int,
    leaseToken: Option<Token>,
    lockedUntil: Option<int>)

  type Table = map<Id, Row>

  /** What `deliver` answered: a result, or one of the errors `fail` tells apart. A delay is None when not finite. */
  datatype Outcome<+R> =
    | Succeeded(result: R)
    | Retryable
    | RetryAfter(hint: Option<int>)
    | NonRetryable
    | Deferred(delay: Option<int>)

  const MAX_RETRY_AFTER_MS: int := 3_600_000
  const DEFAULT_DEFER_MS: int := 300_000
  const BACKOFF_BASE_MS: int := 30_000
  const BACKOFF_CAP_MS: int := 1_800_000

  // ── One statement at a time ────────────────────────────────────────────────

  predicate NotLeased(row: Row, now: int) {
    row.lockedUntil.None? || row.lockedUntil.value <= now
  }

  predicate Due(row: Row, max: nat, now: int) {
    row.status.Pending? && row.attempts < max && row.scheduledAt <= now && NotLeased(row, now)
  }

  /** A lapsed lease with every attempt spent: the process died or the call never returned. */
  predicate Abandoned(row: Row, max: nat, now: int) {
    row.status.Pending? && row.attempts >= max && NotLeased(row, now)
  }

  function Reap(row: Row): Row {
    row.(status := Failed, leaseToken := None, lockedUntil := None)
  }

  function ReapAbandoned(rows: Table, max: nat, now: int): Table {
    map id | id in rows :: if Abandoned(rows[id], max, now) then Reap(rows[id]) else rows[id]
  }

  function StampLeases(rows: Table, ids: set<Id>, token: Token, until: int): Table {
    map id | id in rows ::
      if id in ids
      then rows[id].(attempts := rows[id].attempts + 1, leaseToken := Some(token), lockedUntil := Some(until))
      else rows[id]
  }

  /** The fence: id AND token, nothing else. An expired lease nobody took over still passes. */
  predicate HoldsLease(rows: Table, id: Id, token: Token) {
    id in rows && rows[id].leaseToken == Some(token)
  }

  function ReleaseLease(row: Row): Row {
    row.(leaseToken := None, lockedUntil := None)
  }

  /** Exponential backoff: 30 s doubling, capped at 30 minutes. */
  function BackoffDelayMs(attempts: nat): (d: int)
    ensures 0 <= d <= BACKOFF_CAP_MS
  {
    if attempts <= 1 then BACKOFF_BASE_MS
    else
      var d := 2 * BackoffDelayMs(attempts - 1);
      if d < BACKOFF_CAP_MS then d else BACKOFF_CAP_MS
  }

  function Clamp(d: int): (c: int)
    ensures 0 <= c <= MAX_RETRY_AFTER_MS
  {
    if d < 0 then 0 else if d > MAX_RETRY_AFTER_MS then MAX_RETRY_AFTER_MS else d
  }

  function DeferDelayMs(delay: Option<int>): int {
    if delay.Some? then Clamp(delay.value) else DEFAULT_DEFER_MS
  }

  function FailureDelayMs<R>(outcome: Outcome<R>, attempts: nat): int {
    var hinted := if outcome.RetryAfter? && outcome.hint.Some? then Clamp(outcome.hint.value) else 0;
    if hinted > BackoffDelayMs(attempts) then hinted else BackoffDelayMs(attempts)
  }

  /** Terminal when the error cannot be retried or this was the last attempt. */
  function FailureStatus<R>(outcome: Outcome<R>, attempts: nat, max: nat): Status {
    if outcome.NonRetryable? || attempts >= max then Failed else Pending
  }

  /** Only a retry moves `scheduledAt`. */
  function MarkFailed(row: Row, status: Status, dueAt: int): Row {
    if status.Pending? then row.(status := status, scheduledAt := dueAt) else row.(status := status)
  }

  /** What the fenced finish transaction writes for an outcome, given the attempt number the worker remembers. */
  function Finished<R>(row: Row, outcome: Outcome<R>, attempts: nat, max: nat, now: int): Row {
    ReleaseLease(
      match outcome
      case Succeeded(_) => row.(status := Sent)
      case Deferred(delay) =>
        var refunded := row.(attempts := if row.attempts > 0 then row.attempts - 1 else 0);
        MarkFailed(refunded, Pending, now + DeferDelayMs(delay))
      case _ =>
        MarkFailed(row, FailureStatus(outcome, attempts, max), now + FailureDelayMs(outcome, attempts)))
  }

  // ── The distributed protocol ───────────────────────────────────────────────

  /** A claimed row in some worker's memory. */
  datatype Phase<+R> = Waiting | Calling | Returned(outcome: Outcome<R>)

  datatype Job<+R> = Job(attempts: nat, phase: Phase<R>)

  /** History of one row: claims, refunds, external calls started, and claims whose call has not started. */
  datatype Hist = Hist(claims: nat, refunds: nat, calls: nat, uncalled: set<Token>)

  /** `nextToken` stands for a source of fresh lease tokens. */
  datatype World<+R> = World(
    now: int,
    nextToken: nat,
    rows: Table,
    jobs: map<(Token, Id), Job<R>>,
    hist: map<Id, Hist>)

  datatype Event<+R> =
    | Enqueue(id: Id, dueAt: int)
    | Advance(ms: nat)
    | Claim(offered: set<Id>, hold: nat)
    | Renew(token: Token, id: Id, lease: nat)
    | Return(token: Token, id: Id, outcome: Outcome<R>)
    | Finish(token: Token, id: Id)
    | FinishThrows(token: Token, id: Id)
    | Crash(lost: set<(Token, Id)>)

  function Empty<R>(): World<R> {
    World(0, 0, map[], map[], map[])
  }

  /** The rows a claim takes: any part of what is due (`FOR UPDATE SKIP LOCKED` and the limit choose which). */
  function Selected<R>(w: World<R>, max: nat, offered: set<Id>): set<Id> {
    set id | id in offered && id in w.rows && Due(w.rows[id], max, w.now)
  }

  function DoClaim<R>(max: nat, w: World<R>, offered: set<Id>, hold: nat): World<R> {
    var reaped := ReapAbandoned(w.rows, max, w.now);
    var ids := Selected(w, max, offered);
    var taken: map<(Token, Id), Job<R>> :=
      map k: (Token, Id) | k in (set id <- ids :: (w.nextToken, id)) ::
        Job(if k.1 in w.rows then w.rows[k.1].attempts + 1 else 0, Waiting);
    w.(nextToken := w.nextToken + 1,
       rows := StampLeases(reaped, ids, w.nextToken, w.now + hold),
       jobs := w.jobs + taken,
       hist := map id | id in w.hist ::
         if id in ids
         then w.hist[id].(claims := w.hist[id].claims + 1, uncalled := w.hist[id].uncalled + {w.nextToken})
         else w.hist[id])
  }

  /** Renewal right before the call. Lost: skip the row. Held: the call starts, with no transaction open. */
  function DoRenew<R>(w: World<R>, token: Token, id: Id, lease: nat): World<R> {
    if (token, id) !in w.jobs || !w.jobs[(token, id)].phase.Waiting? then w
    else if !HoldsLease(w.rows, id, token) || id !in w.hist then w.(jobs := w.jobs - {(token, id)})
    else
      w.(rows := w.rows[id := w.rows[id].(lockedUntil := Some(w.now + lease))],
         jobs := w.jobs[(token, id) := w.jobs[(token, id)].(phase := Calling)],
         hist := w.hist[id := w.hist[id].(calls := w.hist[id].calls + 1, uncalled := w.hist[id].uncalled - {token})])
  }

  function DoReturn<R>(w: World<R>, token: Token, id: Id, outcome: Outcome<R>): World<R> {
    if (token, id) !in w.jobs || !w.jobs[(token, id)].phase.Calling? then w
    else w.(jobs := w.jobs[(token, id) := w.jobs[(token, id)].(phase := Returned(outcome))])
  }

  /** A worker that has its answer and still holds the lease: the finish transaction will write. */
  predicate Commits<R>(w: World<R>, token: Token, id: Id) {
    (token, id) in w.jobs && w.jobs[(token, id)].phase.Returned? && HoldsLease(w.rows, id, token)
  }

  predicate CommitsSent<R>(w: World<R>, token: Token, id: Id) {
    Commits(w, token, id) && w.jobs[(token, id)].phase.outcome.Succeeded?
  }

  function DoFinish<R>(max: nat, w: World<R>, token: Token, id: Id): World<R> {
    if (token, id) !in w.jobs || !w.jobs[(token, id)].phase.Returned? then w
    else if !HoldsLease(w.rows, id, token) || id !in w.hist then w.(jobs := w.jobs - {(token, id)})
    else
      var job := w.jobs[(token, id)];
      var refund := if job.phase.outcome.Deferred? then 1 else 0;
      w.(rows := w.rows[id := Finished(w.rows[id], job.phase.outcome, job.attempts, max, w.now)],
         jobs := w.jobs - {(token, id)},
         hist := w.hist[id := w.hist[id].(refunds := w.hist[id].refunds + refund)])
  }

  /** Nothing committed. A success is then recorded as an ordinary failure; a failure is dropped. */
  function DoFinishThrows<R>(w: World<R>, token: Token, id: Id): World<R> {
    if (token, id) !in w.jobs || !w.jobs[(token, id)].phase.Returned? then w
    else if w.jobs[(token, id)].phase.outcome.Succeeded?
    then w.(jobs := w.jobs[(token, id) := w.jobs[(token, id)].(phase := Returned(Retryable))])
    else w.(jobs := w.jobs - {(token, id)})
  }

  function Step<R>(max: nat, w: World<R>, e: Event<R>): World<R> {
    match e
    case Enqueue(id, dueAt) =>
      if id in w.rows then w
      else w.(rows := w.rows[id := Row(Pending, 0, dueAt, None, None)], hist := w.hist[id := Hist(0, 0, 0, {})])
    case Advance(ms) => w.(now := w.now + ms)
    case Claim(offered, hold) => DoClaim(max, w, offered, hold)
    case Renew(token, id, lease) => DoRenew(w, token, id, lease)
    case Return(token, id, outcome) => DoReturn(w, token, id, outcome)
    case Finish(token, id) => DoFinish(max, w, token, id)
    case FinishThrows(token, id) => DoFinishThrows(w, token, id)
    case Crash(lost) => w.(jobs := w.jobs - lost)
  }

  function Run<R>(max: nat, w: World<R>, es: seq<Event<R>>): World<R>
    decreases |es|
  {
    if es == [] then w else Run(max, Step(max, w, es[0]), es[1..])
  }

  // ── The invariant ──────────────────────────────────────────────────────────

  ghost predicate RowInv<R>(max: nat, w: World<R>, id: Id)
    requires id in w.rows && id in w.hist
  {
    var row, h := w.rows[id], w.hist[id];
    && row.attempts <= max
    && (row.leaseToken.None? <==> row.lockedUntil.None?)
    && (!row.status.Pending? ==> row.leaseToken.None?)
    && (row.leaseToken.Some? ==> row.leaseToken.value < w.nextToken && row.attempts > 0)
    && row.attempts + h.refunds == h.claims
    && h.calls + |h.uncalled| == h.claims
    && (forall t <- h.uncalled :: t < w.nextToken)
  }

  ghost predicate JobInv<R>(w: World<R>, k: (Token, Id))
    requires k in w.jobs
  {
    && k.0 < w.nextToken
    && k.1 in w.rows && k.1 in w.hist
    && (w.rows[k.1].leaseToken == Some(k.0) ==> w.rows[k.1].attempts == w.jobs[k].attempts)
    && (w.jobs[k].phase.Waiting? ==> k.0 in w.hist[k.1].uncalled)
  }

  ghost predicate Inv<R>(max: nat, w: World<R>) {
    && w.rows.Keys == w.hist.Keys
    && (forall id <- w.rows :: RowInv(max, w, id))
    && (forall k <- w.jobs :: JobInv(w, k))
  }

  lemma ClaimKeepsInv<R>(max: nat, w: World<R>, offered: set<Id>, hold: nat)
    requires Inv(max, w)
    ensures Inv(max, DoClaim(max, w, offered, hold))
  {
    var w' := DoClaim(max, w, offered, hold);
    forall id <- w'.rows ensures RowInv(max, w', id) {
      assert RowInv(max, w, id);
      if id in Selected(w, max, offered) {
        assert w.nextToken !in w.hist[id].uncalled;
      }
    }
    forall k <- w'.jobs ensures JobInv(w', k) {
      if k in w.jobs { assert JobInv(w, k); }
    }
  }

  lemma RenewKeepsInv<R>(max: nat, w: World<R>, token: Token, id: Id, lease: nat)
    requires Inv(max, w)
    ensures Inv(max, DoRenew(w, token, id, lease))
  {
    var w' := DoRenew(w, token, id, lease);
    if (token, id) in w.jobs { assert JobInv(w, (token, id)); }
    forall i <- w'.rows ensures RowInv(max, w', i) { assert RowInv(max, w, i); }
    forall k <- w'.jobs ensures JobInv(w', k) { assert JobInv(w, k); }
  }

  lemma FinishKeepsInv<R>(max: nat, w: World<R>, token: Token, id: Id)
    requires Inv(max, w)
    ensures Inv(max, DoFinish(max, w, token, id))
  {
    var w' := DoFinish(max, w, token, id);
    if (token, id) in w.jobs { assert JobInv(w, (token, id)); }
    forall i <- w'.rows ensures RowInv(max, w', i) { assert RowInv(max, w, i); }
    forall k <- w'.jobs ensures JobInv(w', k) { assert JobInv(w, k); }
  }

  lemma ReturnKeepsInv<R>(max: nat, w: World<R>, token: Token, id: Id, outcome: Outcome<R>)
    requires Inv(max, w)
    ensures Inv(max, DoReturn(w, token, id, outcome))
  {
    var w' := DoReturn(w, token, id, outcome);
    forall i <- w.rows ensures RowInv(max, w', i) { assert RowInv(max, w, i); }
    forall k <- w'.jobs ensures JobInv(w', k) { assert JobInv(w, k); }
  }

  lemma ThrowKeepsInv<R>(max: nat, w: World<R>, token: Token, id: Id)
    requires Inv(max, w)
    ensures Inv(max, DoFinishThrows(w, token, id))
  {
    var w' := DoFinishThrows(w, token, id);
    forall i <- w.rows ensures RowInv(max, w', i) { assert RowInv(max, w, i); }
    forall k <- w'.jobs ensures JobInv(w', k) { assert JobInv(w, k); }
  }

  lemma StepKeepsInv<R>(max: nat, w: World<R>, e: Event<R>)
    requires Inv(max, w)
    ensures Inv(max, Step(max, w, e))
  {
    match e
    case Claim(offered, hold) => ClaimKeepsInv(max, w, offered, hold);
    case Renew(token, id, lease) => RenewKeepsInv(max, w, token, id, lease);
    case Finish(token, id) => FinishKeepsInv(max, w, token, id);
    case Return(token, id, outcome) => ReturnKeepsInv(max, w, token, id, outcome);
    case FinishThrows(token, id) => ThrowKeepsInv(max, w, token, id);
    case _ =>
      var w' := Step(max, w, e);
      forall i <- w'.rows ensures RowInv(max, w', i) {
        if i in w.rows { assert RowInv(max, w, i); }
      }
      forall k <- w'.jobs ensures JobInv(w', k) { assert JobInv(w, k); }
  }

  lemma {:induction false} RunKeepsInv<R>(max: nat, w: World<R>, es: seq<Event<R>>)
    requires Inv(max, w)
    ensures Inv(max, Run(max, w, es))
    decreases |es|
  {
    if es != [] {
      StepKeepsInv(max, w, es[0]);
      RunKeepsInv(max, Step(max, w, es[0]), es[1..]);
    }
  }

  lemma RunCons<R>(max: nat, w: World<R>, e: Event<R>, es: seq<Event<R>>)
    ensures Run(max, w, [e] + es) == Run(max, Step(max, w, e), es)
  {
    assert ([e] + es)[1..] == es;
  }

  lemma RunOne<R>(max: nat, w: World<R>, e: Event<R>)
    ensures Run(max, w, [e]) == Step(max, w, e)
  {
    RunCons(max, w, e, []);
    assert [e] + [] == [e];
  }

  lemma {:induction false} RunConcat<R>(max: nat, w: World<R>, a: seq<Event<R>>, b: seq<Event<R>>)
    ensures Run(max, w, a + b) == Run(max, Run(max, w, a), b)
    decreases |a|
  {
    if a == [] {
      assert a + b == b;
    } else {
      assert (a + b)[1..] == a[1..] + b;
      RunConcat(max, Step(max, w, a[0]), a[1..], b);
    }
  }
}
