/**
 * What each event writes, column by column, in the protocol's own numbers: who may be claimed and who may not, when a put-off
 * row is due again, and for how long a lease keeps other workers away.
 */
module OutboxEffects {
  import opened Wrappers
  import opened OutboxLease
  import OutboxTheorems

  // ── The claim ──────────────────────────────────────────────────────────────

  /** No claim, and no reaper, touches a row under a live lease. */
  lemma LiveLeaseIsLeftAlone<R>(max: nat, w: World<R>, offered: set<Id>, hold: nat, id: Id)
    requires Inv(max, w) && id in w.rows && w.rows[id].lockedUntil.Some? && w.now < w.rows[id].lockedUntil.value
    ensures var w' := Step(max, w, Claim(offered, hold));
            id in w'.rows && w'.rows[id] == w.rows[id] && (w.nextToken, id) !in w'.jobs
  {
    forall k <- w.jobs ensures k.0 != w.nextToken { assert JobInv(w, k); }
  }

  /** Nor one whose time has not come, while it has attempts left. */
  lemma NotYetDueIsLeftAlone<R>(max: nat, w: World<R>, offered: set<Id>, hold: nat, id: Id)
    requires Inv(max, w) && id in w.rows && w.now < w.rows[id].scheduledAt && w.rows[id].attempts < max
    ensures var w' := Step(max, w, Claim(offered, hold));
            id in w'.rows && w'.rows[id] == w.rows[id] && (w.nextToken, id) !in w'.jobs
  {
    forall k <- w.jobs ensures k.0 != w.nextToken { assert JobInv(w, k); }
  }

  /** What a claim makes of every row: a dead letter, a leased row with one attempt more, or what it was. */
  lemma ClaimWrites<R>(max: nat, w: World<R>, offered: set<Id>, hold: nat, id: Id)
    requires Inv(max, w) && id in w.rows
    ensures var w', row := Step(max, w, Claim(offered, hold)), w.rows[id];
            var free := row.lockedUntil.None? || row.lockedUntil.value <= w.now;
            var taken := row.status == Pending && free && row.attempts < max && row.scheduledAt <= w.now && id in offered;
            && id in w'.rows
            && w'.rows[id] ==
               (if row.status == Pending && free && max <= row.attempts
                then Row(Failed, row.attempts, row.scheduledAt, None, None)
                else if taken
                then Row(Pending, row.attempts + 1, row.scheduledAt, Some(w.nextToken), Some(w.now + hold))
                else row)
            && ((w.nextToken, id) in w'.jobs <==> taken)
            && (taken ==> w'.jobs[(w.nextToken, id)] == Job(row.attempts + 1, Waiting))
  {
    forall k <- w.jobs ensures k.0 != w.nextToken { assert JobInv(w, k); }
  }

  /** … and of the rest: no other job begins or ends, and the next claim has another token. */
  lemma ClaimTouchesNothingElse<R>(max: nat, w: World<R>, offered: set<Id>, hold: nat)
    requires Inv(max, w)
    ensures var w' := Step(max, w, Claim(offered, hold));
            && w'.rows.Keys == w.rows.Keys && w'.now == w.now && w'.nextToken == w.nextToken + 1
            && (forall k <- w.jobs :: k in w'.jobs && w'.jobs[k] == w.jobs[k])
            && (forall k <- w'.jobs :: k in w.jobs || (k.0 == w.nextToken && k.1 in offered && k.1 in w.rows))
  {
    forall k <- w.jobs ensures k.0 != w.nextToken { assert JobInv(w, k); }
  }

  // ── Renewal, answers and crashes ───────────────────────────────────────────

  /** The holder's lease is moved to the new end and its call starts; anyone else only drops the row. */
  lemma RenewWrites<R>(max: nat, w: World<R>, token: Token, id: Id, lease: nat)
    requires Inv(max, w) && (token, id) in w.jobs && w.jobs[(token, id)].phase.Waiting?
    ensures var w', job := Step(max, w, Renew(token, id, lease)), w.jobs[(token, id)];
            if w.rows[id].leaseToken == Some(token) then
              && w'.rows == w.rows[id := w.rows[id].(lockedUntil := Some(w.now + lease))]
              && w'.jobs == w.jobs[(token, id) := Job(job.attempts, Calling)]
            else w'.rows == w.rows && w'.jobs == w.jobs - {(token, id)}
    ensures Step(max, w, Renew(token, id, lease)).now == w.now
  {
    assert JobInv(w, (token, id));
  }

  lemma ReturnWrites<R>(max: nat, w: World<R>, token: Token, id: Id, outcome: Outcome<R>)
    requires (token, id) in w.jobs && w.jobs[(token, id)].phase.Calling?
    ensures var w' := Step(max, w, Return(token, id, outcome));
            && w' == w.(jobs := w'.jobs)
            && w'.jobs == w.jobs[(token, id) := Job(w.jobs[(token, id)].attempts, Returned(outcome))]
  {}

  /** A finish transaction that fails writes nothing: a success is then to be recorded as a retry, and a failure is dropped. */
  lemma ThrowWrites<R>(max: nat, w: World<R>, token: Token, id: Id)
    requires (token, id) in w.jobs && w.jobs[(token, id)].phase.Returned?
    ensures var w', job := Step(max, w, FinishThrows(token, id)), w.jobs[(token, id)];
            && w' == w.(jobs := w'.jobs)
            && w'.jobs == if job.phase.outcome.Succeeded? then w.jobs[(token, id) := Job(job.attempts, Returned(Retryable))]
                          else w.jobs - {(token, id)}
  {}

  /** Events of a worker that is not at that point of its row do nothing. */
  lemma OutOfTurnDoesNothing<R>(max: nat, w: World<R>, e: Event<R>)
    requires e.Renew? || e.Return? || e.Finish? || e.FinishThrows?
    requires var k := (e.token, e.id);
             k in w.jobs ==>
               && (e.Renew? ==> !w.jobs[k].phase.Waiting?)
               && (e.Return? ==> !w.jobs[k].phase.Calling?)
               && (e.Finish? || e.FinishThrows? ==> !w.jobs[k].phase.Returned?)
    ensures Step(max, w, e) == w
  {}

  lemma OtherEventsWrite<R>(max: nat, w: World<R>, id: Id, dueAt: int, ms: nat, lost: set<(Token, Id)>)
    requires Inv(max, w)
    ensures Step(max, w, Advance(ms)) == w.(now := w.now + ms)
    ensures Step(max, w, Crash(lost)) == w.(jobs := w.jobs - lost)
    ensures id in w.rows ==> Step(max, w, Enqueue(id, dueAt)) == w
    ensures id !in w.rows ==>
              var w' := Step(max, w, Enqueue(id, dueAt));
              && w'.rows == w.rows[id := Row(Pending, 0, dueAt, None, None)] && w'.jobs == w.jobs && w'.now == w.now
              && w'.nextToken == w.nextToken && id in w'.hist && w'.hist[id] == Hist(0, 0, 0, {})
  {}

  // ── The finish ─────────────────────────────────────────────────────────────

  /** The longer of the hint, kept between 0 and an hour, and 30 seconds doubled per earlier attempt up to half an hour. */
  ghost predicate RetryDelay<R>(outcome: Outcome<R>, attempts: nat, delay: int)
    requires attempts >= 1
  {
    var doubled := 30_000 * OutboxTheorems.Pow2(attempts - 1);
    var backoff := if doubled < 1_800_000 then doubled else 1_800_000;
    var hint := if outcome.RetryAfter? && outcome.hint.Some? then outcome.hint.value else 0;
    var kept := if hint < 0 then 0 else if hint > 3_600_000 then 3_600_000 else hint;
    delay == if kept > backoff then kept else backoff
  }

  lemma RetryIsDueAfter<R>(max: nat, w: World<R>, token: Token, id: Id, delay: int)
    requires Inv(max, w) && Commits(w, token, id) && w.rows[id].attempts < max
    requires var outcome := w.jobs[(token, id)].phase.outcome; outcome.Retryable? || outcome.RetryAfter?
    requires w.rows[id].attempts >= 1 && RetryDelay(w.jobs[(token, id)].phase.outcome, w.rows[id].attempts, delay)
    ensures Step(max, w, Finish(token, id)).rows[id] == Row(Pending, w.rows[id].attempts, w.now + delay, None, None)
  {
    assert JobInv(w, (token, id));
    assert RowInv(max, w, id);
    OutboxTheorems.BackoffDoublesToTheCap(w.rows[id].attempts);
  }

  /** A row whose finish can commit has been claimed, so its attempt number is at least one. */
  lemma CommittingRowIsClaimed<R>(max: nat, w: World<R>, token: Token, id: Id)
    requires Inv(max, w) && Commits(w, token, id)
    ensures w.rows[id].status.Pending? && 1 <= w.rows[id].attempts <= max
  {
    assert RowInv(max, w, id);
  }

  /** Every other committed outcome: success, refusal, the last attempt, and a deferral of up to an hour, or five minutes. */
  lemma FinishWrites<R>(max: nat, w: World<R>, token: Token, id: Id)
    requires Inv(max, w) && Commits(w, token, id)
    ensures var outcome, row, row' := w.jobs[(token, id)].phase.outcome, w.rows[id], Step(max, w, Finish(token, id)).rows[id];
            && (outcome.Succeeded? ==> row' == Row(Sent, row.attempts, row.scheduledAt, None, None))
            && (outcome.NonRetryable? ==> row' == Row(Failed, row.attempts, row.scheduledAt, None, None))
            && ((outcome.Retryable? || outcome.RetryAfter?) && row.attempts >= max ==>
                  row' == Row(Failed, row.attempts, row.scheduledAt, None, None))
            && (outcome.Deferred? && outcome.delay.None? ==>
                  row' == Row(Pending, row.attempts - 1, w.now + 300_000, None, None))
            && (outcome.Deferred? && outcome.delay.Some? ==>
                  var d := outcome.delay.value;
                  row' == Row(Pending, row.attempts - 1,
                              w.now + (if d < 0 then 0 else if d > 3_600_000 then 3_600_000 else d), None, None))
  {
    assert JobInv(w, (token, id));
    assert RowInv(max, w, id);
  }

  /** A finish ends its own job, touches its own row, and without the lease not even that. */
  lemma FinishTouchesNothingElse<R>(max: nat, w: World<R>, token: Token, id: Id)
    requires Inv(max, w) && (token, id) in w.jobs && w.jobs[(token, id)].phase.Returned?
    ensures var w' := Step(max, w, Finish(token, id));
            && w'.now == w.now && w'.nextToken == w.nextToken && w'.jobs == w.jobs - {(token, id)}
            && id in w.rows && id in w'.rows
            && w'.rows == if w.rows[id].leaseToken == Some(token) then w.rows[id := w'.rows[id]] else w.rows
  {
    assert JobInv(w, (token, id));
  }

  // ── For how long a lease keeps others away ─────────────────────────────────

  /** What the holder itself does to its row: renew or finish. */
  ghost predicate ActsOn<R>(e: Event<R>, token: Token, id: Id) {
    (e.Renew? || e.Finish?) && e.token == token && e.id == id
  }

  lemma HeldStep<R>(max: nat, w: World<R>, e: Event<R>, token: Token, id: Id, until: int)
    requires Inv(max, w) && HoldsLease(w.rows, id, token) && w.rows[id].lockedUntil == Some(until) && w.now < until
    requires !ActsOn(e, token, id)
    ensures var w' := Step(max, w, e); id in w'.rows && w'.rows[id] == w.rows[id] && w.now <= w'.now
  {
    if e.Claim? { LiveLeaseIsLeftAlone(max, w, e.offered, e.hold, id); }
  }

  lemma {:induction false} ClockNeverFalls<R>(max: nat, w: World<R>, es: seq<Event<R>>)
    ensures w.now <= Run(max, w, es).now
    decreases |es|
  {
    if es != [] {
      assert w.now <= Step(max, w, es[0]).now;
      ClockNeverFalls(max, Step(max, w, es[0]), es[1..]);
    }
  }

  /**
   * Over any run that ends before the stored end of the lease, and in which the holder neither renews nor finishes, the row
   * stays exactly as it is: no claim, reaper or other worker's event touches it.
   */
  lemma {:induction false} LeaseExcludesOthers<R>(
    max: nat, w: World<R>, es: seq<Event<R>>, token: Token, id: Id, until: int)
    requires Inv(max, w) && HoldsLease(w.rows, id, token) && w.rows[id].lockedUntil == Some(until)
    requires Run(max, w, es).now < until && forall e <- es :: !ActsOn(e, token, id)
    ensures var w' := Run(max, w, es); id in w'.rows && w'.rows[id] == w.rows[id]
    decreases |es|
  {
    ClockNeverFalls(max, w, es);
    if es != [] {
      assert es[0] in es && forall e <- es[1..] :: e in es;
      HeldStep(max, w, es[0], token, id, until);
      StepKeepsInv(max, w, es[0]);
      LeaseExcludesOthers(max, Step(max, w, es[0]), es[1..], token, id, until);
    }
  }

  /** The row is taken by a claim with a hold, or its lease renewed by the holder that waits to call, until this time. */
  ghost predicate Takes<R>(max: nat, w: World<R>, act: Event<R>, token: Token, id: Id, until: int) {
    || (act.Claim? && token == w.nextToken && HoldsLease(Step(max, w, act).rows, id, token) && until == w.now + act.hold)
    || (act.Renew? && act.token == token && act.id == id && HoldsLease(w.rows, id, token)
        && (token, id) in w.jobs && w.jobs[(token, id)].phase.Waiting? && until == w.now + act.lease)
  }

  lemma TakenIsHeld<R>(max: nat, w: World<R>, act: Event<R>, token: Token, id: Id, until: int)
    requires Inv(max, w) && Takes(max, w, act, token, id, until)
    ensures var w' := Step(max, w, act); HoldsLease(w'.rows, id, token) && w'.rows[id].lockedUntil == Some(until)
  {
    if act.Claim? { assert RowInv(max, w, id); } else { RenewWrites(max, w, token, id, act.lease); }
  }

  /** So such a row is its worker's alone until the clock has passed that end. */
  lemma NobodyElseUntil<R>(max: nat, w: World<R>, act: Event<R>, es: seq<Event<R>>, token: Token, id: Id, until: int)
    requires Inv(max, w) && Takes(max, w, act, token, id, until)
    requires Run(max, Step(max, w, act), es).now < until && forall e <- es :: !ActsOn(e, token, id)
    ensures var w' := Run(max, Step(max, w, act), es); HoldsLease(w'.rows, id, token) && w'.rows[id].lockedUntil == Some(until)
  {
    StepKeepsInv(max, w, act);
    TakenIsHeld(max, w, act, token, id, until);
    LeaseExcludesOthers(max, Step(max, w, act), es, token, id, until);
  }
}
