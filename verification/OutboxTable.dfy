/**
 * The database steps of AbstractOutboxRelay as they run: each method is the body of one short transaction, proved to
 * leave the table exactly as the protocol's functions say.
 */
module OutboxTables {
  import opened Wrappers
  import opened OutboxLease

  class OutboxTable {
    const maxAttempts: nat
    var rows: Table

    constructor (maxAttempts: nat)
      ensures this.maxAttempts == maxAttempts && rows == map[]
    {
      this.maxAttempts := maxAttempts;
      rows := map[];
    }

    /** Dead-letter what was abandoned mid-call; how many rows that was. */
    method Reap(now: int) returns (reaped: nat)
      modifies this
      ensures rows == ReapAbandoned(old(rows), maxAttempts, now)
      ensures reaped == |set id | id in old(rows) && Abandoned(old(rows)[id], maxAttempts, now)|
    {
      var abandoned := set id | id in rows && Abandoned(rows[id], maxAttempts, now);
      reaped := |abandoned|;
      rows := map id | id in rows :: if id in abandoned then OutboxLease.Reap(rows[id]) else rows[id];
    }

    /** One token per claim, an attempt spent on every row taken; the attempt numbers go to the worker. */
    method Stamp(ids: set<Id>, token: Token, until: int) returns (attempts: map<Id, nat>)
      requires ids <= rows.Keys
      modifies this
      ensures rows == StampLeases(old(rows), ids, token, until)
      ensures attempts == map id | id in ids :: old(rows)[id].attempts + 1
    {
      rows := StampLeases(rows, ids, token, until);
      attempts := map id | id in ids :: rows[id].attempts;
    }

    /** The claim transaction: reap, then take what is offered, due and not leased. */
    method Claim(now: int, offered: set<Id>, token: Token, hold: nat) returns (batch: map<Id, nat>)
      modifies this
      ensures var ids := set id | id in offered && id in old(rows) && Due(old(rows)[id], maxAttempts, now);
              && rows == StampLeases(ReapAbandoned(old(rows), maxAttempts, now), ids, token, now + hold)
              && batch == map id | id in ids :: old(rows)[id].attempts + 1
    {
      var _ := Reap(now);
      var due := set id | id in offered && id in rows && Due(rows[id], maxAttempts, now);
      assert due == set id | id in offered && id in old(rows) && Due(old(rows)[id], maxAttempts, now);
      batch := Stamp(due, token, now + hold);
    }

    /** Push the lease out right before delivering; false when it was lost. */
    method RenewLease(id: Id, token: Token, until: int) returns (held: bool)
      modifies this
      ensures held == HoldsLease(old(rows), id, token)
      ensures rows == if held then old(rows)[id := old(rows)[id].(lockedUntil := Some(until))] else old(rows)
    {
      held := HoldsLease(rows, id, token);
      if held { rows := rows[id := rows[id].(lockedUntil := Some(until))]; }
    }

    method MarkSent(id: Id)
      requires id in rows
      modifies this
      ensures rows == old(rows)[id := old(rows)[id].(status := Sent)]
    {
      rows := rows[id := rows[id].(status := Sent)];
    }

    method MarkFailed(id: Id, status: Status, dueAt: int)
      requires id in rows
      modifies this
      ensures rows == old(rows)[id := OutboxLease.MarkFailed(old(rows)[id], status, dueAt)]
    {
      var row := rows[id].(status := status);
      if status.Pending? { row := row.(scheduledAt := dueAt); }
      rows := rows[id := row];
    }

    method RefundAttempt(id: Id)
      requires id in rows
      modifies this
      ensures rows == old(rows)[id := old(rows)[id].(attempts := if old(rows)[id].attempts > 0 then old(rows)[id].attempts - 1 else 0)]
    {
      if rows[id].attempts > 0 {
        rows := rows[id := rows[id].(attempts := rows[id].attempts - 1)];
      } else {
        rows := rows[id := rows[id].(attempts := 0)];
      }
    }

    /** The fenced finish: re-check id and token, write the outcome, release. False (and no write) when the lease is lost. */
    method Finish<R>(id: Id, token: Token, outcome: Outcome<R>, attempts: nat, now: int) returns (committed: bool)
      modifies this
      ensures committed == HoldsLease(old(rows), id, token)
      ensures rows == if committed
                      then old(rows)[id := Finished(old(rows)[id], outcome, attempts, maxAttempts, now)]
                      else old(rows)
    {
      if !HoldsLease(rows, id, token) { return false; }
      match outcome {
        case Succeeded(_) =>
          MarkSent(id);
        case Deferred(delay) =>
          RefundAttempt(id);
          MarkFailed(id, Pending, now + DeferDelayMs(delay));
        case _ =>
          MarkFailed(id, FailureStatus(outcome, attempts, maxAttempts), now + FailureDelayMs(outcome, attempts));
      }
      rows := rows[id := rows[id].(leaseToken := None, lockedUntil := None)];
      return true;
    }
  }
}
