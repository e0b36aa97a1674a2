/**
 * The daily retention sweep (apps/worker/src/cron/cleanup.cron.ts): which rows each table may lose, the batched purge
 * with its pass cap, deadline and per-table failures, and the count-only dry run. NOW() is one instant per sweep.
 */
module Retention {
  import opened Wrappers

  type Time = int
  type Id = nat

  const Day: Time := 86_400
  const SweepLimit: nat := 5_000
  const MaxPasses: nat := 20

  datatype Table = EmailOutbox | NotificationOutbox | GuestInviteOutbox | InApp | ApiTokens | Sessions | BackfillJobs

  const AllTables := {EmailOutbox, NotificationOutbox, GuestInviteOutbox, InApp, ApiTokens, Sessions, BackfillJobs}

  datatype Status = Pending | Processing | Sent | Failed | Bounced | Complained | Done

  /** A row as far as a sweep reads it. `endedAt` is the nullable column of the row's table that says when it ended. */
  datatype Row =
    | Message(status: Status, endedAt: Option<Time>, createdAt: Time)
    | Notice(isRead: bool, readAt: Option<Time>, createdAt: Time)
    | Credential(expiresAt: Time, revokedAt: Option<Time>)

  // ── Eligibility, with SQL's NULL ───────────────────────────────────────────

  function Coalesce(a: Option<Time>, b: Time): Time {
    if a.Some? then a.value else b
  }

  /** `t < NOW() - n days`; the comparison with NULL is not true. */
  predicate OlderThan(t: Option<Time>, days: nat, now: Time) {
    t.Some? && t.value < now - days * Day
  }

  predicate Eligible(table: Table, row: Row, now: Time) {
    match (table, row)
    case (EmailOutbox, Message(status, endedAt, createdAt)) =>
      || (status.Sent? && OlderThan(Some(Coalesce(endedAt, createdAt)), 30, now))
      || (status.Failed? && OlderThan(Some(createdAt), 90, now))
    case (NotificationOutbox, Message(status, endedAt, createdAt)) =>
      (status.Sent? || status.Failed?) && OlderThan(Some(Coalesce(endedAt, createdAt)), 30, now)
    case (GuestInviteOutbox, Message(status, endedAt, createdAt)) =>
      || (status.Sent? && OlderThan(Some(Coalesce(endedAt, createdAt)), 30, now))
      || (status.Failed? && OlderThan(Some(createdAt), 180, now))
    case (InApp, Notice(isRead, readAt, createdAt)) =>
      || (isRead && OlderThan(Some(Coalesce(readAt, createdAt)), 90, now))
      || OlderThan(Some(createdAt), 365, now)
    case (ApiTokens, Credential(expiresAt, revokedAt)) => OlderThan(Some(expiresAt), 7, now) || OlderThan(revokedAt, 7, now)
    case (Sessions, Credential(expiresAt, _)) => OlderThan(Some(expiresAt), 7, now)
    case (BackfillJobs, Message(status, endedAt, createdAt)) =>
      (status.Done? || status.Failed?) && OlderThan(Some(Coalesce(endedAt, createdAt)), 90, now)
    case _ => false
  }

  type Rows = map<Id, Row>

  function EligibleIds(table: Table, rows: Rows, now: Time): set<Id> {
    set id <- rows | Eligible(table, rows[id], now)
  }

  /** Waiting does not save a row, and nothing waiting to be worked on, nor a bounce, is ever taken. */
  lemma EligibleFromThenOn(table: Table, row: Row, now: Time, later: Time)
    requires Eligible(table, row, now) && now <= later
    ensures Eligible(table, row, later)
    ensures row.Message? ==> row.status in {Sent, Failed, Done}
  {}

  /** When a row ended, or was made if that was not recorded. */
  ghost predicate EndedBefore(row: Row, limit: Time)
    requires row.Message?
  {
    if row.endedAt == None then row.createdAt < limit else row.endedAt.value < limit
  }

  /** Each table's own rule, in seconds: 30, 90, 180 and 365 days, and a week's grace for credentials. */
  lemma MessageRules(row: Row, now: Time)
    requires row.Message?
    ensures Eligible(EmailOutbox, row, now) <==>
              || (row.status == Sent && EndedBefore(row, now - 2_592_000))
              || (row.status == Failed && row.createdAt < now - 7_776_000)
    ensures Eligible(NotificationOutbox, row, now) <==>
              (row.status == Sent || row.status == Failed) && EndedBefore(row, now - 2_592_000)
    ensures Eligible(GuestInviteOutbox, row, now) <==>
              || (row.status == Sent && EndedBefore(row, now - 2_592_000))
              || (row.status == Failed && row.createdAt < now - 15_552_000)
    ensures Eligible(BackfillJobs, row, now) <==>
              (row.status == Done || row.status == Failed) && EndedBefore(row, now - 7_776_000)
    ensures !Eligible(InApp, row, now) && !Eligible(ApiTokens, row, now) && !Eligible(Sessions, row, now)
  {}

  lemma OtherRules(row: Row, now: Time)
    requires !row.Message?
    ensures Eligible(InApp, row, now) <==>
              && row.Notice?
              && ((row.isRead && (if row.readAt == None then row.createdAt else row.readAt.value) < now - 7_776_000)
                  || row.createdAt < now - 31_536_000)
    ensures Eligible(ApiTokens, row, now) <==>
              row.Credential? && (row.expiresAt < now - 604_800 || (row.revokedAt.Some? && row.revokedAt.value < now - 604_800))
    ensures Eligible(Sessions, row, now) <==> row.Credential? && row.expiresAt < now - 604_800
    ensures forall t <- {EmailOutbox, NotificationOutbox, GuestInviteOutbox, BackfillJobs} :: !Eligible(t, row, now)
  {}

  // ── What a purge may do ────────────────────────────────────────────────────

  function Min(a: nat, b: nat): nat {
    if a <= b then a else b
  }

  /** Of the eligible rows these went: as many as there are, up to the quota. */
  ghost predicate Took(eligible: set<Id>, gone: set<Id>, quota: nat) {
    gone <= eligible && |gone| == Min(quota, |eligible|)
  }

  /** Exactly `Min(quota, eligible)` rows went, all of them eligible, and every other row is as it was. */
  ghost predicate Purged(table: Table, rows: Rows, rows': Rows, now: Time, quota: nat) {
    var gone := rows.Keys - rows'.Keys;
    rows' == rows - gone && Took(EligibleIds(table, rows, now), gone, quota)
  }

  /** What was not taken is as eligible as it was. */
  lemma EligibleAfter(table: Table, rows: Rows, gone: set<Id>, now: Time)
    ensures EligibleIds(table, rows - gone, now) == EligibleIds(table, rows, now) - gone
  {}

  lemma DisjointSizes(first: set<Id>, second: set<Id>)
    requires first !! second
    ensures |first + second| == |first| + |second|
  {}

  lemma SizeWithout(all: set<Id>, gone: set<Id>)
    requires gone <= all
    ensures |all - gone| == |all| - |gone|
  {}

  lemma TakesCompose(eligible: set<Id>, first: set<Id>, second: set<Id>, k: nat, m: nat)
    requires Took(eligible, first, k) && Took(eligible - first, second, m)
    ensures Took(eligible, first + second, k + m)
    ensures |eligible - first| == |eligible| - Min(k, |eligible|)
  {
    SizeWithout(eligible, first);
    DisjointSizes(first, second);
  }

  lemma GoneInTwo(rows: Rows, first: set<Id>, second: set<Id>)
    ensures (rows - first) - second == rows - (first + second)
  {}

  lemma GoneIs(rows: Rows, gone: set<Id>)
    requires gone <= rows.Keys
    ensures rows.Keys - (rows - gone).Keys == gone
  {}

  lemma PurgedBy(table: Table, rows: Rows, gone: set<Id>, now: Time, quota: nat)
    requires Took(EligibleIds(table, rows, now), gone, quota)
    ensures Purged(table, rows, rows - gone, now, quota)
  {
    GoneIs(rows, gone);
  }

  /** Stopping early is a clean partial sweep: two purges in a row are one with the sum of their quotas. */
  lemma PurgesCompose(table: Table, a: Rows, b: Rows, c: Rows, now: Time, k: nat, m: nat)
    requires Purged(table, a, b, now, k) && Purged(table, b, c, now, m)
    ensures Purged(table, a, c, now, k + m)
  {
    var first, second := a.Keys - b.Keys, b.Keys - c.Keys;
    EligibleAfter(table, a, first, now);
    TakesCompose(EligibleIds(table, a, now), first, second, k, m);
    GoneInTwo(a, first, second);
    PurgedBy(table, a, first + second, now, k + m);
  }

  // ── The weather of one purge ───────────────────────────────────────────────

  /** What the clock reads before each pass, and the passes whose statement throws. */
  datatype Readings = Readings(clock: seq<Time>, throws: set<nat>)

  type Weather = w: Readings | |w.clock| == MaxPasses witness Readings(seq(MaxPasses, _ => 0), {})

  predicate Stops(w: Weather, deadline: Time, pass: nat) {
    pass >= MaxPasses || w.clock[pass] >= deadline || pass in w.throws
  }

  /** How many passes complete from `pass` on, when `n` rows are eligible then. */
  function Completed(w: Weather, deadline: Time, n: nat, pass: nat): nat
    decreases MaxPasses - pass
  {
    if Stops(w, deadline, pass) then 0
    else if n < SweepLimit then 1
    else 1 + Completed(w, deadline, n - SweepLimit, pass + 1)
  }

  /** Does a pass throw before the purge ends otherwise? */
  predicate Throws(w: Weather, deadline: Time, n: nat, pass: nat)
    decreases MaxPasses - pass
  {
    if pass >= MaxPasses || w.clock[pass] >= deadline then false
    else if pass in w.throws then true
    else n >= SweepLimit && Throws(w, deadline, n - SweepLimit, pass + 1)
  }

  lemma {:induction false} UndisturbedFrom(w: Weather, deadline: Time, n: nat, pass: nat)
    requires pass <= MaxPasses
    requires forall p: nat :: pass <= p < MaxPasses ==> !Stops(w, deadline, p)
    ensures Min(SweepLimit * Completed(w, deadline, n, pass), n) == Min(SweepLimit * (MaxPasses - pass), n)
    ensures !Throws(w, deadline, n, pass)
    decreases MaxPasses - pass
  {
    if pass < MaxPasses {
      assert !Stops(w, deadline, pass);
      if n >= SweepLimit { UndisturbedFrom(w, deadline, n - SweepLimit, pass + 1); }
    }
  }

  /** With the deadline out of reach and no statement failing, a purge takes min(eligible, 20 × 5000) rows. */
  lemma UndisturbedPurge(table: Table, rows: Rows, rows': Rows, now: Time, w: Weather, deadline: Time, failed: bool)
    requires Outcome(table, rows, rows', now, w, deadline, failed)
    requires forall p: nat :: p < MaxPasses ==> !Stops(w, deadline, p)
    ensures Purged(table, rows, rows', now, 100_000) && !failed
  {
    UndisturbedFrom(w, deadline, |EligibleIds(table, rows, now)|, 0);
  }

  /** However it was disturbed, the passes that completed took all they could, and no purge takes more than the cap. */
  lemma {:induction false} CompletedIsBounded(w: Weather, deadline: Time, n: nat, pass: nat)
    requires pass <= MaxPasses
    ensures Completed(w, deadline, n, pass) <= MaxPasses - pass
    ensures Throws(w, deadline, n, pass) ==> n >= SweepLimit * Completed(w, deadline, n, pass)
    decreases MaxPasses - pass
  {
    if !Stops(w, deadline, pass) && n >= SweepLimit { CompletedIsBounded(w, deadline, n - SweepLimit, pass + 1); }
  }

  // ── The sweep ──────────────────────────────────────────────────────────────

  type Database = map<Table, Rows>

  ghost predicate HasAllTables(db: Database) {
    forall t: Table :: t in db
  }

  function CountEligible(table: Table, db: Database, now: Time): nat
    requires table in db
  {
    |EligibleIds(table, db[table], now)|
  }

  /** `SELECT id … LIMIT n`, which rows being the plan's choice. */
  method SelectIds(found: set<Id>, limit: nat) returns (batch: set<Id>)
    ensures Took(found, batch, limit)
  {
    batch := {};
    while |batch| < limit && batch < found
      invariant batch <= found && |batch| <= limit
      decreases found - batch
    {
      var id :| id in found && id !in batch;
      batch := batch + {id};
    }
    assert |batch| < limit ==> batch == found;
    BatchSize(batch, found);
  }

  /** One statement: `DELETE … WHERE id IN (SELECT id … LIMIT n)`, and how many rows it took. */
  method DeleteBatch(table: Table, rows: Rows, now: Time, limit: nat) returns (rows': Rows, deleted: nat, ghost batch: set<Id>)
    ensures Purged(table, rows, rows', now, limit) && deleted == Min(limit, |EligibleIds(table, rows, now)|)
    ensures rows' == rows - batch && Took(EligibleIds(table, rows, now), batch, limit)
  {
    var ids := SelectIds(EligibleIds(table, rows, now), limit);
    PurgedBy(table, rows, ids, now, limit);
    rows', deleted, batch := rows - ids, |ids|, ids;
  }

  ghost predicate RanAll(w: Weather, deadline: Time, passes: nat) {
    forall p: nat | p < passes :: !Stops(w, deadline, p)
  }

  lemma RanOneMore(w: Weather, deadline: Time, passes: nat)
    requires RanAll(w, deadline, passes) && !Stops(w, deadline, passes)
    ensures RanAll(w, deadline, passes + 1)
  {}

  /** How a purge of `n` rows ended: after `passes` passes, the last one short, or stopped before the next. */
  ghost predicate Ended(w: Weather, deadline: Time, n: nat, passes: nat, short: bool, failed: bool) {
    && passes <= MaxPasses && RanAll(w, deadline, passes)
    && if short then passes > 0 && SweepLimit * passes - SweepLimit <= n < SweepLimit * passes && !failed
       else n >= SweepLimit * passes && Stops(w, deadline, passes)
            && failed == (passes < MaxPasses && w.clock[passes] < deadline)
  }

  lemma {:induction false} EndedAsPredicted(
    w: Weather, deadline: Time, n: nat, passes: nat, short: bool, failed: bool, pass: nat, left: nat)
    requires Ended(w, deadline, n, passes, short, failed) && pass <= passes && (short ==> pass < passes)
    requires n == left + SweepLimit * pass
    ensures Completed(w, deadline, left, pass) == passes - pass
    ensures Throws(w, deadline, left, pass) == failed
    decreases passes - pass
  {
    if pass < passes && left >= SweepLimit {
      EndedAsPredicted(w, deadline, n, passes, short, failed, pass + 1, left - SweepLimit);
    }
  }

  /** One pass of a purge that has taken `gone` so far. */
  method RunPass(table: Table, ghost rows: Rows, ghost gone: set<Id>, rows1: Rows, now: Time, ghost quota: nat)
    returns (rows2: Rows, deleted: nat, ghost gone2: set<Id>)
    requires rows1 == rows - gone && Took(EligibleIds(table, rows, now), gone, quota)
    requires |EligibleIds(table, rows, now)| >= quota
    ensures rows2 == rows - gone2 && Took(EligibleIds(table, rows, now), gone2, quota + SweepLimit)
    ensures deleted == Min(SweepLimit, |EligibleIds(table, rows, now)| - quota)
  {
    ghost var batch;
    rows2, deleted, batch := DeleteBatch(table, rows1, now, SweepLimit);
    EligibleAfter(table, rows, gone, now);
    TakesCompose(EligibleIds(table, rows, now), gone, batch, quota, SweepLimit);
    GoneInTwo(rows, gone, batch);
    gone2 := gone + batch;
  }

  /** What a purge did, from its weather alone. */
  ghost predicate Outcome(table: Table, rows: Rows, rows': Rows, now: Time, w: Weather, deadline: Time, failed: bool) {
    var n := |EligibleIds(table, rows, now)|;
    Purged(table, rows, rows', now, SweepLimit * Completed(w, deadline, n, 0)) && failed == Throws(w, deadline, n, 0)
  }

  /** The passes of purgeBatched: until one comes back short, the cap, the deadline or a failure. */
  method RunPasses(table: Table, rows: Rows, now: Time, w: Weather, deadline: Time)
    returns (rows': Rows, passes: nat, short: bool, failed: bool)
    ensures Purged(table, rows, rows', now, SweepLimit * passes)
    ensures Ended(w, deadline, |EligibleIds(table, rows, now)|, passes, short, failed)
  {
    rows', passes, short, failed := rows, 0, false, false;
    ghost var gone: set<Id>, quota: nat := {}, 0;
    while passes < MaxPasses
      invariant !short && !failed
      invariant passes <= MaxPasses && |EligibleIds(table, rows, now)| >= quota == SweepLimit * passes
      invariant RanAll(w, deadline, passes)
      invariant rows' == rows - gone && Took(EligibleIds(table, rows, now), gone, quota)
    {
      if w.clock[passes] >= deadline { break; }
      if passes in w.throws {
        failed := true;
        break;
      }
      var deleted;
      rows', deleted, gone := RunPass(table, rows, gone, rows', now, quota);
      RanOneMore(w, deadline, passes);
      passes, quota := passes + 1, quota + SweepLimit;
      if deleted < SweepLimit {
        short := true;
        break;
      }
    }
    PurgedBy(table, rows, gone, now, quota);
  }

  ghost predicate Fails(table: Table, rows: Rows, now: Time, w: Weather, deadline: Time) {
    Throws(w, deadline, |EligibleIds(table, rows, now)|, 0)
  }

  method PurgeRows(table: Table, rows: Rows, now: Time, w: Weather, deadline: Time) returns (rows': Rows, failed: bool)
    ensures Outcome(table, rows, rows', now, w, deadline, failed) && failed == Fails(table, rows, now, w, deadline)
  {
    var passes, short;
    rows', passes, short, failed := RunPasses(table, rows, now, w, deadline);
    ghost var n := |EligibleIds(table, rows, now)|;
    EndedAsPredicted(w, deadline, n, passes, short, failed, 0, n);
  }

  /** What the sweep of one table did: its purge, and whether it ended in a failure. */
  ghost predicate Swept(
    t: Table, before: Database, after: Database, failedBefore: bool, failedAfter: bool, deadline: Time, now: Time, w: Weather)
    requires HasAllTables(before) && HasAllTables(after)
  {
    var failed := Fails(t, before[t], now, w, deadline);
    Outcome(t, before[t], after[t], now, w, deadline, failed) && (failedAfter <==> failedBefore || failed)
  }

  /** No other table lost a row or is marked. */
  ghost predicate OnlyTable(table: Table, before: Database, after: Database, failedBefore: set<Table>, failedAfter: set<Table>)
    requires HasAllTables(before) && HasAllTables(after)
  {
    forall t: Table :: t != table ==> after[t] == before[t] && (t in failedAfter <==> t in failedBefore)
  }

  lemma TableReplaced(
    table: Table, before: Database, after: Database, failedBefore: set<Table>, failedAfter: set<Table>, failed: bool,
    deadline: Time, now: Time, w: Weather)
    requires HasAllTables(before) && table in after && after == before[table := after[table]]
    requires Outcome(table, before[table], after[table], now, w, deadline, failed)
    requires failed == Fails(table, before[table], now, w, deadline)
    requires failedAfter == if failed then failedBefore + {table} else failedBefore
    ensures HasAllTables(after) && OnlyTable(table, before, after, failedBefore, failedAfter)
    ensures Swept(table, before, after, table in failedBefore, table in failedAfter, deadline, now, w)
  {}

  ghost predicate SweptSoFar(
    swept: set<Table>, before: Database, after: Database, failedBefore: set<Table>, failedAfter: set<Table>,
    deadline: Time, now: Time, weather: Table -> Weather)
    requires HasAllTables(before) && HasAllTables(after)
  {
    forall t: Table ::
      if t in swept then Swept(t, before, after, t in failedBefore, t in failedAfter, deadline, now, weather(t))
      else after[t] == before[t] && (t in failedAfter <==> t in failedBefore)
  }

  lemma NextTable(
    swept: set<Table>, t: Table, db0: Database, db1: Database, db2: Database, failed0: set<Table>, failed1: set<Table>,
    failed2: set<Table>, deadline: Time, now: Time, weather: Table -> Weather)
    requires HasAllTables(db0) && HasAllTables(db1) && HasAllTables(db2) && t !in swept
    requires SweptSoFar(swept, db0, db1, failed0, failed1, deadline, now, weather)
    requires Swept(t, db1, db2, t in failed1, t in failed2, deadline, now, weather(t))
    requires OnlyTable(t, db1, db2, failed1, failed2)
    ensures SweptSoFar(swept + {t}, db0, db2, failed0, failed2, deadline, now, weather)
  {}

  class Sweeper {
    var db: Database
    var deadline: Time
    var failedTables: set<Table>

    constructor (db: Database, deadline: Time)
      ensures this.db == db && this.deadline == deadline && failedTables == {}
    {
      this.db, this.deadline, failedTables := db, deadline, {};
    }

    /** purgeBatched: a failure stays this table's own. */
    method PurgeBatched(table: Table, now: Time, w: Weather)
      requires HasAllTables(db)
      modifies this`db, this`failedTables
      ensures HasAllTables(db)
      ensures OnlyTable(table, old(db), db, old(failedTables), failedTables)
      ensures Swept(table, old(db), db, table in old(failedTables), table in failedTables, deadline, now, w)
    {
      var rows, failed := PurgeRows(table, db[table], now, w, deadline);
      db := db[table := rows];
      if failed { failedTables := failedTables + {table}; }
      TableReplaced(table, old(db), db, old(failedTables), failedTables, failed, deadline, now, w);
    }

    /** The new tables' sweep: every table gets its purge, whatever happened to the ones before it. */
    method Sweep(now: Time, weather: Table -> Weather)
      requires HasAllTables(db)
      modifies this`db, this`failedTables
      ensures HasAllTables(db)
      ensures forall t: Table :: Swept(t, old(db), db, t in old(failedTables), t in failedTables, deadline, now, weather(t))
    {
      var todo, swept: set<Table> := AllTables, {};
      EveryTable();
      while todo != {}
        invariant HasAllTables(db) && forall t: Table :: t in todo <==> t !in swept
        invariant SweptSoFar(swept, old(db), db, old(failedTables), failedTables, deadline, now, weather)
        decreases todo
      {
        var t :| t in todo;
        ghost var db1, failed1 := db, failedTables;
        PurgeBatched(t, now, weather(t));
        NextTable(swept, t, old(db), db1, db, old(failedTables), failed1, failedTables, deadline, now, weather);
        todo, swept := todo - {t}, swept + {t};
      }
    }

    /** reportNewSweep: counts, and no writes. */
    method ReportNewSweep(now: Time) returns (counts: map<Table, nat>)
      requires HasAllTables(db)
      ensures forall t: Table :: t in counts && counts[t] == CountEligible(t, db, now)
    {
      counts := map[];
      var todo := AllTables;
      EveryTable();
      while todo != {}
        invariant forall t: Table :: t !in todo ==> t in counts && counts[t] == CountEligible(t, db, now)
        decreases todo
      {
        var t :| t in todo;
        counts := counts[t := |EligibleIds(t, db[t], now)|];
        todo := todo - {t};
      }
    }
  }

  lemma BatchSize(batch: set<Id>, found: set<Id>)
    requires batch <= found
    ensures |batch| <= |found|
  {
    assert found == batch + (found - batch);
  }

  lemma EveryTable()
    ensures forall t: Table :: t in AllTables
  {
    forall t: Table ensures t in AllTables {
      match t
      case EmailOutbox =>
      case NotificationOutbox =>
      case GuestInviteOutbox =>
      case InApp =>
      case ApiTokens =>
      case Sessions =>
      case BackfillJobs =>
    }
  }
}
