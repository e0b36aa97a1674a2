/**
 * The audit projection (apps/worker/src/audit/audit-projection.relay.ts): at-least-once delivery of domain events, made
 * idempotent by a unique source id, so that the audit log refines the outbox.
 */
module AuditProjection {
  import opened Wrappers
  import opened OutboxLease
  import opened OutboxShapes
  import OutboxTheorems

  datatype DomainEvent = DomainEvent(
    eventType: string, aggregateType: string, aggregateId: nat, workspaceId: nat,
    actorId: Option<nat>, projectId: Option<nat>, changes: Option<nat>, occurredAt: int)

  datatype AuditContent = AuditContent(
    workspaceId: nat, action: string, resourceType: string, resourceId: nat,
    actorId: Option<nat>, projectId: Option<nat>, changes: Option<nat>, occurredAt: int)

  /** `source` is NULL for a row written by a request, not by the relay. */
  datatype AuditRow = AuditRow(id: nat, source: Option<Id>, content: AuditContent)

  datatype Done = Done

  datatype State = State(world: World<Done>, events: map<Id, DomainEvent>, audit: seq<AuditRow>, nextAudit: nat)

  /** When it happened, not when this attempt ran. */
  function Project(e: DomainEvent): AuditContent {
    AuditContent(e.workspaceId, e.eventType, e.aggregateType, e.aggregateId, e.actorId, e.projectId, e.changes, e.occurredAt)
  }

  predicate Recorded(audit: seq<AuditRow>, source: Option<Id>) {
    source.Some? && exists row <- audit :: row.source == source
  }

  /** Insert, ON CONFLICT (source_event_id) DO NOTHING; a NULL source never conflicts. */
  function Create(audit: seq<AuditRow>, row: AuditRow): seq<AuditRow> {
    if Recorded(audit, row.source) then audit else audit + [row]
  }

  datatype AuditEvent =
    | Emit(id: Id, event: DomainEvent, at: int)
    | Record(content: AuditContent)
    | Inserts(token: Token, id: Id)   // the insert committed; the worker may die before deliver returns
    | Relay(e: Event<Done>)

  predicate Projecting(s: State, token: Token, id: Id) {
    (token, id) in s.world.jobs && s.world.jobs[(token, id)].phase.Calling? && id in s.events
  }

  function Deliver(s: State, id: Id): State
    requires id in s.events
  {
    s.(audit := Create(s.audit, AuditRow(s.nextAudit, Some(id), Project(s.events[id]))), nextAudit := s.nextAudit + 1)
  }

  function AuditStep(max: nat, s: State, e: AuditEvent): State {
    match e
    case Emit(id, event, at) =>
      if id in s.events then s
      else s.(world := Step(max, s.world, Enqueue(id, at)), events := s.events[id := event])
    case Record(content) =>
      s.(audit := Create(s.audit, AuditRow(s.nextAudit, None, content)), nextAudit := s.nextAudit + 1)
    case Inserts(token, id) => if Projecting(s, token, id) then Deliver(s, id) else s
    case Relay(Enqueue(_, _)) => s
    case Relay(Return(token, id, Succeeded(done))) =>
      if Projecting(s, token, id) then Deliver(s, id).(world := Step(max, s.world, Return(token, id, Succeeded(done)))) else s
    case Relay(other) => s.(world := Step(max, s.world, other))
  }

  function AuditRun(max: nat, s: State, es: seq<AuditEvent>): State
    decreases |es|
  {
    if es == [] then s else AuditRun(max, AuditStep(max, s, es[0]), es[1..])
  }

  function NewAudit(): State {
    State(Empty(), map[], [], 0)
  }

  // ── The invariant ──────────────────────────────────────────────────────────

  ghost predicate RowOk(events: map<Id, DomainEvent>, row: AuditRow) {
    row.source.Some? ==> row.source.value in events && row.content == Project(events[row.source.value])
  }

  ghost predicate LogOk(events: map<Id, DomainEvent>, audit: seq<AuditRow>) {
    && (forall row <- audit :: RowOk(events, row))
    && (forall i, j :: 0 <= i < j < |audit| && audit[i].source.Some? ==> audit[i].source != audit[j].source)
  }

  ghost predicate Delivered(w: World<Done>, audit: seq<AuditRow>, id: Id) {
    id in w.rows && w.rows[id].status.Sent? ==> Recorded(audit, Some(id))
  }

  ghost predicate AnswerOk(w: World<Done>, audit: seq<AuditRow>, k: (Token, Id))
    requires k in w.jobs
  {
    w.jobs[k].phase.Returned? && w.jobs[k].phase.outcome.Succeeded? ==> Recorded(audit, Some(k.1))
  }

  ghost predicate WorldOk(w: World<Done>, audit: seq<AuditRow>) {
    && (forall id <- w.rows :: Delivered(w, audit, id))
    && (forall k <- w.jobs :: AnswerOk(w, audit, k))
  }

  ghost predicate AuditInv(max: nat, s: State) {
    Inv(max, s.world) && s.events.Keys == s.world.rows.Keys && LogOk(s.events, s.audit) && WorldOk(s.world, s.audit)
  }

  lemma CreateKeeps(events: map<Id, DomainEvent>, audit: seq<AuditRow>, row: AuditRow, w: World<Done>)
    requires LogOk(events, audit) && RowOk(events, row) && WorldOk(w, audit)
    ensures var audit' := Create(audit, row);
            && LogOk(events, audit') && WorldOk(w, audit') && audit <= audit'
            && (row.source.Some? ==> Recorded(audit', row.source))
  {
    var audit' := Create(audit, row);
    assert forall r <- audit :: r in audit';
    assert row.source.Some? && !Recorded(audit, row.source) ==> audit'[|audit|] == row;
    forall id <- w.rows ensures Delivered(w, audit', id) { assert Delivered(w, audit, id); }
    forall k <- w.jobs ensures AnswerOk(w, audit', k) { assert AnswerOk(w, audit, k); }
  }

  lemma QuietKeeps(w: World<Done>, w': World<Done>, audit: seq<AuditRow>)
    requires WorldOk(w, audit) && Quiet(w, w')
    ensures WorldOk(w', audit)
  {
    forall id <- w'.rows ensures Delivered(w', audit, id) { assert Delivered(w, audit, id); }
    forall k <- w'.jobs ensures AnswerOk(w', audit, k) {
      assert AnswerOk(w, audit, k) && AnswerKept(w.jobs[k].phase, w'.jobs[k].phase);
    }
  }

  lemma FinishKeeps(max: nat, w: World<Done>, audit: seq<AuditRow>, token: Token, id: Id)
    requires Inv(max, w) && WorldOk(w, audit)
    ensures WorldOk(Step(max, w, Finish(token, id)), audit)
  {
    var w' := Step(max, w, Finish(token, id));
    FinishStep(max, w, token, id);
    if CommitsSent(w, token, id) { assert AnswerOk(w, audit, (token, id)); }
    forall i <- w'.rows ensures Delivered(w', audit, i) { assert Delivered(w, audit, i); }
    forall k <- w'.jobs ensures AnswerOk(w', audit, k) { assert AnswerOk(w, audit, k); }
  }

  lemma ClaimKeeps(max: nat, w: World<Done>, audit: seq<AuditRow>, offered: set<Id>, hold: nat)
    requires Inv(max, w) && WorldOk(w, audit)
    ensures WorldOk(Step(max, w, Claim(offered, hold)), audit)
  {
    var w' := Step(max, w, Claim(offered, hold));
    ClaimStep(max, w, offered, hold);
    forall i <- w'.rows ensures Delivered(w', audit, i) { assert Delivered(w, audit, i); }
    forall k <- w'.jobs ensures AnswerOk(w', audit, k) { if k in w.jobs { assert AnswerOk(w, audit, k); } }
  }

  lemma ReturnKeeps(max: nat, w: World<Done>, audit: seq<AuditRow>, token: Token, id: Id, done: Done)
    requires WorldOk(w, audit) && Recorded(audit, Some(id))
    ensures WorldOk(Step(max, w, Return(token, id, Succeeded(done))), audit)
  {
    var w' := Step(max, w, Return(token, id, Succeeded(done)));
    AnswerStep(max, w, token, id, Succeeded(done));
    forall i <- w'.rows ensures Delivered(w', audit, i) { assert Delivered(w, audit, i); }
    forall k <- w'.jobs ensures AnswerOk(w', audit, k) { assert AnswerOk(w, audit, k); }
  }

  lemma EmitKeeps(max: nat, s: State, id: Id, event: DomainEvent, at: int)
    requires AuditInv(max, s) && id !in s.events
    ensures AuditInv(max, AuditStep(max, s, Emit(id, event, at)))
  {
    var s' := AuditStep(max, s, Emit(id, event, at));
    StepKeepsInv(max, s.world, Enqueue(id, at));
    EnqueueStep(max, s.world, id, at);
    forall row <- s'.audit ensures RowOk(s'.events, row) { assert RowOk(s.events, row); }
    forall i <- s'.world.rows ensures Delivered(s'.world, s'.audit, i) {
      if i in s.world.rows { assert Delivered(s.world, s.audit, i); }
    }
    forall k <- s'.world.jobs ensures AnswerOk(s'.world, s'.audit, k) { assert AnswerOk(s.world, s.audit, k); }
  }

  lemma DeliveredKeeps(max: nat, s: State, token: Token, id: Id, done: Done)
    requires AuditInv(max, s)
    ensures AuditInv(max, AuditStep(max, s, Relay(Return(token, id, Succeeded(done)))))
  {
    if Projecting(s, token, id) {
      StepKeepsInv(max, s.world, Return(token, id, Succeeded(done)));
      AnswerStep(max, s.world, token, id, Succeeded(done));
      CreateKeeps(s.events, s.audit, AuditRow(s.nextAudit, Some(id), Project(s.events[id])), s.world);
      ReturnKeeps(max, s.world, Deliver(s, id).audit, token, id, done);
    }
  }

  lemma QuietRelayKeeps(max: nat, s: State, e: Event<Done>)
    requires AuditInv(max, s)
    requires e.Advance? || e.Renew? || e.FinishThrows? || e.Crash? || (e.Return? && !e.outcome.Succeeded?)
    ensures AuditInv(max, AuditStep(max, s, Relay(e)))
  {
    StepKeepsInv(max, s.world, e);
    QuietStep(max, s.world, e);
    QuietKeeps(s.world, Step(max, s.world, e), s.audit);
  }

  lemma RelayKeeps(max: nat, s: State, e: Event<Done>)
    requires AuditInv(max, s)
    ensures AuditInv(max, AuditStep(max, s, Relay(e)))
  {
    match e
    case Enqueue(_, _) =>
    case Finish(token, id) =>
      StepKeepsInv(max, s.world, e);
      FinishStep(max, s.world, token, id);
      FinishKeeps(max, s.world, s.audit, token, id);
    case Claim(offered, hold) =>
      StepKeepsInv(max, s.world, e);
      ClaimStep(max, s.world, offered, hold);
      ClaimKeeps(max, s.world, s.audit, offered, hold);
    case Return(token, id, Succeeded(done)) => DeliveredKeeps(max, s, token, id, done);
    case _ => QuietRelayKeeps(max, s, e);
  }

  lemma AuditStepKeeps(max: nat, s: State, e: AuditEvent)
    requires AuditInv(max, s)
    ensures AuditInv(max, AuditStep(max, s, e))
  {
    match e
    case Emit(id, event, at) => if id !in s.events { EmitKeeps(max, s, id, event, at); }
    case Record(content) => CreateKeeps(s.events, s.audit, AuditRow(s.nextAudit, None, content), s.world);
    case Inserts(token, id) =>
      if Projecting(s, token, id) {
        CreateKeeps(s.events, s.audit, AuditRow(s.nextAudit, Some(id), Project(s.events[id])), s.world);
      }
    case Relay(event) => RelayKeeps(max, s, event);
  }

  lemma {:induction false} AuditRunKeeps(max: nat, s: State, es: seq<AuditEvent>)
    requires AuditInv(max, s)
    ensures AuditInv(max, AuditRun(max, s, es))
    decreases |es|
  {
    if es != [] {
      AuditStepKeeps(max, s, es[0]);
      AuditRunKeeps(max, AuditStep(max, s, es[0]), es[1..]);
    }
  }

  // ── The results ────────────────────────────────────────────────────────────

  ghost function RowsFor(audit: seq<AuditRow>, id: Id): nat {
    if audit == [] then 0
    else RowsFor(audit[..|audit| - 1], id) + if audit[|audit| - 1].source == Some(id) then 1 else 0
  }

  lemma {:induction false} UniqueSourceCounts(events: map<Id, DomainEvent>, audit: seq<AuditRow>, id: Id)
    requires LogOk(events, audit)
    ensures RowsFor(audit, id) == if Recorded(audit, Some(id)) then 1 else 0
    decreases |audit|
  {
    if audit != [] {
      var rest, last := audit[..|audit| - 1], audit[|audit| - 1];
      forall row <- rest ensures RowOk(events, row) { assert row in audit; }
      UniqueSourceCounts(events, rest, id);
      if Recorded(rest, Some(id)) {
        var row :| row in rest && row.source == Some(id);
        assert row in audit;
      } else if last.source == Some(id) {
        assert last in audit;
      } else {
        forall row <- audit ensures row.source != Some(id) { if row != last { assert row in rest; } }
      }
    }
  }

  /** An audit row tells its event: whose, what, on what, by whom, and when it happened. */
  ghost predicate Tells(content: AuditContent, e: DomainEvent) {
    && content.workspaceId == e.workspaceId && content.action == e.eventType
    && content.resourceType == e.aggregateType && content.resourceId == e.aggregateId
    && content.actorId == e.actorId && content.projectId == e.projectId && content.changes == e.changes
    && content.occurredAt == e.occurredAt
  }

  /**
   * The log refines the outbox: after any run each outbox row has at most one audit row, a published one exactly one,
   * and whichever attempt wrote it, it tells the event's own story.
   */
  lemma AuditLogRefinesOutbox(max: nat, es: seq<AuditEvent>, id: Id)
    ensures var s := AuditRun(max, NewAudit(), es);
            && RowsFor(s.audit, id) <= 1
            && (id in s.world.rows && s.world.rows[id].status.Sent? ==> RowsFor(s.audit, id) == 1)
            && (forall row <- s.audit :: row.source == Some(id) ==> id in s.events && Tells(row.content, s.events[id]))
  {
    AuditRunKeeps(max, NewAudit(), es);
    var s := AuditRun(max, NewAudit(), es);
    UniqueSourceCounts(s.events, s.audit, id);
    if id in s.world.rows { assert Delivered(s.world, s.audit, id); }
    forall row <- s.audit | row.source == Some(id) ensures id in s.events && Tells(row.content, s.events[id]) {
      assert RowOk(s.events, row);
    }
  }

  // ── What each event writes ─────────────────────────────────────────────────

  /** A delivery's insert, and the same insert by a worker that dies after it: one new row, unless the source has one. */
  lemma DeliveryInserts(max: nat, s: State, token: Token, id: Id)
    requires (token, id) in s.world.jobs && s.world.jobs[(token, id)].phase.Calling? && id in s.events
    ensures var back, died := AuditStep(max, s, Relay(Return(token, id, Succeeded(Done)))), AuditStep(max, s, Inserts(token, id));
            var known := exists row <- s.audit :: row.source == Some(id);
            && back.audit == died.audit && back.events == died.events == s.events
            && back.nextAudit == died.nextAudit == s.nextAudit + 1
            && died.world == s.world && back.world == Step(max, s.world, Return(token, id, Succeeded(Done)))
            && (known ==> back.audit == s.audit)
            && (!known ==>
                  && |back.audit| == |s.audit| + 1 && back.audit[..|s.audit|] == s.audit
                  && back.audit[|s.audit|].source == Some(id) && back.audit[|s.audit|].id == s.nextAudit
                  && Tells(back.audit[|s.audit|].content, s.events[id]))
  {}

  /** An event is emitted once, with its outbox row; a request's own row is always added; the relay adds nothing else. */
  lemma OtherAuditEventsWrite(max: nat, s: State, id: Id, event: DomainEvent, at: int, content: AuditContent, e: Event<Done>)
    ensures AuditStep(max, s, Emit(id, event, at)) ==
            if id in s.events then s
            else s.(world := Step(max, s.world, Enqueue(id, at)), events := s.events[id := event])
    ensures AuditStep(max, s, Record(content)) ==
            s.(audit := s.audit + [AuditRow(s.nextAudit, None, content)], nextAudit := s.nextAudit + 1)
    ensures !e.Enqueue? && !(e.Return? && e.outcome.Succeeded?) ==>
              AuditStep(max, s, Relay(e)) == s.(world := Step(max, s.world, e))
    ensures e.Enqueue? ==> AuditStep(max, s, Relay(e)) == s
  {}

  /** Only a worker in its call on an event there is inserts or succeeds. */
  lemma OutOfTurnDoesNothing(max: nat, s: State, token: Token, id: Id)
    requires !((token, id) in s.world.jobs && s.world.jobs[(token, id)].phase == Calling && id in s.events)
    ensures AuditStep(max, s, Inserts(token, id)) == s && AuditStep(max, s, Relay(Return(token, id, Succeeded(Done)))) == s
  {}

  /** Redelivery never rewrites history: what is in the log, and every event, stays as it is. */
  lemma {:induction false} LogOnlyGrows(max: nat, s: State, es: seq<AuditEvent>)
    ensures var s' := AuditRun(max, s, es);
            && s.audit <= s'.audit
            && (forall id <- s.events :: id in s'.events && s'.events[id] == s.events[id])
    decreases |es|
  {
    if es != [] {
      var s1 := AuditStep(max, s, es[0]);
      assert s.audit <= s1.audit;
      LogOnlyGrows(max, s1, es[1..]);
      assert s1.audit <= AuditRun(max, s, es).audit;
    }
  }

  // ── The outbox inside is a run of the protocol ─────────────────────────────

  ghost function AuditTrace(s: State, e: AuditEvent): seq<Event<Done>> {
    match e
    case Emit(id, _, at) => if id in s.events then [] else [Enqueue(id, at)]
    case Relay(Enqueue(_, _)) => []
    case Relay(Return(token, id, Succeeded(done))) =>
      if Projecting(s, token, id) then [Return(token, id, Succeeded(done))] else []
    case Relay(other) => [other]
    case _ => []
  }

  ghost function AuditTraces(max: nat, s: State, es: seq<AuditEvent>): seq<Event<Done>>
    decreases |es|
  {
    if es == [] then [] else AuditTrace(s, es[0]) + AuditTraces(max, AuditStep(max, s, es[0]), es[1..])
  }

  lemma AuditStepIsARun(max: nat, s: State, e: AuditEvent)
    ensures AuditStep(max, s, e).world == Run(max, s.world, AuditTrace(s, e))
  {
    var es := AuditTrace(s, e);
    if es != [] {
      assert es == [es[0]];
      RunOne(max, s.world, es[0]);
    }
  }

  lemma {:induction false} AuditOutboxIsARun(max: nat, s: State, es: seq<AuditEvent>)
    ensures AuditRun(max, s, es).world == Run(max, s.world, AuditTraces(max, s, es))
    decreases |es|
  {
    if es != [] {
      var s1 := AuditStep(max, s, es[0]);
      AuditStepIsARun(max, s, es[0]);
      AuditOutboxIsARun(max, s1, es[1..]);
      RunConcat(max, s.world, AuditTrace(s, es[0]), AuditTraces(max, s1, es[1..]));
    }
  }

  ghost predicate ProjectionNeverDefers(es: seq<AuditEvent>) {
    forall e <- es :: e.Relay? && e.e.Return? ==> !e.e.outcome.Deferred?
  }

  lemma {:induction false} AuditTracesNeverDefer(max: nat, s: State, es: seq<AuditEvent>, id: Id)
    requires ProjectionNeverDefers(es)
    ensures OutboxTheorems.NeverDeferred(AuditTraces(max, s, es), id)
    decreases |es|
  {
    if es != [] {
      assert es[0] in es && forall e <- es[1..] :: e in es;
      AuditTracesNeverDefer(max, AuditStep(max, s, es[0]), es[1..], id);
    }
  }

  /** Every event is projected at most `max` times, over every run: an insert fails or succeeds, and never defers. */
  lemma ProjectionsAreBounded(max: nat, es: seq<AuditEvent>, id: Id)
    requires ProjectionNeverDefers(es)
    ensures AuditRun(max, NewAudit(), es).world == Run(max, NewAudit().world, AuditTraces(max, NewAudit(), es))
    ensures OutboxTheorems.CallsStarted(max, NewAudit().world, AuditTraces(max, NewAudit(), es), id) <= max
  {
    AuditOutboxIsARun(max, NewAudit(), es);
    AuditTracesNeverDefer(max, NewAudit(), es, id);
    OutboxTheorems.BoundedFromTheStart(max, NewAudit().world, AuditTraces(max, NewAudit(), es), id);
  }

  // ── The steps as they run ──────────────────────────────────────────────────

  class AuditTables {
    const maxAttempts: nat
    var world: World<Done>
    var events: map<Id, DomainEvent>
    var audit: seq<AuditRow>
    var nextAudit: nat

    constructor (maxAttempts: nat)
      ensures this.maxAttempts == maxAttempts && Contents() == NewAudit()
    {
      this.maxAttempts := maxAttempts;
      world, events, audit, nextAudit := Empty(), map[], [], 0;
    }

    function Contents(): State
      reads this
    {
      State(world, events, audit, nextAudit)
    }

    /** AuditDrizzleRepository.create */
    method CreateRow(source: Option<Id>, content: AuditContent)
      modifies this`audit, this`nextAudit
      ensures audit == Create(old(audit), AuditRow(old(nextAudit), source, content)) && nextAudit == old(nextAudit) + 1
    {
      var row := AuditRow(nextAudit, source, content);
      nextAudit := nextAudit + 1;
      if source.Some? && exists r <- audit :: r.source == source { return; }
      audit := audit + [row];
    }

    /** deliver, when the worker lives to return */
    method DeliverEvent(token: Token, id: Id)
      requires Projecting(Contents(), token, id)
      modifies this
      ensures Contents() == AuditStep(maxAttempts, old(Contents()), Relay(Return(token, id, Succeeded(Done))))
    {
      var e := events[id];
      CreateRow(Some(id), AuditContent(e.workspaceId, e.eventType, e.aggregateType, e.aggregateId,
                                       e.actorId, e.projectId, e.changes, e.occurredAt));
      world := Step(maxAttempts, world, Return(token, id, Succeeded(Done)));
    }
  }
}
