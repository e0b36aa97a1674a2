/** What the two relays promise about an invitation, in every reachable state. */
module InvitationTheorems {
  import opened Wrappers
  import opened OutboxLease
  import opened OutboxShapes
  import OutboxTheorems
  import opened InvitationEmail
  import opened InvitationInvariant

  ghost predicate Reachable(max: nat, s: State) {
    exists es :: s == SystemRun(max, NewSystem(), es)
  }

  lemma ReachableKeepsInv(max: nat, s: State)
    requires Reachable(max, s)
    ensures SystemInv(max, s)
  {
    var es :| s == SystemRun(max, NewSystem(), es);
    RunKeepsSystemInv(max, NewSystem(), es);
  }

  /** Sent, failed or reaped: a guest row that is not pending holds no live credential. */
  lemma NoTokenOncePendingEnds(max: nat, s: State, id: Id)
    requires Reachable(max, s) && id in s.guests.rows
    ensures id in s.guests.world.rows
    ensures !s.guests.world.rows[id].status.Pending? ==> s.guests.rows[id].inviteToken.None?
  {
    ReachableKeepsInv(max, s);
    assert GuestOk(s.guests, s.invitations.Keys, id);
  }

  /**
   * What one finish commits, all of it or none: a worker that lost its lease writes nothing; a failure touches neither
   * invitation nor mail; a success sends the row, scrubs it, records the object id, and inserts the invitation email
   * exactly when the row's own link is still the live one, its workspace exists and no email has the key yet.
   */
  lemma FinishCommitsTogether(max: nat, s: State, token: Token, id: Id)
    requires Reachable(max, s) && id in s.guests.rows
    ensures var s' := GuestStep(max, s, Finish(token, id));
            var row := s.guests.rows[id];
            && (!CommitsSent(s.guests.world, token, id) ==> s'.mails == s.mails && s'.invitations == s.invitations)
            && (!Commits(s.guests.world, token, id) ==>
                  s'.guests.rows == s.guests.rows && s'.guests.world.rows == s.guests.world.rows)
            && (CommitsSent(s.guests.world, token, id) ==>
                  && id in s'.guests.world.rows && s'.guests.world.rows[id].status.Sent?
                  && s'.guests.rows == s.guests.rows[id := row.(inviteToken := None)]
                  && s'.invitations == RecordObjectId(
                       s.invitations, row.invitation, s.guests.world.jobs[(token, id)].phase.outcome.result)
                  && s'.mails.rows == if OwesLiveLink(s, row) && !KeyTaken(s.mails.rows, Some(InviteKey(row.invitation)))
                     then s.mails.rows[s.mails.next := InviteMail(row.invitation, row.address, row.inviteToken.value)]
                     else s.mails.rows)
  {
    ReachableKeepsInv(max, s);
    FinishStep(max, s.guests.world, token, id);
    if CommitsSent(s.guests.world, token, id) {
      assert CarriedOk(s.guests, (token, id));
      FinishSentParts(max, s, token, id);
    } else if Commits(s.guests.world, token, id) {
    } else {
      TerminalRowsHoldNoToken(max, s, id);
    }
  }

  lemma TerminalRowsHoldNoToken(max: nat, s: State, id: Id)
    requires SystemInv(max, s) && id in s.guests.rows
    ensures !s.guests.world.rows[id].status.Pending? ==> Scrub(s.guests.rows, id) == s.guests.rows
  {
    assert GuestOk(s.guests, s.invitations.Keys, id);
  }

  /** The row still carries a token, and that token is the invitation's live link. */
  ghost predicate OwesLiveLink(s: State, row: Guest) {
    && row.inviteToken.Some?
    && LinkIsLive(s.invitations, row.invitation, row.inviteToken.value)
    && row.workspace in s.workspaces
  }

  /** Of everything the guest relay does, only a fenced successful finish inserts an email. */
  lemma OnlySuccessInsertsAnEmail(max: nat, s: State, e: Event<GuestOutcome>)
    requires Reachable(max, s) && GuestStep(max, s, e).mails != s.mails
    ensures && e.Finish? && CommitsSent(s.guests.world, e.token, e.id) && e.id in s.guests.rows
            && OwesLiveLink(s, s.guests.rows[e.id])
            && !KeyTaken(s.mails.rows, Some(InviteKey(s.guests.rows[e.id].invitation)))
  {
    ReachableKeepsInv(max, s);
    match e
    case Finish(token, id) =>
      assert CommitsSent(s.guests.world, token, id);
      assert CarriedOk(s.guests, (token, id));
      FinishSentParts(max, s, token, id);
    case _ =>
  }

  /** Two requests, a retried provisioning and a flipped flag together still leave one email per invitation. */
  lemma OneEmailPerInvitation(max: nat, s: State, i: Id, j: Id, invitation: InvitationId)
    requires Reachable(max, s) && i in s.mails.rows && j in s.mails.rows
    requires s.mails.rows[i].key == s.mails.rows[j].key == Some(InviteKey(invitation))
    ensures i == j
  {
    ReachableKeepsInv(max, s);
  }

  /** No email for an invitation before its guest row is `sent`; so a dead-lettered provisioning never mails a link. */
  lemma EmailOnlyAfterProvisioning(max: nat, s: State, g: Id, m: Id)
    requires Reachable(max, s) && g in s.guests.rows && m in s.mails.rows
    requires s.guests.rows[g].owesEmail && s.mails.rows[m].key == Some(InviteKey(s.guests.rows[g].invitation))
    ensures g in s.guests.world.rows && s.guests.world.rows[g].status.Sent?
  {
    ReachableKeepsInv(max, s);
  }

  /** What the provider is asked to deduplicate on: one key per mail, and an invitation's key from one mail only. */
  lemma SendsCarryTheKey(max: nat, s: State, x: (Id, SendKey, MessageId), y: (Id, SendKey, MessageId), invitation: InvitationId)
    requires Reachable(max, s) && x in s.mails.sends && y in s.mails.sends
    ensures x.0 in s.mails.rows
    ensures x.1 == ByKey(InviteKey(invitation)) <==> s.mails.rows[x.0].key == Some(InviteKey(invitation))
    ensures x.1 == y.1 <==> x.0 == y.0
  {
    ReachableKeepsInv(max, s);
    assert SendOk(s.mails, x) && SendOk(s.mails, y);
  }

  /** The message id is stored with the status: a sent mail holds one the provider gave for its key, or was suppressed. */
  lemma SentMailHasItsMessageId(max: nat, s: State, id: Id)
    requires Reachable(max, s) && id in s.mails.rows
    ensures id in s.mails.world.rows
    ensures var mail, sent := s.mails.rows[id], s.mails.world.rows[id].status.Sent?;
            && (mail.messageId.Some? ==>
                  sent && (id, SendKeyOf(id, mail), mail.messageId.value) in s.mails.sends)
            && (sent && mail.messageId.None? ==> mail.recipient.Some?)
  {
    ReachableKeepsInv(max, s);
    assert MailOk(s.mails, s.invitations.Keys, id);
  }

  // ── The two outboxes are protocol runs ─────────────────────────────────────

  ghost function ScheduledBy(m: MailBox, mail: Mail, dueAt: int): seq<Event<Option<MessageId>>> {
    if KeyTaken(m.rows, mail.key) then [] else [Enqueue(m.next, dueAt)]
  }

  ghost function MailTrace(max: nat, s: State, e: SystemEvent): seq<Event<Option<MessageId>>> {
    match e
    case Api(Invite(workspace, address, provision, at)) =>
      if provision then [] else ScheduledBy(s.mails, InviteMail(s.nextInvitation, address, s.nextSecret), at)
    case Api(Resend(id, provision, at)) =>
      if id !in s.invitations || !Rotatable(s.invitations[id]) then []
      else
        var inv := s.invitations[id];
        ScheduledBy(s.mails, Mail(Some(ResendKey(id, inv.resends + 1)), inv.address, s.nextSecret, None, None), at)
    case Api(ScheduleOther(mail, at)) =>
      if (mail.key.Some? && !mail.key.value.OtherKey?) || mail.messageId.Some? then [] else ScheduledBy(s.mails, mail, at)
    case Api(_) => []
    case GuestRelay(event) =>
      if GuestStep(max, s, event).mails == s.mails then [] else [Enqueue(s.mails.next, s.mails.world.now)]
    case EmailRelay(Accepts(_, _, _)) => []
    case EmailRelay(Protocol(event)) =>
      if MailStep(max, s.mails, Protocol(event)).world == s.mails.world then [] else [event]
  }

  lemma MailBoxStepIsARun(max: nat, m: MailBox, e: MailEvent)
    ensures var after := MailStep(max, m, e).world;
            after == m.world || (e.Protocol? && after == Step(max, m.world, e.e))
  {}

  lemma RequestMailRun(max: nat, s: State, r: Request)
    ensures DoRequest(max, s, r).mails.world == Run(max, s.mails.world, MailTrace(max, s, Api(r)))
  {
    var es := MailTrace(max, s, Api(r));
    if es != [] { RunOne(max, s.mails.world, es[0]); assert es == [es[0]]; }
  }

  lemma GuestMailRun(max: nat, s: State, e: Event<GuestOutcome>)
    ensures GuestStep(max, s, e).mails.world == Run(max, s.mails.world, MailTrace(max, s, GuestRelay(e)))
  {
    var mails := GuestStep(max, s, e).mails;
    if mails != s.mails {
      assert mails.world == Step(max, s.mails.world, Enqueue(s.mails.next, s.mails.world.now));
      RunOne(max, s.mails.world, Enqueue(s.mails.next, s.mails.world.now));
    }
  }

  /** Every event of the whole system is, for the email outbox, zero or one protocol event. */
  lemma MailStepIsARun(max: nat, s: State, e: SystemEvent)
    ensures SystemStep(max, s, e).mails.world == Run(max, s.mails.world, MailTrace(max, s, e))
  {
    match e
    case Api(r) => RequestMailRun(max, s, r);
    case GuestRelay(event) => GuestMailRun(max, s, event);
    case EmailRelay(event) =>
      MailBoxStepIsARun(max, s.mails, event);
      if event.Protocol? { RunOne(max, s.mails.world, event.e); }
  }

  ghost function MailTraces(max: nat, s: State, es: seq<SystemEvent>): seq<Event<Option<MessageId>>>
    decreases |es|
  {
    if es == [] then [] else MailTrace(max, s, es[0]) + MailTraces(max, SystemStep(max, s, es[0]), es[1..])
  }

  lemma {:induction false} EmailOutboxIsARun(max: nat, s: State, es: seq<SystemEvent>)
    ensures SystemRun(max, s, es).mails.world == Run(max, s.mails.world, MailTraces(max, s, es))
    decreases |es|
  {
    if es != [] {
      var s1 := SystemStep(max, s, es[0]);
      MailStepIsARun(max, s, es[0]);
      EmailOutboxIsARun(max, s1, es[1..]);
      RunConcat(max, s.mails.world, MailTrace(max, s, es[0]), MailTraces(max, s1, es[1..]));
    }
  }

  /**
   * Every mail, over every run of the whole system: it is handed to the provider in at most `max` deliveries plus one for
   * each time the provider defers it, whatever crashes, and reaches `sent` once if it ends there and never otherwise.
   */
  lemma EmailDeliveriesAreBounded(max: nat, es: seq<SystemEvent>, id: Id)
    ensures var trace, start := MailTraces(max, NewSystem(), es), NewSystem().mails.world;
            && SystemRun(max, NewSystem(), es).mails.world == Run(max, start, trace)
            && OutboxTheorems.CallsStarted(max, start, trace, id) <= max + OutboxTheorems.DeferralsIn(max, start, trace, id)
            && OutboxTheorems.SentTransitions(max, start, trace, id)
               == if OutboxTheorems.IsSent(SystemRun(max, NewSystem(), es).mails.world, id) then 1 else 0
  {
    EmailOutboxIsARun(max, NewSystem(), es);
    var trace := MailTraces(max, NewSystem(), es);
    OutboxTheorems.BoundedFromTheStart(max, NewSystem().mails.world, trace, id);
    OutboxTheorems.OneSentTransition(max, NewSystem().mails.world, trace, id);
  }

  ghost function EnqueuedBy(g: GuestBox, invitation: InvitationId, dueAt: int): seq<Event<GuestOutcome>> {
    if Provisioning(g.rows, invitation) then [] else [Enqueue(g.next, dueAt)]
  }

  ghost function GuestTrace(s: State, e: SystemEvent): seq<Event<GuestOutcome>> {
    match e
    case Api(Invite(_, _, provision, at)) => if provision then EnqueuedBy(s.guests, s.nextInvitation, at) else []
    case Api(Resend(id, provision, at)) =>
      if id in s.invitations && Rotatable(s.invitations[id]) && provision then EnqueuedBy(s.guests, id, at) else []
    case Api(_) => []
    case GuestRelay(event) => if event.Enqueue? then [] else [event]
    case EmailRelay(_) => []
  }

  lemma GuestStepIsARun(max: nat, s: State, e: SystemEvent)
    ensures SystemStep(max, s, e).guests.world == Run(max, s.guests.world, GuestTrace(s, e))
  {
    var es := GuestTrace(s, e);
    if es != [] {
      assert es == [es[0]];
      RunOne(max, s.guests.world, es[0]);
    }
  }

  ghost function GuestTraces(max: nat, s: State, es: seq<SystemEvent>): seq<Event<GuestOutcome>>
    decreases |es|
  {
    if es == [] then [] else GuestTrace(s, es[0]) + GuestTraces(max, SystemStep(max, s, es[0]), es[1..])
  }

  lemma {:induction false} GuestOutboxIsARun(max: nat, s: State, es: seq<SystemEvent>)
    ensures SystemRun(max, s, es).guests.world == Run(max, s.guests.world, GuestTraces(max, s, es))
    decreases |es|
  {
    if es != [] {
      var s1 := SystemStep(max, s, es[0]);
      GuestStepIsARun(max, s, es[0]);
      GuestOutboxIsARun(max, s1, es[1..]);
      RunConcat(max, s.guests.world, GuestTrace(s, es[0]), GuestTraces(max, s1, es[1..]));
    }
  }

  /** "Not now" is an answer of the mail provider's; the directory client has none. */
  ghost predicate DirectoryNeverDefers(es: seq<SystemEvent>) {
    forall e <- es :: e.GuestRelay? && e.e.Return? ==> !e.e.outcome.Deferred?
  }

  lemma {:induction false} GuestTracesNeverDefer(max: nat, s: State, es: seq<SystemEvent>, id: Id)
    requires DirectoryNeverDefers(es)
    ensures OutboxTheorems.NeverDeferred(GuestTraces(max, s, es), id)
    decreases |es|
  {
    if es != [] {
      assert es[0] in es && forall e <- es[1..] :: e in es;
      GuestTracesNeverDefer(max, SystemStep(max, s, es[0]), es[1..], id);
    }
  }

  /**
   * Every invitation, over every run of the whole system: at most `max` directory calls, since the directory client never
   * defers (and one more for each deferral if it did), and one sent transition exactly if its row ends sent.
   */
  lemma ProvisioningIsBounded(max: nat, es: seq<SystemEvent>, id: Id)
    ensures var trace, start := GuestTraces(max, NewSystem(), es), NewSystem().guests.world;
            && SystemRun(max, NewSystem(), es).guests.world == Run(max, start, trace)
            && (DirectoryNeverDefers(es) ==> OutboxTheorems.CallsStarted(max, start, trace, id) <= max)
            && OutboxTheorems.CallsStarted(max, start, trace, id) <= max + OutboxTheorems.DeferralsIn(max, start, trace, id)
            && OutboxTheorems.SentTransitions(max, start, trace, id)
               == if OutboxTheorems.IsSent(SystemRun(max, NewSystem(), es).guests.world, id) then 1 else 0
  {
    GuestOutboxIsARun(max, NewSystem(), es);
    var trace := GuestTraces(max, NewSystem(), es);
    OutboxTheorems.BoundedFromTheStart(max, NewSystem().guests.world, trace, id);
    OutboxTheorems.OneSentTransition(max, NewSystem().guests.world, trace, id);
    if DirectoryNeverDefers(es) { GuestTracesNeverDefer(max, NewSystem(), es, id); }
  }
}
