/** The invariant of the invitation system, and that every event keeps it. */
module InvitationInvariant {
  import opened Wrappers
  import opened OutboxLease
  import opened OutboxShapes
  import opened InvitationEmail

  // ── The email outbox ───────────────────────────────────────────────────────

  ghost predicate MailOk(m: MailBox, known: set<InvitationId>, id: Id)
    requires id in m.rows && id in m.world.rows
  {
    var mail, sent := m.rows[id], m.world.rows[id].status.Sent?;
    && id < m.next
    && (mail.key.Some? && mail.key.value.InviteKey? ==> mail.key.value.id in known)
    && (!sent ==> mail.messageId.None?)
    && (mail.messageId.Some? ==> (id, SendKeyOf(id, mail), mail.messageId.value) in m.sends)
    && (sent && mail.messageId.None? ==> mail.recipient.Some?)
  }

  ghost predicate AnswerOk(m: MailBox, k: (Token, Id))
    requires k in m.world.jobs
  {
    && k.1 in m.rows
    && (var phase := m.world.jobs[k].phase;
        phase.Returned? && phase.outcome.Succeeded? ==>
          match phase.outcome.result
          case Some(message) => (k.1, SendKeyOf(k.1, m.rows[k.1]), message) in m.sends
          case None => m.rows[k.1].recipient.Some?)
  }

  ghost predicate SendOk(m: MailBox, x: (Id, SendKey, MessageId)) {
    x.0 in m.rows && x.1 == SendKeyOf(x.0, m.rows[x.0])
  }

  ghost predicate UniqueKeys(rows: map<Id, Mail>) {
    forall i <- rows, j <- rows :: rows[i].key == rows[j].key && rows[i].key.Some? ==> i == j
  }

  ghost predicate MailsOk(m: MailBox, known: set<InvitationId>) {
    && m.rows.Keys == m.world.rows.Keys
    && (forall id <- m.rows :: MailOk(m, known, id))
    && (forall k <- m.world.jobs :: AnswerOk(m, k))
    && (forall x <- m.sends :: SendOk(m, x))
    && UniqueKeys(m.rows)
  }

  /** Mails are only ever added; the key, address, link and recipient of a mail never change. */
  ghost predicate MailsGrow(m: MailBox, m': MailBox) {
    forall id <- m.rows :: id in m'.rows && m'.rows[id].(messageId := None) == m.rows[id].(messageId := None)
  }

  ghost predicate NewMailsHave(m: MailBox, m': MailBox, key: Option<EmailKey>) {
    forall id <- m'.rows :: id !in m.rows ==> m'.rows[id].key == key
  }

  lemma ScheduleKeeps(max: nat, m: MailBox, known: set<InvitationId>, mail: Mail, dueAt: int)
    requires MailsOk(m, known) && mail.messageId.None?
    requires mail.key.Some? && mail.key.value.InviteKey? ==> mail.key.value.id in known
    ensures var m' := Schedule(max, m, mail, dueAt);
            MailsOk(m', known) && MailsGrow(m, m') && NewMailsHave(m, m', mail.key)
  {
    var m' := Schedule(max, m, mail, dueAt);
    if !KeyTaken(m.rows, mail.key) {
      forall id <- m.rows ensures id != m.next { assert MailOk(m, known, id); }
      EnqueueStep(max, m.world, m.next, dueAt);
      forall id <- m'.rows ensures MailOk(m', known, id) {
        if id in m.rows { assert MailOk(m, known, id); }
      }
      forall k <- m'.world.jobs ensures AnswerOk(m', k) { assert AnswerOk(m, k); }
      forall x <- m'.sends ensures SendOk(m', x) { assert SendOk(m, x); }
    }
  }

  lemma KnownGrows(m: MailBox, known: set<InvitationId>, known': set<InvitationId>)
    requires MailsOk(m, known) && known <= known'
    ensures MailsOk(m, known')
  {
    forall id <- m.rows ensures MailOk(m, known', id) { assert MailOk(m, known, id); }
  }

  lemma QuietMailKeeps(m: MailBox, known: set<InvitationId>, world: World<Option<MessageId>>)
    requires MailsOk(m, known) && Quiet(m.world, world)
    ensures MailsOk(m.(world := world), known)
  {
    var m' := m.(world := world);
    forall id <- m'.rows ensures MailOk(m', known, id) { assert MailOk(m, known, id); }
    forall k <- m'.world.jobs ensures AnswerOk(m', k) {
      assert AnswerOk(m, k);
      assert AnswerKept(m.world.jobs[k].phase, world.jobs[k].phase);
    }
    forall x <- m'.sends ensures SendOk(m', x) { assert SendOk(m, x); }
  }

  lemma AcceptKeeps(m: MailBox, known: set<InvitationId>, id: Id, message: MessageId)
    requires MailsOk(m, known)
    ensures MailsOk(ProviderAccepts(m, id, message), known)
  {
    var m' := ProviderAccepts(m, id, message);
    forall i <- m'.rows ensures MailOk(m', known, i) { assert MailOk(m, known, i); }
    forall k <- m'.world.jobs ensures AnswerOk(m', k) { assert AnswerOk(m, k); }
    forall x <- m'.sends ensures SendOk(m', x) { if x in m.sends { assert SendOk(m, x); } }
  }

  lemma DeliverMailKeeps(max: nat, m: MailBox, known: set<InvitationId>, token: Token, id: Id, result: Option<MessageId>)
    requires MailsOk(m, known)
    ensures MailsOk(DeliverMail(max, m, token, id, result), known)
  {
    var m' := DeliverMail(max, m, token, id, result);
    if m' != m {
      if result.Some? { AcceptKeeps(m, known, id, result.value); }
      var accepted := if result.Some? then ProviderAccepts(m, id, result.value) else m;
      AnswerStep(max, m.world, token, id, Succeeded(result));
      forall i <- m'.rows ensures MailOk(m', known, i) { assert MailOk(accepted, known, i); }
      forall k <- m'.world.jobs ensures AnswerOk(m', k) { assert AnswerOk(accepted, k); }
      forall x <- m'.sends ensures SendOk(m', x) { assert SendOk(accepted, x); }
    }
  }

  /** What the finish of a mail does to its box: the row's message id, and only on a committed success. */
  lemma FinishMailStores(max: nat, m: MailBox, m': MailBox, token: Token, id: Id)
    requires m.rows.Keys == m.world.rows.Keys && m' == FinishMail(max, m, token, id)
    ensures m'.rows.Keys == m.rows.Keys && m'.next == m.next && m'.sends == m.sends
    ensures m'.world == Step(max, m.world, Finish(token, id))
    ensures forall i <- m.rows :: SendKeyOf(i, m'.rows[i]) == SendKeyOf(i, m.rows[i]) && m'.rows[i].key == m.rows[i].key
    ensures forall i <- m.rows :: m'.rows[i].recipient == m.rows[i].recipient
    ensures forall i <- m.rows ::
              m'.rows[i].messageId == if i == id && CommitsSent(m.world, token, id)
                                      then m.world.jobs[(token, id)].phase.outcome.result else m.rows[i].messageId
  {}

  lemma FinishMailKeepsRow(max: nat, m: MailBox, m': MailBox, known: set<InvitationId>, token: Token, id: Id, i: Id)
    requires Inv(max, m.world) && MailsOk(m, known) && m' == FinishMail(max, m, token, id) && i in m'.rows
    ensures i in m'.world.rows && MailOk(m', known, i)
  {
    FinishMailStores(max, m, m', token, id);
    FinishStep(max, m.world, token, id);
    if CommitsSent(m.world, token, id) { assert AnswerOk(m, (token, id)); }
    assert MailOk(m, known, i);
  }

  /** A box whose rows are fine, whose sends and answers are old ones, and whose keys and recipients have not changed. */
  lemma MailsAssemble(m: MailBox, m': MailBox, known: set<InvitationId>)
    requires MailsOk(m, known) && m'.rows.Keys == m.rows.Keys == m'.world.rows.Keys && m'.sends == m.sends
    requires forall i <- m.rows :: SendKeyOf(i, m'.rows[i]) == SendKeyOf(i, m.rows[i]) && m'.rows[i].key == m.rows[i].key
    requires forall i <- m.rows :: m'.rows[i].recipient == m.rows[i].recipient
    requires forall k <- m'.world.jobs :: k in m.world.jobs && m'.world.jobs[k] == m.world.jobs[k]
    requires forall i <- m'.rows :: MailOk(m', known, i)
    ensures MailsOk(m', known)
  {
    forall k <- m'.world.jobs ensures AnswerOk(m', k) { assert AnswerOk(m, k); }
    forall x <- m'.sends ensures SendOk(m', x) { assert SendOk(m, x); }
  }

  lemma FinishMailKeeps(max: nat, m: MailBox, known: set<InvitationId>, token: Token, id: Id)
    requires Inv(max, m.world) && MailsOk(m, known)
    ensures MailsOk(FinishMail(max, m, token, id), known)
  {
    var m' := FinishMail(max, m, token, id);
    forall i <- m'.rows ensures i in m'.world.rows && MailOk(m', known, i) {
      FinishMailKeepsRow(max, m, m', known, token, id, i);
    }
    FinishMailStores(max, m, m', token, id);
    assert m'.rows.Keys == m'.world.rows.Keys && (forall k <- m'.world.jobs :: k in m.world.jobs && m'.world.jobs[k] == m.world.jobs[k]) by {
      FinishStep(max, m.world, token, id);
    }
    MailsAssemble(m, m', known);
  }

  lemma ClaimMailKeeps(max: nat, m: MailBox, known: set<InvitationId>, offered: set<Id>, hold: nat)
    requires Inv(max, m.world) && MailsOk(m, known)
    ensures MailsOk(m.(world := Step(max, m.world, Claim(offered, hold))), known)
  {
    var m' := m.(world := Step(max, m.world, Claim(offered, hold)));
    ClaimStep(max, m.world, offered, hold);
    forall i <- m'.rows ensures MailOk(m', known, i) { assert MailOk(m, known, i); }
    forall k <- m'.world.jobs ensures AnswerOk(m', k) { if k in m.world.jobs { assert AnswerOk(m, k); } }
    forall x <- m'.sends ensures SendOk(m', x) { assert SendOk(m, x); }
  }

  lemma ProtocolStepKeeps(max: nat, m: MailBox, known: set<InvitationId>, e: Event<Option<MessageId>>)
    requires Inv(max, m.world) && MailsOk(m, known)
    ensures MailsOk(MailStep(max, m, Protocol(e)), known)
  {
    match e
    case Enqueue(_, _) =>
    case Return(token, id, outcome) =>
      if outcome.Succeeded? {
        DeliverMailKeeps(max, m, known, token, id, outcome.result);
      } else {
        QuietStep(max, m.world, e);
        QuietMailKeeps(m, known, Step(max, m.world, e));
      }
    case Finish(token, id) => FinishMailKeeps(max, m, known, token, id);
    case Claim(offered, hold) => ClaimMailKeeps(max, m, known, offered, hold);
    case _ =>
      QuietStep(max, m.world, e);
      QuietMailKeeps(m, known, Step(max, m.world, e));
  }

  /** The email relay never inserts a mail, and touches nothing of a mail but its message id. */
  lemma MailStepOnlyFinishes(max: nat, m: MailBox, e: MailEvent)
    ensures var m' := MailStep(max, m, e); MailsGrow(m, m') && m'.rows.Keys == m.rows.Keys
  {}

  lemma MailStepKeepsWorld(max: nat, m: MailBox, e: MailEvent)
    requires Inv(max, m.world)
    ensures Inv(max, MailStep(max, m, e).world)
  {
    if e.Protocol? { StepKeepsInv(max, m.world, e.e); }
  }

  lemma MailStepKeeps(max: nat, m: MailBox, known: set<InvitationId>, e: MailEvent)
    requires Inv(max, m.world) && MailsOk(m, known)
    ensures MailsOk(MailStep(max, m, e), known)
  {
    match e
    case Accepts(token, id, message) => AcceptKeeps(m, known, id, message);
    case Protocol(event) => ProtocolStepKeeps(max, m, known, event);
  }

  // ── The guest outbox ───────────────────────────────────────────────────────

  ghost predicate GuestOk(g: GuestBox, known: set<InvitationId>, id: Id)
    requires id in g.rows && id in g.world.rows
  {
    && id < g.next
    && g.rows[id].invitation in known
    && (!g.world.rows[id].status.Pending? ==> g.rows[id].inviteToken.None?)
    && (!g.rows[id].owesEmail ==> g.rows[id].inviteToken.None?)
  }

  ghost predicate CarriedOk(g: GuestBox, k: (Token, Id))
    requires k in g.world.jobs
  {
    && k in g.carried && k.1 in g.rows
    && (HoldsLease(g.world.rows, k.1, k.0) ==> g.carried[k] == g.rows[k.1].inviteToken)
  }

  ghost predicate OnePerInvitation(rows: map<Id, Guest>) {
    forall i <- rows, j <- rows :: rows[i].invitation == rows[j].invitation ==> i == j
  }

  ghost predicate GuestsOk(g: GuestBox, known: set<InvitationId>) {
    && g.rows.Keys == g.world.rows.Keys
    && (forall id <- g.rows :: GuestOk(g, known, id))
    && (forall k <- g.world.jobs :: CarriedOk(g, k))
    && OnePerInvitation(g.rows)
  }

  lemma EnqueueGuestKeeps(max: nat, g: GuestBox, known: set<InvitationId>, guest: Guest, dueAt: int)
    requires GuestsOk(g, known) && guest.invitation in known && (guest.inviteToken.Some? ==> guest.owesEmail)
    ensures var g' := EnqueueGuest(max, g, guest, dueAt);
            && GuestsOk(g', known)
            && (forall id <- g'.rows :: g'.rows[id] == guest || (id in g.rows && g'.rows[id] == g.rows[id]
                  && g'.world.rows[id] == g.world.rows[id]))
  {
    var g' := EnqueueGuest(max, g, guest, dueAt);
    if !Provisioning(g.rows, guest.invitation) {
      forall id <- g.rows ensures id != g.next { assert GuestOk(g, known, id); }
      EnqueueStep(max, g.world, g.next, dueAt);
      forall id <- g'.rows ensures GuestOk(g', known, id) {
        if id in g.rows { assert GuestOk(g, known, id); }
      }
      forall k <- g'.world.jobs ensures CarriedOk(g', k) { assert CarriedOk(g, k); }
    }
  }

  lemma KnownGuestsGrow(g: GuestBox, known: set<InvitationId>, known': set<InvitationId>)
    requires GuestsOk(g, known) && known <= known'
    ensures GuestsOk(g, known')
  {
    forall id <- g.rows ensures GuestOk(g, known', id) { assert GuestOk(g, known, id); }
  }

  lemma QuietGuestKeeps(g: GuestBox, known: set<InvitationId>, world: World<GuestOutcome>)
    requires GuestsOk(g, known) && Quiet(g.world, world)
    ensures GuestsOk(g.(world := world), known)
  {
    var g' := g.(world := world);
    forall id <- g'.rows ensures GuestOk(g', known, id) { assert GuestOk(g, known, id); }
    forall k <- g'.world.jobs ensures CarriedOk(g', k) { assert CarriedOk(g, k); }
  }

  lemma AnsweredGuestKeeps(max: nat, g: GuestBox, known: set<InvitationId>, token: Token, id: Id, outcome: Outcome<GuestOutcome>)
    requires GuestsOk(g, known)
    ensures GuestsOk(g.(world := Step(max, g.world, Return(token, id, outcome))), known)
  {
    var g' := g.(world := Step(max, g.world, Return(token, id, outcome)));
    AnswerStep(max, g.world, token, id, outcome);
    forall i <- g'.rows ensures GuestOk(g', known, i) { assert GuestOk(g, known, i); }
    forall k <- g'.world.jobs ensures CarriedOk(g', k) { assert CarriedOk(g, k); }
  }

  /** Sent or failed: a finish scrubs the row exactly when it leaves it non-pending. */
  lemma FinishFailedKeeps(max: nat, g: GuestBox, known: set<InvitationId>, token: Token, id: Id)
    requires Inv(max, g.world) && GuestsOk(g, known) && !CommitsSent(g.world, token, id)
    ensures GuestsOk(FinishFailed(max, g, token, id), known)
  {
    FinishStep(max, g.world, token, id);
    var g' := FinishFailed(max, g, token, id);
    forall i <- g'.rows ensures GuestOk(g', known, i) { assert GuestOk(g, known, i); }
    forall k <- g'.world.jobs ensures CarriedOk(g', k) { assert CarriedOk(g, k); }
  }

  lemma FinishSentScrubs(max: nat, g: GuestBox, known: set<InvitationId>, token: Token, id: Id)
    requires Inv(max, g.world) && GuestsOk(g, known) && CommitsSent(g.world, token, id)
    ensures GuestsOk(g.(world := Step(max, g.world, Finish(token, id)), rows := Scrub(g.rows, id)), known)
  {
    FinishStep(max, g.world, token, id);
    var g' := g.(world := Step(max, g.world, Finish(token, id)), rows := Scrub(g.rows, id));
    forall i <- g'.rows ensures GuestOk(g', known, i) { assert GuestOk(g, known, i); }
    forall k <- g'.world.jobs ensures CarriedOk(g', k) { assert CarriedOk(g, k); }
  }

  /** A claim changes no payload but the token of a row it dead-letters. */
  lemma ClaimOnlyScrubs(max: nat, g: GuestBox, g': GuestBox, offered: set<Id>, hold: nat)
    requires g.rows.Keys == g.world.rows.Keys && g' == ClaimGuests(max, g, offered, hold)
    ensures g'.rows.Keys == g.rows.Keys && g'.next == g.next && g'.world == Step(max, g.world, Claim(offered, hold))
    ensures forall i <- g.rows ::
              g'.rows[i] == if Abandoned(g.world.rows[i], max, g.world.now) then g.rows[i].(inviteToken := None) else g.rows[i]
  {}

  lemma ClaimKeepsRows(max: nat, g: GuestBox, g': GuestBox, known: set<InvitationId>, offered: set<Id>, hold: nat)
    requires Inv(max, g.world) && GuestsOk(g, known) && g' == ClaimGuests(max, g, offered, hold)
    ensures g'.rows.Keys == g'.world.rows.Keys && OnePerInvitation(g'.rows)
    ensures forall i <- g'.rows :: GuestOk(g', known, i)
  {
    ClaimOnlyScrubs(max, g, g', offered, hold);
    ClaimStep(max, g.world, offered, hold);
    forall i <- g'.rows ensures GuestOk(g', known, i) { assert GuestOk(g, known, i); }
  }

  /** A row taken by this claim is carried with the token it holds. */
  lemma ClaimCarriesAnew(max: nat, g: GuestBox, g': GuestBox, k: (Token, Id), offered: set<Id>, hold: nat)
    requires Inv(max, g.world) && g.rows.Keys == g.world.rows.Keys && g' == ClaimGuests(max, g, offered, hold)
    requires k in g'.world.jobs && k !in g.world.jobs
    ensures CarriedOk(g', k)
  {
    ClaimOnlyScrubs(max, g, g', offered, hold);
    ClaimStep(max, g.world, offered, hold);
  }

  lemma ClaimGuestsKeeps(max: nat, g: GuestBox, known: set<InvitationId>, offered: set<Id>, hold: nat)
    requires Inv(max, g.world) && GuestsOk(g, known)
    ensures GuestsOk(ClaimGuests(max, g, offered, hold), known)
  {
    var g' := ClaimGuests(max, g, offered, hold);
    ClaimKeepsRows(max, g, g', known, offered, hold);
    forall k <- g'.world.jobs ensures CarriedOk(g', k) {
      if k in g.world.jobs {
        ClaimKeepsCarried(max, g, k, offered, hold);
      } else {
        ClaimCarriesAnew(max, g, g', k, offered, hold);
      }
    }
  }

  /** A row the reaper scrubs is held by nobody who could still finish it. */
  lemma ClaimKeepsCarried(max: nat, g: GuestBox, k: (Token, Id), offered: set<Id>, hold: nat)
    requires Inv(max, g.world) && k in g.world.jobs && CarriedOk(g, k) && g.rows.Keys == g.world.rows.Keys
    ensures var g' := ClaimGuests(max, g, offered, hold);
            k in g'.world.jobs && CarriedOk(g', k)
  {
    ClaimStep(max, g.world, offered, hold);
    if Abandoned(g.world.rows[k.1], max, g.world.now) { ClaimReapsTheLease(max, g.world, offered, hold, k.1); }
  }

  lemma ClaimReapsTheLease<R>(max: nat, w: World<R>, offered: set<Id>, hold: nat, id: Id)
    requires id in w.rows && Abandoned(w.rows[id], max, w.now)
    ensures Step(max, w, Claim(offered, hold)).rows[id].leaseToken.None?
  {}

  // ── The whole system ───────────────────────────────────────────────────────

  /** A row that owes the email has produced none until it is `sent`. */
  ghost predicate EmailFollowsProvisioning(s: State) {
    forall g <- s.guests.rows, m <- s.mails.rows ::
      g in s.guests.world.rows && s.guests.rows[g].owesEmail
      && s.mails.rows[m].key == Some(InviteKey(s.guests.rows[g].invitation))
      ==> s.guests.world.rows[g].status.Sent?
  }

  ghost predicate SystemInv(max: nat, s: State) {
    && Inv(max, s.guests.world) && Inv(max, s.mails.world)
    && GuestsOk(s.guests, s.invitations.Keys)
    && MailsOk(s.mails, s.invitations.Keys)
    && EmailFollowsProvisioning(s)
    && (forall id <- s.invitations :: id < s.nextInvitation)
  }

  lemma ScheduleKeepsWorld(max: nat, m: MailBox, mail: Mail, dueAt: int)
    requires Inv(max, m.world)
    ensures Inv(max, Schedule(max, m, mail, dueAt).world)
  {
    StepKeepsInv(max, m.world, Enqueue(m.next, dueAt));
  }

  lemma EnqueueKeepsWorld(max: nat, g: GuestBox, guest: Guest, dueAt: int)
    requires Inv(max, g.world)
    ensures Inv(max, EnqueueGuest(max, g, guest, dueAt).world)
  {
    StepKeepsInv(max, g.world, Enqueue(g.next, dueAt));
  }

  lemma InviteKeepsBoxes(max: nat, s: State, s': State, workspace: Workspace, address: Address, provision: bool, at: int)
    requires SystemInv(max, s) && s' == DoInvite(max, s, workspace, address, provision, at)
    ensures Inv(max, s'.guests.world) && Inv(max, s'.mails.world)
    ensures GuestsOk(s'.guests, s'.invitations.Keys) && MailsOk(s'.mails, s'.invitations.Keys)
  {
    var id, secret := s.nextInvitation, s.nextSecret;
    var known := s'.invitations.Keys;
    assert known == s.invitations.Keys + {id};
    KnownGuestsGrow(s.guests, s.invitations.Keys, known);
    KnownGrows(s.mails, s.invitations.Keys, known);
    if provision {
      EnqueueGuestKeeps(max, s.guests, known, Guest(id, workspace, address, Some(secret), true), at);
      EnqueueKeepsWorld(max, s.guests, Guest(id, workspace, address, Some(secret), true), at);
    } else {
      ScheduleKeeps(max, s.mails, known, InviteMail(id, address, secret), at);
      ScheduleKeepsWorld(max, s.mails, InviteMail(id, address, secret), at);
    }
  }

  lemma InviteFollows(max: nat, s: State, s': State, workspace: Workspace, address: Address, provision: bool, at: int)
    requires SystemInv(max, s) && s' == DoInvite(max, s, workspace, address, provision, at)
    ensures EmailFollowsProvisioning(s')
  {
    var id, secret := s.nextInvitation, s.nextSecret;
    var known := s.invitations.Keys + {id};
    forall m <- s.mails.rows ensures s.mails.rows[m].key != Some(InviteKey(id)) {
      assert MailOk(s.mails, s.invitations.Keys, m);
    }
    forall g <- s.guests.rows ensures s.guests.rows[g].invitation != id {
      assert GuestOk(s.guests, s.invitations.Keys, g);
    }
    if provision {
      KnownGuestsGrow(s.guests, s.invitations.Keys, known);
      EnqueueGuestKeeps(max, s.guests, known, Guest(id, workspace, address, Some(secret), true), at);
    } else {
      KnownGrows(s.mails, s.invitations.Keys, known);
      ScheduleKeeps(max, s.mails, known, InviteMail(id, address, secret), at);
    }
  }

  lemma InviteKeepsInv(max: nat, s: State, workspace: Workspace, address: Address, provision: bool, at: int)
    requires SystemInv(max, s)
    ensures SystemInv(max, DoInvite(max, s, workspace, address, provision, at))
  {
    var s' := DoInvite(max, s, workspace, address, provision, at);
    InviteKeepsBoxes(max, s, s', workspace, address, provision, at);
    InviteFollows(max, s, s', workspace, address, provision, at);
  }

  lemma ResendKeepsInv(max: nat, s: State, id: InvitationId, provision: bool, at: int)
    requires SystemInv(max, s)
    ensures SystemInv(max, DoResend(max, s, id, provision, at))
  {
    if id in s.invitations && Rotatable(s.invitations[id]) {
      var s' := DoResend(max, s, id, provision, at);
      var inv := s'.invitations[id];
      assert s'.invitations.Keys == s.invitations.Keys;
      var mail := Mail(Some(ResendKey(id, inv.resends)), inv.address, s.nextSecret, None, None);
      ScheduleKeeps(max, s.mails, s.invitations.Keys, mail, at);
      ScheduleKeepsWorld(max, s.mails, mail, at);
      EnqueueGuestKeeps(max, s.guests, s.invitations.Keys, Guest(id, inv.workspace, inv.address, None, false), at);
      EnqueueKeepsWorld(max, s.guests, Guest(id, inv.workspace, inv.address, None, false), at);
    }
  }

  lemma OtherMailFollows(s: State, mails: MailBox, key: Option<EmailKey>)
    requires EmailFollowsProvisioning(s) && MailsGrow(s.mails, mails) && NewMailsHave(s.mails, mails, key)
    requires key.Some? ==> key.value.OtherKey?
    ensures EmailFollowsProvisioning(s.(mails := mails))
  {}

  lemma OtherMailKeepsInv(max: nat, s: State, mail: Mail, at: int)
    requires SystemInv(max, s) && mail.messageId.None? && (mail.key.Some? ==> mail.key.value.OtherKey?)
    ensures SystemInv(max, s.(mails := Schedule(max, s.mails, mail, at)))
  {
    var mails := Schedule(max, s.mails, mail, at);
    ScheduleKeeps(max, s.mails, s.invitations.Keys, mail, at);
    ScheduleKeepsWorld(max, s.mails, mail, at);
    OtherMailFollows(s, mails, mail.key);
  }

  /** A request that only settles or rotates an invitation, or adds a workspace, leaves both outboxes alone. */
  lemma LocalRequestKeepsInv(max: nat, s: State, s': State)
    requires SystemInv(max, s) && s'.guests == s.guests && s'.mails == s.mails
    requires s'.invitations.Keys == s.invitations.Keys && s'.nextInvitation == s.nextInvitation
    ensures SystemInv(max, s')
  {}

  lemma RequestKeepsInv(max: nat, s: State, r: Request)
    requires SystemInv(max, s)
    ensures SystemInv(max, DoRequest(max, s, r))
  {
    match r
    case Invite(workspace, address, provision, at) => InviteKeepsInv(max, s, workspace, address, provision, at);
    case Resend(id, provision, at) => ResendKeepsInv(max, s, id, provision, at);
    case ScheduleOther(mail, at) =>
      if !((mail.key.Some? && !mail.key.value.OtherKey?) || mail.messageId.Some?) { OtherMailKeepsInv(max, s, mail, at); }
    case _ => LocalRequestKeepsInv(max, s, DoRequest(max, s, r));
  }

  /** What a successful finish does to the mails: at most one new one, under the invitation's own key. */
  lemma FinishSentMails(max: nat, s: State, known: set<InvitationId>, row: Guest, link: Option<Secret>)
    requires Inv(max, s.mails.world) && MailsOk(s.mails, known) && known == s.invitations.Keys
    ensures var m' := ScheduleInviteEmail(max, s, row, link);
            && Inv(max, m'.world) && MailsOk(m', known)
            && MailsGrow(s.mails, m') && NewMailsHave(s.mails, m', Some(InviteKey(row.invitation)))
  {
    if link.Some? && LinkIsLive(s.invitations, row.invitation, link.value) {
      var mail := InviteMail(row.invitation, row.address, link.value);
      ScheduleKeeps(max, s.mails, known, mail, s.mails.world.now);
      ScheduleKeepsWorld(max, s.mails, mail, s.mails.world.now);
    }
  }

  lemma FinishSentOrder(s: State, g': GuestBox, m': MailBox, id: Id)
    requires EmailFollowsProvisioning(s) && s.guests.rows.Keys == s.guests.world.rows.Keys
    requires OnePerInvitation(s.guests.rows) && OnlyScrubs(s.guests, g') && id in s.guests.rows
    requires MailsGrow(s.mails, m') && NewMailsHave(s.mails, m', Some(InviteKey(s.guests.rows[id].invitation)))
    requires g'.world.rows[id].status.Sent?
    ensures forall g <- g'.rows, m <- m'.rows ::
              g in g'.world.rows && g'.rows[g].owesEmail && m'.rows[m].key == Some(InviteKey(g'.rows[g].invitation))
              ==> g'.world.rows[g].status.Sent?
  {
    forall g <- g'.rows, m <- m'.rows |
      g'.rows[g].owesEmail && m'.rows[m].key == Some(InviteKey(g'.rows[g].invitation))
      ensures g'.world.rows[g].status.Sent?
    {
      assert s.guests.rows[g].owesEmail && s.guests.rows[g].invitation == g'.rows[g].invitation;
      if g != id {
        assert s.guests.rows[g].invitation != s.guests.rows[id].invitation;
        assert m in s.mails.rows && m'.rows[m].key == m'.rows[m].(messageId := None).key;
        assert s.mails.rows[m].key == s.mails.rows[m].(messageId := None).key;
      }
    }
  }

  lemma FinishSentKeepsInv(max: nat, s: State, token: Token, id: Id)
    requires SystemInv(max, s) && CommitsSent(s.guests.world, token, id)
    ensures SystemInv(max, GuestStep(max, s, Finish(token, id)))
  {
    FinishSentParts(max, s, token, id);
    var outcome := s.guests.world.jobs[(token, id)].phase.outcome.result;
    FinishSentKeeps(max, s, Recorded(s, id, outcome), GuestStep(max, s, Finish(token, id)), token, id);
  }

  lemma FinishSentParts(max: nat, s: State, token: Token, id: Id)
    requires CommitsSent(s.guests.world, token, id) && id in s.guests.rows
    ensures var s' := GuestStep(max, s, Finish(token, id));
            var recorded := Recorded(s, id, s.guests.world.jobs[(token, id)].phase.outcome.result);
            && s' == recorded.(guests := s'.guests, mails := s'.mails)
            && s'.guests == s.guests.(world := Step(max, s.guests.world, Finish(token, id)), rows := Scrub(s.guests.rows, id))
            && s'.mails == ScheduleInviteEmail(max, recorded, s.guests.rows[id], Remembered(s.guests, token, id))
            && recorded.mails == s.mails && recorded.invitations.Keys == s.invitations.Keys
            && recorded.nextInvitation == s.nextInvitation
  {}

  lemma FinishSentKeeps(max: nat, s: State, recorded: State, s': State, token: Token, id: Id)
    requires SystemInv(max, s) && CommitsSent(s.guests.world, token, id)
    requires recorded.mails == s.mails && recorded.invitations.Keys == s.invitations.Keys
    requires recorded.nextInvitation == s.nextInvitation && s' == recorded.(guests := s'.guests, mails := s'.mails)
    requires s'.guests == s.guests.(world := Step(max, s.guests.world, Finish(token, id)), rows := Scrub(s.guests.rows, id))
    requires s'.mails == ScheduleInviteEmail(max, recorded, s.guests.rows[id], Remembered(s.guests, token, id))
    ensures SystemInv(max, s')
  {
    FinishSentGuests(max, s.guests, s.invitations.Keys, token, id);
    FinishSentMails(max, recorded, s.invitations.Keys, s.guests.rows[id], Remembered(s.guests, token, id));
    FinishSentAssembles(max, s, s', id);
  }

  lemma FinishSentAssembles(max: nat, s: State, s': State, id: Id)
    requires EmailFollowsProvisioning(s) && s.guests.rows.Keys == s.guests.world.rows.Keys
    requires OnePerInvitation(s.guests.rows) && id in s.guests.rows
    requires s'.invitations.Keys == s.invitations.Keys
    requires forall i <- s'.invitations :: i < s'.nextInvitation
    requires Inv(max, s'.guests.world) && GuestsOk(s'.guests, s.invitations.Keys)
    requires OnlyScrubs(s.guests, s'.guests) && s'.guests.world.rows[id].status.Sent?
    requires Inv(max, s'.mails.world) && MailsOk(s'.mails, s.invitations.Keys)
    requires MailsGrow(s.mails, s'.mails)
    requires NewMailsHave(s.mails, s'.mails, Some(InviteKey(s.guests.rows[id].invitation)))
    ensures SystemInv(max, s')
  {
    FinishSentOrder(s, s'.guests, s'.mails, id);
  }

  lemma FinishSentGuests(max: nat, g: GuestBox, known: set<InvitationId>, token: Token, id: Id)
    requires Inv(max, g.world) && GuestsOk(g, known) && CommitsSent(g.world, token, id)
    ensures var g' := g.(world := Step(max, g.world, Finish(token, id)), rows := Scrub(g.rows, id));
            Inv(max, g'.world) && GuestsOk(g', known) && OnlyScrubs(g, g') && g'.world.rows[id].status.Sent?
  {
    FinishSentScrubs(max, g, known, token, id);
    StepKeepsInv(max, g.world, Finish(token, id));
    FinishStep(max, g.world, token, id);
  }

  /** A guest step that adds no mail and sends nothing back from `sent`. */
  ghost predicate OnlyScrubs(g: GuestBox, g': GuestBox)
    requires g.rows.Keys == g.world.rows.Keys
  {
    && g'.rows.Keys == g.rows.Keys && g'.world.rows.Keys == g.world.rows.Keys
    && (forall id <- g.rows ::
          g'.rows[id].owesEmail == g.rows[id].owesEmail && g'.rows[id].invitation == g.rows[id].invitation
          && (g.world.rows[id].status.Sent? ==> g'.world.rows[id].status.Sent?))
  }

  lemma GuestsOnlyKeepsInv(max: nat, s: State, g: GuestBox)
    requires SystemInv(max, s) && Inv(max, g.world) && GuestsOk(g, s.invitations.Keys)
    requires OnlyScrubs(s.guests, g)
    ensures SystemInv(max, s.(guests := g))
  {
    var s' := s.(guests := g);
    forall i <- s'.guests.rows, m <- s'.mails.rows |
      s'.guests.rows[i].owesEmail && s'.mails.rows[m].key == Some(InviteKey(s'.guests.rows[i].invitation))
      ensures s'.guests.world.rows[i].status.Sent?
    {
      assert s.guests.rows[i].owesEmail && s.guests.rows[i].invitation == g.rows[i].invitation;
    }
  }

  lemma FinishFailedKeepsInv(max: nat, s: State, token: Token, id: Id)
    requires SystemInv(max, s) && !CommitsSent(s.guests.world, token, id)
    ensures SystemInv(max, s.(guests := FinishFailed(max, s.guests, token, id)))
  {
    StepKeepsInv(max, s.guests.world, Finish(token, id));
    FinishFailedKeeps(max, s.guests, s.invitations.Keys, token, id);
    FinishFailedOnlyScrubs(max, s.guests, token, id);
    GuestsOnlyKeepsInv(max, s, FinishFailed(max, s.guests, token, id));
  }

  lemma FinishFailedOnlyScrubs(max: nat, g: GuestBox, token: Token, id: Id)
    requires Inv(max, g.world) && g.rows.Keys == g.world.rows.Keys
    ensures OnlyScrubs(g, FinishFailed(max, g, token, id))
  {
    FinishStep(max, g.world, token, id);
    if Commits(g.world, token, id) { assert RowInv(max, g.world, id); }
  }

  lemma ClaimKeepsSystemInv(max: nat, s: State, offered: set<Id>, hold: nat)
    requires SystemInv(max, s)
    ensures SystemInv(max, s.(guests := ClaimGuests(max, s.guests, offered, hold)))
  {
    StepKeepsInv(max, s.guests.world, Claim(offered, hold));
    ClaimGuestsKeeps(max, s.guests, s.invitations.Keys, offered, hold);
    ClaimStep(max, s.guests.world, offered, hold);
    GuestsOnlyKeepsInv(max, s, ClaimGuests(max, s.guests, offered, hold));
  }

  lemma AnswerKeepsSystemInv(max: nat, s: State, token: Token, id: Id, outcome: Outcome<GuestOutcome>)
    requires SystemInv(max, s)
    ensures SystemInv(max, GuestStep(max, s, Return(token, id, outcome)))
  {
    StepKeepsInv(max, s.guests.world, Return(token, id, outcome));
    AnsweredGuestKeeps(max, s.guests, s.invitations.Keys, token, id, outcome);
    AnswerStep(max, s.guests.world, token, id, outcome);
    GuestsOnlyKeepsInv(max, s, s.guests.(world := Step(max, s.guests.world, Return(token, id, outcome))));
  }

  lemma GuestStepKeepsInv(max: nat, s: State, e: Event<GuestOutcome>)
    requires SystemInv(max, s)
    ensures SystemInv(max, GuestStep(max, s, e))
  {
    match e
    case Enqueue(_, _) =>
    case Finish(token, id) =>
      if CommitsSent(s.guests.world, token, id) { FinishSentKeepsInv(max, s, token, id); }
      else { FinishFailedKeepsInv(max, s, token, id); }
    case Claim(offered, hold) => ClaimKeepsSystemInv(max, s, offered, hold);
    case Return(token, id, outcome) => AnswerKeepsSystemInv(max, s, token, id, outcome);
    case _ => QuietGuestStepKeepsInv(max, s, e);
  }

  lemma QuietGuestStepKeepsInv(max: nat, s: State, e: Event<GuestOutcome>)
    requires SystemInv(max, s) && (e.Advance? || e.Renew? || e.FinishThrows? || e.Crash?)
    ensures SystemInv(max, GuestStep(max, s, e))
  {
    StepKeepsInv(max, s.guests.world, e);
    QuietStep(max, s.guests.world, e);
    QuietGuestKeeps(s.guests, s.invitations.Keys, Step(max, s.guests.world, e));
    GuestsOnlyKeepsInv(max, s, s.guests.(world := Step(max, s.guests.world, e)));
  }

  lemma EmailStepKeepsInv(max: nat, s: State, e: MailEvent)
    requires SystemInv(max, s)
    ensures SystemInv(max, s.(mails := MailStep(max, s.mails, e)))
  {
    MailStepKeeps(max, s.mails, s.invitations.Keys, e);
    MailStepKeepsWorld(max, s.mails, e);
    MailStepOnlyFinishes(max, s.mails, e);
    var m' := MailStep(max, s.mails, e);
    forall m <- m'.rows ensures m in s.mails.rows && m'.rows[m].key == s.mails.rows[m].key {
      assert m'.rows[m].(messageId := None).key == s.mails.rows[m].(messageId := None).key;
    }
  }

  lemma SystemStepKeepsInv(max: nat, s: State, e: SystemEvent)
    requires SystemInv(max, s)
    ensures SystemInv(max, SystemStep(max, s, e))
  {
    match e
    case Api(request) => RequestKeepsInv(max, s, request);
    case GuestRelay(event) => GuestStepKeepsInv(max, s, event);
    case EmailRelay(event) => EmailStepKeepsInv(max, s, event);
  }

  lemma {:induction false} RunKeepsSystemInv(max: nat, s: State, es: seq<SystemEvent>)
    requires SystemInv(max, s)
    ensures SystemInv(max, SystemRun(max, s, es))
    decreases |es|
  {
    if es != [] {
      SystemStepKeepsInv(max, s, es[0]);
      RunKeepsSystemInv(max, SystemStep(max, s, es[0]), es[1..]);
    }
  }
}
