/**
 * The invitation email across two relays: the guest-invite relay provisions the invitee and, in the transaction that
 * marks its row `sent`, schedules the email that the email relay sends
 * (apps/worker/src/identity/entra-guest-invite-relay.service.ts,
 * libs/platform/src/email/email-scheduler.service.ts, apps/worker/src/email/email-relay.service.ts), together with the
 * requests that create, resend, copy, cancel, accept and expire invitations.
 *
 * A run is any interleaving of requests and of the two relays' protocol events.
 */
module InvitationEmail {
  import opened Wrappers
  import opened OutboxLease

  type Secret = nat
  type InvitationId = nat
  type Workspace = nat
  type Address = nat
  type ObjectId = nat
  type MessageId = nat

  /** Collision-free by construction. */
  datatype Hash = Sha256(secret: Secret)

  datatype InvitationStatus = Open | Accepted | Cancelled | Expired

  datatype Invitation = Invitation(
    workspace: Workspace, address: Address, status: InvitationStatus, tokenHash: Hash,
    guestObjectId: Option<ObjectId>, resends: nat)

  /** The payload of a `guest_invite_outbox` row. `owesEmail` remembers whether it was enqueued with a token. */
  datatype Guest = Guest(
    invitation: InvitationId, workspace: Workspace, address: Address, inviteToken: Option<Secret>, owesEmail: bool)

  datatype GuestOutcome = Invited(objectId: Option<ObjectId>) | AlreadyInDirectory

  datatype EmailKey = InviteKey(id: InvitationId) | ResendKey(id: InvitationId, n: nat) | OtherKey(n: nat)

  /** The payload of an `email_outbox` row; only some mails name an internal recipient. */
  datatype Mail = Mail(
    key: Option<EmailKey>, to: Address, link: Secret, recipient: Option<nat>, messageId: Option<MessageId>)

  /** `idempotencyKey ?? id` */
  datatype SendKey = ByKey(key: EmailKey) | ByRow(id: Id)

  /** `guest_invite_outbox`, and the token each worker read when it claimed a row. */
  datatype GuestBox = GuestBox(
    world: World<GuestOutcome>,
    rows: map<Id, Guest>,
    carried: map<(Token, Id), Option<Secret>>,
    next: Id)

  /** `email_outbox`, and what the provider accepted. */
  datatype MailBox = MailBox(
    world: World<Option<MessageId>>,
    rows: map<Id, Mail>,
    sends: set<(Id, SendKey, MessageId)>,
    next: Id)

  datatype State = State(
    guests: GuestBox,
    mails: MailBox,
    invitations: map<InvitationId, Invitation>,
    workspaces: set<Workspace>,
    nextSecret: Secret,
    nextInvitation: InvitationId)

  function SendKeyOf(id: Id, mail: Mail): SendKey {
    if mail.key.Some? then ByKey(mail.key.value) else ByRow(id)
  }

  // ── Inserting with ON CONFLICT DO NOTHING ──────────────────────────────────

  predicate KeyTaken(rows: map<Id, Mail>, key: Option<EmailKey>) {
    key.Some? && exists id <- rows :: rows[id].key == key
  }

  /** EmailSchedulerService.schedule */
  function Schedule(max: nat, m: MailBox, mail: Mail, dueAt: int): MailBox {
    if KeyTaken(m.rows, mail.key) then m
    else m.(world := Step(max, m.world, Enqueue(m.next, dueAt)), rows := m.rows[m.next := mail], next := m.next + 1)
  }

  predicate Provisioning(rows: map<Id, Guest>, invitation: InvitationId) {
    exists id <- rows :: rows[id].invitation == invitation
  }

  /** GuestInviteSchedulerService.schedule, with the flag on */
  function EnqueueGuest(max: nat, g: GuestBox, guest: Guest, dueAt: int): GuestBox {
    if Provisioning(g.rows, guest.invitation) then g
    else g.(world := Step(max, g.world, Enqueue(g.next, dueAt)), rows := g.rows[g.next := guest], next := g.next + 1)
  }

  // ── The requests ───────────────────────────────────────────────────────────

  datatype Request =
    | CreateWorkspace(workspace: Workspace)
    | Invite(workspace: Workspace, address: Address, provision: bool, at: int)
    | Resend(invitation: InvitationId, provision: bool, at: int)
    | CopyLink(invitation: InvitationId)
    | Settle(invitation: InvitationId, verdict: InvitationStatus)  // cancel, accept, or expire a pending invitation
    | ScheduleOther(mail: Mail, at: int)

  /** At most one open invitation per address: inviting again cancels the open one. */
  function CancelFor(invitations: map<InvitationId, Invitation>, workspace: Workspace, address: Address)
    : map<InvitationId, Invitation>
  {
    map id | id in invitations ::
      if invitations[id].workspace == workspace && invitations[id].address == address && invitations[id].status.Open?
      then invitations[id].(status := Cancelled)
      else invitations[id]
  }

  function InviteMail(id: InvitationId, to: Address, link: Secret): Mail {
    Mail(Some(InviteKey(id)), to, link, None, None)
  }

  function DoInvite(max: nat, s: State, workspace: Workspace, address: Address, provision: bool, at: int): State {
    var id, secret := s.nextInvitation, s.nextSecret;
    var inv := Invitation(workspace, address, Open, Sha256(secret), None, 0);
    s.(invitations := CancelFor(s.invitations, workspace, address)[id := inv],
       nextInvitation := id + 1,
       nextSecret := secret + 1,
       guests := if provision then EnqueueGuest(max, s.guests, Guest(id, workspace, address, Some(secret), true), at)
                 else s.guests,
       mails := if provision then s.mails else Schedule(max, s.mails, InviteMail(id, address, secret), at))
  }

  predicate Rotatable(inv: Invitation) {
    inv.status.Open? || inv.status.Expired?
  }

  /** rotateForResend: a fresh token on the same row, revived to pending. */
  function Rotate(s: State, id: InvitationId): State
    requires id in s.invitations
  {
    var inv := s.invitations[id];
    s.(invitations := s.invitations[id := inv.(tokenHash := Sha256(s.nextSecret), status := Open, resends := inv.resends + 1)],
       nextSecret := s.nextSecret + 1)
  }

  function DoResend(max: nat, s: State, id: InvitationId, provision: bool, at: int): State {
    if id !in s.invitations || !Rotatable(s.invitations[id]) then s
    else
      var rotated := Rotate(s, id);
      var inv := rotated.invitations[id];
      rotated.(
        mails := Schedule(max, s.mails, Mail(Some(ResendKey(id, inv.resends)), inv.address, s.nextSecret, None, None), at),
        guests := if provision then EnqueueGuest(max, s.guests, Guest(id, inv.workspace, inv.address, None, false), at)
                  else s.guests)
  }

  function DoRequest(max: nat, s: State, r: Request): State {
    match r
    case CreateWorkspace(workspace) => s.(workspaces := s.workspaces + {workspace})
    case Invite(workspace, address, provision, at) => DoInvite(max, s, workspace, address, provision, at)
    case Resend(id, provision, at) => DoResend(max, s, id, provision, at)
    case CopyLink(id) => if id in s.invitations && Rotatable(s.invitations[id]) then Rotate(s, id) else s
    case Settle(id, verdict) =>
      if id in s.invitations && s.invitations[id].status.Open?
      then s.(invitations := s.invitations[id := s.invitations[id].(status := verdict)])
      else s
    case ScheduleOther(mail, at) =>
      if (mail.key.Some? && !mail.key.value.OtherKey?) || mail.messageId.Some? then s
      else s.(mails := Schedule(max, s.mails, mail, at))
  }

  // ── The guest-invite relay ─────────────────────────────────────────────────

  /** The invitation still has the link the row carries, and is still open. */
  predicate LinkIsLive(invitations: map<InvitationId, Invitation>, invitation: InvitationId, link: Secret) {
    && invitation in invitations
    && invitations[invitation].status.Open?
    && invitations[invitation].tokenHash == Sha256(link)
  }

  /** scheduleInviteEmail, from the row the worker remembers. */
  function ScheduleInviteEmail(max: nat, s: State, row: Guest, token: Option<Secret>): MailBox {
    if token.None? then s.mails
    else if !LinkIsLive(s.invitations, row.invitation, token.value) then s.mails
    else if row.workspace !in s.workspaces then s.mails
    else Schedule(max, s.mails, InviteMail(row.invitation, row.address, token.value), s.mails.world.now)
  }

  function RecordObjectId(invitations: map<InvitationId, Invitation>, invitation: InvitationId, outcome: GuestOutcome)
    : map<InvitationId, Invitation>
  {
    if outcome.Invited? && outcome.objectId.Some? && invitation in invitations
    then invitations[invitation := invitations[invitation].(guestObjectId := outcome.objectId)]
    else invitations
  }

  function Scrub(rows: map<Id, Guest>, id: Id): map<Id, Guest>
    requires id in rows
  {
    rows[id := rows[id].(inviteToken := None)]
  }

  function Remembered(g: GuestBox, token: Token, id: Id): Option<Secret> {
    if (token, id) in g.carried then g.carried[(token, id)] else None
  }

  /** settle, first half: the guest's object id on the invitation */
  function Recorded(s: State, id: Id, outcome: GuestOutcome): State
    requires id in s.guests.rows
  {
    s.(invitations := RecordObjectId(s.invitations, s.guests.rows[id].invitation, outcome))
  }

  /** settle, then markSent, in one fenced transaction */
  function FinishSent(max: nat, s: State, token: Token, id: Id, outcome: GuestOutcome): State
    requires id in s.guests.rows
  {
    var row, recorded := s.guests.rows[id], Recorded(s, id, outcome);
    recorded.(
      mails := ScheduleInviteEmail(max, recorded, row, Remembered(s.guests, token, id)),
      guests := s.guests.(world := Step(max, s.guests.world, Finish(token, id)), rows := Scrub(s.guests.rows, id)))
  }

  /** markFailed: a terminal row never keeps the token, a retry still needs it */
  function FinishFailed(max: nat, g: GuestBox, token: Token, id: Id): GuestBox {
    var world := Step(max, g.world, Finish(token, id));
    g.(world := world,
       rows := if id in g.rows && id in world.rows && world.rows[id].status.Failed? then Scrub(g.rows, id) else g.rows)
  }

  /** The claim: reapColumns scrubs what the reaper dead-letters; each taken row is read with its token. */
  function ClaimGuests(max: nat, g: GuestBox, offered: set<Id>, hold: nat): GuestBox {
    var world := Step(max, g.world, Claim(offered, hold));
    var rows := map id | id in g.rows ::
      if id in g.world.rows && Abandoned(g.world.rows[id], max, g.world.now)
      then g.rows[id].(inviteToken := None) else g.rows[id];
    g.(world := world,
       rows := rows,
       carried := map k | k in world.jobs ::
         if k in g.carried && k in g.world.jobs then g.carried[k]
         else if k.1 in rows then rows[k.1].inviteToken else None)
  }

  function GuestStep(max: nat, s: State, e: Event<GuestOutcome>): State {
    match e
    case Enqueue(_, _) => s  // rows come from requests
    case Claim(offered, hold) => s.(guests := ClaimGuests(max, s.guests, offered, hold))
    case Finish(token, id) =>
      if id in s.guests.rows && CommitsSent(s.guests.world, token, id)
      then FinishSent(max, s, token, id, s.guests.world.jobs[(token, id)].phase.outcome.result)
      else s.(guests := FinishFailed(max, s.guests, token, id))
    case _ => s.(guests := s.guests.(world := Step(max, s.guests.world, e)))
  }

  // ── The email relay ────────────────────────────────────────────────────────

  /** The provider accepts during the call; the worker may never learn of it. */
  datatype MailEvent = Protocol(e: Event<Option<MessageId>>) | Accepts(token: Token, id: Id, message: MessageId)

  predicate InCall<R>(w: World<R>, token: Token, id: Id) {
    (token, id) in w.jobs && w.jobs[(token, id)].phase.Calling?
  }

  function ProviderAccepts(m: MailBox, id: Id, message: MessageId): MailBox {
    if id in m.rows then m.(sends := m.sends + {(id, SendKeyOf(id, m.rows[id]), message)}) else m
  }

  /** A success: suppressed by preference (only a mail that names a recipient asks), or accepted by the provider. */
  function DeliverMail(max: nat, m: MailBox, token: Token, id: Id, result: Option<MessageId>): MailBox {
    if !InCall(m.world, token, id) || id !in m.rows then m
    else
      var world := Step(max, m.world, Return(token, id, Succeeded(result)));
      match result
      case None => if m.rows[id].recipient.Some? then m.(world := world) else m
      case Some(message) => ProviderAccepts(m, id, message).(world := world)
  }

  /** markSent stores the message id with the status. */
  function FinishMail(max: nat, m: MailBox, token: Token, id: Id): MailBox {
    var world := Step(max, m.world, Finish(token, id));
    if id in m.rows && CommitsSent(m.world, token, id)
    then m.(world := world,
            rows := m.rows[id := m.rows[id].(messageId := m.world.jobs[(token, id)].phase.outcome.result)])
    else m.(world := world)
  }

  function MailStep(max: nat, m: MailBox, e: MailEvent): MailBox {
    match e
    case Accepts(token, id, message) => if InCall(m.world, token, id) then ProviderAccepts(m, id, message) else m
    case Protocol(Enqueue(_, _)) => m
    case Protocol(Return(token, id, Succeeded(result))) => DeliverMail(max, m, token, id, result)
    case Protocol(Finish(token, id)) => FinishMail(max, m, token, id)
    case Protocol(other) => m.(world := Step(max, m.world, other))
  }

  // ── Runs ───────────────────────────────────────────────────────────────────

  datatype SystemEvent = Api(request: Request) | GuestRelay(e: Event<GuestOutcome>) | EmailRelay(m: MailEvent)

  function SystemStep(max: nat, s: State, e: SystemEvent): State {
    match e
    case Api(request) => DoRequest(max, s, request)
    case GuestRelay(event) => GuestStep(max, s, event)
    case EmailRelay(event) => s.(mails := MailStep(max, s.mails, event))
  }

  function NewSystem(): State {
    State(GuestBox(Empty(), map[], map[], 0), MailBox(Empty(), map[], {}, 0), map[], {}, 0, 0)
  }

  function SystemRun(max: nat, s: State, es: seq<SystemEvent>): State
    decreases |es|
  {
    if es == [] then s else SystemRun(max, SystemStep(max, s, es[0]), es[1..])
  }
}
