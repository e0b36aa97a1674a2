/**
 * The invitation tables as the guest-invite relay, the email scheduler and the email relay change them, statement by
 * statement, each method proved to commit what InvitationEmail says.
 */
module InvitationTables {
  import opened Wrappers
  import opened OutboxLease
  import opened InvitationEmail

  class Database {
    const maxAttempts: nat
    var guests: GuestBox
    var mails: MailBox
    var invitations: map<InvitationId, Invitation>
    var workspaces: set<Workspace>
    var nextSecret: Secret
    var nextInvitation: InvitationId

    constructor (maxAttempts: nat)
      ensures this.maxAttempts == maxAttempts && Contents() == NewSystem()
    {
      this.maxAttempts := maxAttempts;
      guests := GuestBox(Empty(), map[], map[], 0);
      mails := MailBox(Empty(), map[], {}, 0);
      invitations, workspaces := map[], {};
      nextSecret, nextInvitation := 0, 0;
    }

    function Contents(): State
      reads this
    {
      State(guests, mails, invitations, workspaces, nextSecret, nextInvitation)
    }

    /** EmailSchedulerService.schedule: insert, ON CONFLICT DO NOTHING. */
    method ScheduleEmail(mail: Mail, dueAt: int)
      modifies this`mails
      ensures mails == Schedule(maxAttempts, old(mails), mail, dueAt)
    {
      if KeyTaken(mails.rows, mail.key) { return; }
      mails := mails.(world := Step(maxAttempts, mails.world, Enqueue(mails.next, dueAt)));
      mails := mails.(rows := mails.rows[mails.next := mail]);
      mails := mails.(next := mails.next + 1);
    }

    /** GuestInviteSchedulerService.schedule; answers whether the flag was on, not whether a row was inserted. */
    method ScheduleGuestInvite(flag: bool, guest: Guest, dueAt: int) returns (queued: bool)
      modifies this`guests
      ensures queued == flag
      ensures guests == if flag then EnqueueGuest(maxAttempts, old(guests), guest, dueAt) else old(guests)
    {
      if !flag { return false; }
      if !Provisioning(guests.rows, guest.invitation) {
        guests := guests.(world := Step(maxAttempts, guests.world, Enqueue(guests.next, dueAt)));
        guests := guests.(rows := guests.rows[guests.next := guest], next := guests.next + 1);
      }
      return true;
    }

    /** WorkspaceService.inviteMember */
    method InviteMember(workspace: Workspace, address: Address, flag: bool, at: int) returns (id: InvitationId)
      modifies this
      ensures Contents() == DoInvite(maxAttempts, old(Contents()), workspace, address, flag, at)
      ensures id == old(nextInvitation)
    {
      id := nextInvitation;
      var rawToken := nextSecret;
      nextInvitation, nextSecret := nextInvitation + 1, nextSecret + 1;
      invitations := CancelFor(invitations, workspace, address);
      invitations := invitations[id := Invitation(workspace, address, Open, Sha256(rawToken), None, 0)];
      var queued := ScheduleGuestInvite(flag, Guest(id, workspace, address, Some(rawToken), true), at);
      if !queued {
        ScheduleEmail(InviteMail(id, address, rawToken), at);
      }
    }

    /** WorkspaceService.resendInvitation: rotate, mail the new link inline, and make sure provisioning is queued. */
    method ResendInvitation(id: InvitationId, flag: bool, at: int) returns (ok: bool)
      modifies this
      ensures Contents() == DoResend(maxAttempts, old(Contents()), id, flag, at)
      ensures ok == (id in old(invitations) && Rotatable(old(invitations)[id]))
    {
      if id !in invitations || !Rotatable(invitations[id]) { return false; }
      var rawToken := nextSecret;
      nextSecret := nextSecret + 1;
      var rotated := invitations[id].(tokenHash := Sha256(rawToken), status := Open, resends := invitations[id].resends + 1);
      invitations := invitations[id := rotated];
      ScheduleEmail(Mail(Some(ResendKey(id, rotated.resends)), rotated.address, rawToken, None, None), at);
      var _ := ScheduleGuestInvite(flag, Guest(id, rotated.workspace, rotated.address, None, false), at);
      return true;
    }

    /** scheduleInviteEmail, from the row the worker remembers. */
    method ScheduleInvitationEmail(row: Guest, token: Option<Secret>)
      modifies this`mails
      ensures mails == ScheduleInviteEmail(maxAttempts, old(Contents()), row, token)
    {
      if token.None? { return; }
      if row.invitation !in invitations { return; }
      var invitation := invitations[row.invitation];
      if invitation.status != Open || invitation.tokenHash != Sha256(token.value) { return; }
      if row.workspace !in workspaces { return; }
      ScheduleEmail(InviteMail(row.invitation, row.address, token.value), mails.world.now);
    }

    /** The finish of a delivered guest row: settle and markSent behind the fence, one transaction. */
    method FinishGuestSent(token: Token, id: Id, outcome: GuestOutcome)
      requires CommitsSent(guests.world, token, id) && id in guests.rows
      requires guests.world.jobs[(token, id)].phase.outcome.result == outcome
      modifies this
      ensures Contents() == GuestStep(maxAttempts, old(Contents()), Finish(token, id))
    {
      var row := guests.rows[id];
      if outcome.Invited? && outcome.objectId.Some? && row.invitation in invitations {
        invitations := invitations[row.invitation := invitations[row.invitation].(guestObjectId := outcome.objectId)];
      }
      ScheduleInvitationEmail(row, Remembered(guests, token, id));
      guests := guests.(rows := guests.rows[id := row.(inviteToken := None)]);
      guests := guests.(world := Step(maxAttempts, guests.world, Finish(token, id)));
    }

    /** The finish of a refused or failed guest row: markFailed scrubs only a terminal row. */
    method FinishGuestFailed(token: Token, id: Id)
      requires !CommitsSent(guests.world, token, id)
      modifies this`guests
      ensures Contents() == GuestStep(maxAttempts, old(Contents()), Finish(token, id))
    {
      guests := guests.(world := Step(maxAttempts, guests.world, Finish(token, id)));
      if id in guests.rows && id in guests.world.rows && guests.world.rows[id].status == Failed {
        guests := guests.(rows := guests.rows[id := guests.rows[id].(inviteToken := None)]);
      }
    }

    /** The finish of a mail: the message id in the write that flips the status. */
    method FinishEmail(token: Token, id: Id)
      modifies this`mails
      ensures mails == FinishMail(maxAttempts, old(mails), token, id)
    {
      var sent := id in mails.rows && CommitsSent(mails.world, token, id);
      if sent {
        var result := mails.world.jobs[(token, id)].phase.outcome.result;
        mails := mails.(rows := mails.rows[id := mails.rows[id].(messageId := result)]);
      }
      mails := mails.(world := Step(maxAttempts, mails.world, Finish(token, id)));
    }
  }
}
