/**
 * What the requests and the relays write on an invitation, column by column: which link opens it, which links no longer do,
 * who is told, and where the guest's object id goes.
 */
module InvitationEffects {
  import opened Wrappers
  import opened OutboxLease
  import opened OutboxShapes
  import opened InvitationEmail
  import opened InvitationInvariant
  import opened InvitationTheorems

  /** The link opens the invitation: it is pending, and its stored hash is the link's. */
  ghost predicate Opens(s: State, id: InvitationId, link: Secret) {
    id in s.invitations && s.invitations[id].status == Open && s.invitations[id].tokenHash == Sha256(link)
  }

  /** Both kinds of rotation: the fresh link opens the invitation, no other does, and no other invitation changes. */
  ghost predicate Rotated(s: State, s': State, id: InvitationId, link: Secret)
    requires id in s.invitations
  {
    var inv := s.invitations[id];
    && s.nextSecret <= link < s'.nextSecret
    && s'.invitations == s.invitations[id :=
         Invitation(inv.workspace, inv.address, Open, Sha256(link), inv.guestObjectId, inv.resends + 1)]
    && forall other :: Opens(s', id, other) <==> other == link
  }

  // ── Resend ─────────────────────────────────────────────────────────────────

  /** Resends are numbered: no mail has the key of one that has not happened. */
  ghost predicate ResendKeysOk(s: State) {
    forall m <- s.mails.rows :: NumberedSoFar(s, s.mails.rows[m].key)
  }

  ghost predicate NumberedSoFar(s: State, key: Option<EmailKey>) {
    key.Some? && key.value.ResendKey? ==> key.value.id in s.invitations && key.value.n <= s.invitations[key.value.id].resends
  }

  /** Nothing takes back a resend, and a new mail has the key of one that has happened. */
  lemma NumbersStay(s: State, s': State)
    requires ResendKeysOk(s)
    requires forall id <- s.invitations :: id in s'.invitations && s.invitations[id].resends <= s'.invitations[id].resends
    requires forall m <- s'.mails.rows ::
               (m in s.mails.rows && s'.mails.rows[m].key == s.mails.rows[m].key) || NumberedSoFar(s', s'.mails.rows[m].key)
    ensures ResendKeysOk(s')
  {
    forall m <- s'.mails.rows ensures NumberedSoFar(s', s'.mails.rows[m].key) {
      if m in s.mails.rows { assert NumberedSoFar(s, s.mails.rows[m].key); }
    }
  }

  lemma ScheduledKeepsNumbers(max: nat, s: State, s': State, mail: Mail, at: int)
    requires ResendKeysOk(s) && s'.mails == Schedule(max, s.mails, mail, at) && NumberedSoFar(s', mail.key)
    requires forall id <- s.invitations :: id in s'.invitations && s.invitations[id].resends <= s'.invitations[id].resends
    ensures ResendKeysOk(s')
  {
    NumbersStay(s, s');
  }

  lemma InviteKeepsNumbers(max: nat, s: State, workspace: Workspace, address: Address, provision: bool, at: int, s': State)
    requires SystemInv(max, s) && ResendKeysOk(s) && s' == DoInvite(max, s, workspace, address, provision, at)
    ensures ResendKeysOk(s')
  {
    if provision {
      NumbersStay(s, s');
    } else {
      ScheduledKeepsNumbers(max, s, s', InviteMail(s.nextInvitation, address, s.nextSecret), at);
    }
  }

  lemma RequestKeepsNumbers(max: nat, s: State, r: Request)
    requires SystemInv(max, s) && ResendKeysOk(s)
    ensures ResendKeysOk(DoRequest(max, s, r))
  {
    var s' := DoRequest(max, s, r);
    match r
    case Invite(workspace, address, provision, at) => InviteKeepsNumbers(max, s, workspace, address, provision, at, s');
    case Resend(id, _, at) =>
      if s' != s {
        var mail := Mail(Some(ResendKey(id, s'.invitations[id].resends)), s.invitations[id].address, s.nextSecret, None, None);
        ScheduledKeepsNumbers(max, s, s', mail, at);
      }
    case ScheduleOther(mail, at) => if s' != s { ScheduledKeepsNumbers(max, s, s', mail, at); }
    case _ => NumbersStay(s, s');
  }

  lemma FinishKeepsNumbers(max: nat, s: State, token: Token, id: Id, s': State)
    requires ResendKeysOk(s) && s' == GuestStep(max, s, Finish(token, id))
    ensures ResendKeysOk(s')
  {
    if s'.mails == s.mails {
      NumbersStay(s, s');
    } else {
      var row := s.guests.rows[id];
      var link := Remembered(s.guests, token, id);
      ScheduledKeepsNumbers(max, s, s', InviteMail(row.invitation, row.address, link.value), s.mails.world.now);
    }
  }

  lemma GuestStepKeepsNumbers(max: nat, s: State, e: Event<GuestOutcome>)
    requires SystemInv(max, s) && ResendKeysOk(s)
    ensures ResendKeysOk(GuestStep(max, s, e))
  {
    match e
    case Finish(token, id) => FinishKeepsNumbers(max, s, token, id, GuestStep(max, s, e));
    case _ =>
      assert GuestStep(max, s, e).mails == s.mails && GuestStep(max, s, e).invitations == s.invitations;
      NumbersStay(s, GuestStep(max, s, e));
  }

  lemma MailStepKeepsNumbers(max: nat, s: State, e: MailEvent)
    requires ResendKeysOk(s)
    ensures ResendKeysOk(s.(mails := MailStep(max, s.mails, e)))
  {
    NumbersStay(s, s.(mails := MailStep(max, s.mails, e)));
  }

  lemma {:induction false} RunKeepsNumbers(max: nat, s: State, es: seq<SystemEvent>)
    requires SystemInv(max, s) && ResendKeysOk(s)
    ensures ResendKeysOk(SystemRun(max, s, es))
    decreases |es|
  {
    if es != [] {
      match es[0] {
        case Api(request) => RequestKeepsNumbers(max, s, request);
        case GuestRelay(event) => GuestStepKeepsNumbers(max, s, event);
        case EmailRelay(event) => MailStepKeepsNumbers(max, s, event);
      }
      SystemStepKeepsInv(max, s, es[0]);
      RunKeepsNumbers(max, SystemStep(max, s, es[0]), es[1..]);
    }
  }

  /** The next resend's key is free, and so is the next row of either outbox. */
  lemma NextIsFree(max: nat, s: State, id: InvitationId)
    requires Reachable(max, s) && id in s.invitations
    ensures forall m <- s.mails.rows :: m != s.mails.next && s.mails.rows[m].key != Some(ResendKey(id, s.invitations[id].resends + 1))
    ensures s.mails.next !in s.mails.world.rows
    ensures s.guests.next !in s.guests.rows && s.guests.next !in s.guests.world.rows
  {
    ReachableKeepsInv(max, s);
    var es :| s == SystemRun(max, NewSystem(), es);
    RunKeepsNumbers(max, NewSystem(), es);
    forall m <- s.mails.rows
      ensures m != s.mails.next && s.mails.rows[m].key != Some(ResendKey(id, s.invitations[id].resends + 1))
    {
      assert MailOk(s.mails, s.invitations.Keys, m) && NumberedSoFar(s, s.mails.rows[m].key);
    }
    forall g <- s.guests.rows ensures g != s.guests.next { assert GuestOk(s.guests, s.invitations.Keys, g); }
  }

  /**
   * Resending a pending or expired invitation: the link that is mailed is the one link that opens it from then on, under a
   * key of this resend's own; every earlier link is dead. Provisioning is queued without a token, and only if there is none.
   */
  lemma ResendMailsTheLiveLink(max: nat, s: State, id: InvitationId, provision: bool, at: int)
    requires Reachable(max, s)
    requires id in s.invitations && (s.invitations[id].status == Open || s.invitations[id].status == Expired)
    ensures var s', inv := DoRequest(max, s, Resend(id, provision, at)), s.invitations[id];
            && s.mails.next !in s.mails.rows && s.mails.next in s'.mails.rows
            && Rotated(s, s', id, s'.mails.rows[s.mails.next].link)
            && s'.mails.rows[s.mails.next] ==
               Mail(Some(ResendKey(id, inv.resends + 1)), inv.address, s'.mails.rows[s.mails.next].link, None, None)
            && s'.mails.rows == s.mails.rows[s.mails.next := s'.mails.rows[s.mails.next]]
            && s.mails.next in s'.mails.world.rows && s'.mails.world.rows[s.mails.next] == Row(Pending, 0, at, None, None)
            && s'.guests.rows ==
               if !provision || exists g <- s.guests.rows :: s.guests.rows[g].invitation == id then s.guests.rows
               else s.guests.rows[s.guests.next := Guest(id, inv.workspace, inv.address, None, false)]
  {
    NextIsFree(max, s, id);
  }

  /** An earlier link: with fresh secrets, whatever was mailed before does not open the invitation any more. */
  lemma ResendKillsOldLinks(max: nat, s: State, id: InvitationId, provision: bool, at: int, earlier: Secret)
    requires id in s.invitations && (s.invitations[id].status == Open || s.invitations[id].status == Expired)
    requires earlier < s.nextSecret
    ensures !Opens(DoRequest(max, s, Resend(id, provision, at)), id, earlier)
    ensures !Opens(DoRequest(max, s, CopyLink(id)), id, earlier)
  {}

  /** Copying the link rotates it too, and tells nobody. */
  lemma CopyRotates(max: nat, s: State, id: InvitationId)
    requires id in s.invitations && (s.invitations[id].status == Open || s.invitations[id].status == Expired)
    ensures var s' := DoRequest(max, s, CopyLink(id));
            Rotated(s, s', id, s.nextSecret) && s'.mails == s.mails && s'.guests == s.guests && s'.nextSecret == s.nextSecret + 1
  {}

  /** An accepted or cancelled invitation, or one that does not exist, is not rotated. */
  lemma SettledIsNotRotated(max: nat, s: State, id: InvitationId, provision: bool, at: int)
    requires id in s.invitations ==> s.invitations[id].status == Accepted || s.invitations[id].status == Cancelled
    ensures DoRequest(max, s, Resend(id, provision, at)) == s && DoRequest(max, s, CopyLink(id)) == s
  {}

  // ── Invite ─────────────────────────────────────────────────────────────────

  /** Inviting cancels exactly the open invitations of the address, and adds one that the new secret alone opens. */
  lemma InviteWrites(max: nat, s: State, workspace: Workspace, address: Address, provision: bool, at: int)
    requires Reachable(max, s)
    ensures var s', id := DoRequest(max, s, Invite(workspace, address, provision, at)), s.nextInvitation;
            && s'.invitations.Keys == s.invitations.Keys + {id} && id !in s.invitations
            && s'.invitations[id] == Invitation(workspace, address, Open, Sha256(s.nextSecret), None, 0)
            && (forall other <- s.invitations ::
                  var inv := s.invitations[other];
                  s'.invitations[other] ==
                    if inv.workspace == workspace && inv.address == address && inv.status == Open
                    then inv.(status := Cancelled) else inv)
            && s'.nextSecret == s.nextSecret + 1 && s'.nextInvitation == id + 1
  {
    ReachableKeepsInv(max, s);
  }

  /** The link goes one way: in the mail, or with the queued provisioning, and in either case it is the one that opens it. */
  lemma InviteSendsTheLiveLink(max: nat, s: State, workspace: Workspace, address: Address, provision: bool, at: int)
    requires Reachable(max, s)
    ensures var s', id := DoRequest(max, s, Invite(workspace, address, provision, at)), s.nextInvitation;
            if provision then
              && s'.mails == s.mails && s.guests.next !in s.guests.rows
              && s'.guests.rows == s.guests.rows[s.guests.next := Guest(id, workspace, address, Some(s.nextSecret), true)]
              && s.guests.next in s'.guests.world.rows && s'.guests.world.rows[s.guests.next] == Row(Pending, 0, at, None, None)
              && Opens(s', id, s'.guests.rows[s.guests.next].inviteToken.value)
            else
              && s'.guests == s.guests && s.mails.next !in s.mails.rows
              && s'.mails.rows == s.mails.rows[s.mails.next := Mail(Some(InviteKey(id)), address, s.nextSecret, None, None)]
              && s.mails.next in s'.mails.world.rows && s'.mails.world.rows[s.mails.next] == Row(Pending, 0, at, None, None)
              && Opens(s', id, s'.mails.rows[s.mails.next].link)
  {
    ReachableKeepsInv(max, s);
    forall m <- s.mails.rows ensures m != s.mails.next && s.mails.rows[m].key != Some(InviteKey(s.nextInvitation)) {
      assert MailOk(s.mails, s.invitations.Keys, m);
    }
    forall g <- s.guests.rows ensures g != s.guests.next && s.guests.rows[g].invitation != s.nextInvitation {
      assert GuestOk(s.guests, s.invitations.Keys, g);
    }
  }

  /** Cancelling, accepting and expiring change the status of a pending invitation and nothing else at all. */
  lemma SettleWrites(max: nat, s: State, id: InvitationId, verdict: InvitationStatus)
    ensures DoRequest(max, s, Settle(id, verdict)) ==
            if id in s.invitations && s.invitations[id].status == Open
            then s.(invitations := s.invitations[id := s.invitations[id].(status := verdict)]) else s
  {}

  /** A mail of another kind is added as it is unless its key is taken; a workspace is only added. */
  lemma OtherRequestsWrite(max: nat, s: State, mail: Mail, at: int, workspace: Workspace)
    requires (mail.key.Some? ==> mail.key.value.OtherKey?) && mail.messageId.None? && s.mails.next !in s.mails.world.rows
    ensures var s', taken := DoRequest(max, s, ScheduleOther(mail, at)),
                             mail.key.Some? && exists m <- s.mails.rows :: s.mails.rows[m].key == mail.key;
            && s' == s.(mails := s'.mails)
            && (taken ==> s'.mails == s.mails)
            && (!taken ==>
                  && s'.mails.rows == s.mails.rows[s.mails.next := mail] && s'.mails.next == s.mails.next + 1
                  && s'.mails.sends == s.mails.sends
                  && s'.mails.world.rows == s.mails.world.rows[s.mails.next := Row(Pending, 0, at, None, None)])
    ensures DoRequest(max, s, CreateWorkspace(workspace)) == s.(workspaces := s.workspaces + {workspace})
  {}

  // ── The guest relay ────────────────────────────────────────────────────────

  /** A committed success that created the guest records its object id on the row's own invitation, and nowhere else. */
  lemma FinishRecordsTheGuest(max: nat, s: State, token: Token, id: Id, objectId: ObjectId)
    requires Reachable(max, s) && id in s.guests.rows && CommitsSent(s.guests.world, token, id)
    requires s.guests.world.jobs[(token, id)].phase.outcome.result == Invited(Some(objectId))
    ensures var s', invitation := GuestStep(max, s, Finish(token, id)), s.guests.rows[id].invitation;
            && invitation in s.invitations
            && s'.invitations == s.invitations[invitation := s.invitations[invitation].(guestObjectId := Some(objectId))]
  {
    ReachableKeepsInv(max, s);
    assert GuestOk(s.guests, s.invitations.Keys, id);
  }

  /** Without an object id, and for somebody who is in the directory already, no invitation changes. */
  lemma FinishRecordsNothingElse(max: nat, s: State, token: Token, id: Id)
    requires id in s.guests.rows && CommitsSent(s.guests.world, token, id)
    requires var outcome := s.guests.world.jobs[(token, id)].phase.outcome.result;
             outcome == AlreadyInDirectory || outcome == Invited(None)
    ensures GuestStep(max, s, Finish(token, id)).invitations == s.invitations
  {}

  /**
   * The email a success owes, in the columns of three tables: exactly when the row still carries a token, the invitation is
   * pending with that token's hash, its workspace exists, and no mail has its key.
   */
  lemma FinishMailsTheLiveLink(max: nat, s: State, token: Token, id: Id)
    requires Reachable(max, s) && id in s.guests.rows && CommitsSent(s.guests.world, token, id)
    ensures var s', row := GuestStep(max, s, Finish(token, id)), s.guests.rows[id];
            var owed := row.inviteToken.Some? && Opens(s, row.invitation, row.inviteToken.value) && row.workspace in s.workspaces
                        && forall m <- s.mails.rows :: s.mails.rows[m].key != Some(InviteKey(row.invitation));
            && s'.mails.rows ==
               (if owed
                then s.mails.rows[s.mails.next := Mail(Some(InviteKey(row.invitation)), row.address, row.inviteToken.value, None, None)]
                else s.mails.rows)
            && s'.guests.rows == s.guests.rows[id := row.(inviteToken := None)]
            && s'.workspaces == s.workspaces && s'.nextSecret == s.nextSecret && s'.nextInvitation == s.nextInvitation
  {
    FinishCommitsTogether(max, s, token, id);
  }

  /** A finish that does not succeed scrubs the token exactly when it fails the row for good. */
  lemma FailureScrubsOnlyAtTheEnd(max: nat, s: State, token: Token, id: Id)
    requires Reachable(max, s) && id in s.guests.rows && Commits(s.guests.world, token, id)
    requires !s.guests.world.jobs[(token, id)].phase.outcome.Succeeded?
    ensures var s', row := GuestStep(max, s, Finish(token, id)), s.guests.rows[id];
            && s' == s.(guests := s'.guests) && id in s'.guests.world.rows
            && s'.guests.world == Step(max, s.guests.world, Finish(token, id))
            && s'.guests.rows == if s'.guests.world.rows[id].status == Failed
                                 then s.guests.rows[id := row.(inviteToken := None)] else s.guests.rows
  {
    ReachableKeepsInv(max, s);
    FinishStep(max, s.guests.world, token, id);
  }

  /** A claim scrubs the tokens of exactly the rows it dead-letters, and a worker reads the token of what it takes. */
  lemma ClaimReadsTheToken(max: nat, s: State, offered: set<Id>, hold: nat, id: Id)
    requires Reachable(max, s) && id in s.guests.rows
    ensures var s', row, job := GuestStep(max, s, Claim(offered, hold)), s.guests.rows[id], (s.guests.world.nextToken, id);
            && id in s.guests.world.rows && id in s'.guests.world.rows && id in s'.guests.rows
            && s'.guests.rows[id] ==
               (if s.guests.world.rows[id].status == Pending && s'.guests.world.rows[id].status == Failed
                then row.(inviteToken := None) else row)
            && (job in s'.guests.world.jobs ==> job in s'.guests.carried && s'.guests.carried[job] == row.inviteToken)
            && (forall k <- s.guests.world.jobs ::
                  k in s.guests.carried && k in s'.guests.carried && s'.guests.carried[k] == s.guests.carried[k])
  {
    ReachableKeepsInv(max, s);
    var w := s.guests.world;
    forall k <- w.jobs ensures k.0 != w.nextToken && k in s.guests.carried { assert JobInv(w, k) && CarriedOk(s.guests, k); }
    ClaimStep(max, w, offered, hold);
  }

  // ── The email relay ────────────────────────────────────────────────────────

  /** What the provider accepts is remembered under the mail's own key, or its row id, whether or not the worker lives. */
  lemma AcceptanceIsRemembered(max: nat, m: MailBox, token: Token, id: Id, message: MessageId)
    requires id in m.rows && (token, id) in m.world.jobs && m.world.jobs[(token, id)].phase.Calling?
    ensures var sent := (id, if m.rows[id].key.Some? then ByKey(m.rows[id].key.value) else ByRow(id), message);
            && MailStep(max, m, Accepts(token, id, message)) == m.(sends := m.sends + {sent})
            && MailStep(max, m, Protocol(Return(token, id, Succeeded(Some(message))))) ==
               m.(sends := m.sends + {sent}, world := Step(max, m.world, Return(token, id, Succeeded(Some(message)))))
  {}

  /** Only a mail that names a recipient can be suppressed, and then nothing is sent. */
  lemma SuppressionNeedsARecipient(max: nat, m: MailBox, token: Token, id: Id)
    requires id in m.rows && (token, id) in m.world.jobs && m.world.jobs[(token, id)].phase.Calling?
    ensures var m' := MailStep(max, m, Protocol(Return(token, id, Succeeded(None))));
            m' == if m.rows[id].recipient.Some? then m.(world := Step(max, m.world, Return(token, id, Succeeded(None)))) else m
  {}

  /** The finish of a mail stores the answer's message id with the status, and nothing without a committed success. */
  lemma FinishStoresTheMessageId(max: nat, m: MailBox, token: Token, id: Id)
    requires id in m.rows && (token, id) in m.world.jobs && m.world.jobs[(token, id)].phase.Returned?
    ensures var m', phase := MailStep(max, m, Protocol(Finish(token, id))), m.world.jobs[(token, id)].phase;
            && m'.world == Step(max, m.world, Finish(token, id)) && m'.sends == m.sends && m'.next == m.next
            && m'.rows == if phase.outcome.Succeeded? && id in m.world.rows && m.world.rows[id].leaseToken == Some(token)
                          then m.rows[id := m.rows[id].(messageId := phase.outcome.result)] else m.rows
  {}

  /** Out of its call a worker's acceptance or success is nothing; every other event is the protocol's own. */
  lemma OtherMailEventsWrite(
    max: nat, m: MailBox, token: Token, id: Id, message: MessageId, result: Option<MessageId>, e: Event<Option<MessageId>>)
    ensures !((token, id) in m.world.jobs && m.world.jobs[(token, id)].phase == Calling) || id !in m.rows ==>
              MailStep(max, m, Protocol(Return(token, id, Succeeded(result)))) == m
    ensures !((token, id) in m.world.jobs && m.world.jobs[(token, id)].phase == Calling) ==>
              MailStep(max, m, Accepts(token, id, message)) == m
    ensures e.Enqueue? ==> MailStep(max, m, Protocol(e)) == m
    ensures !e.Enqueue? && !e.Finish? && !(e.Return? && e.outcome.Succeeded?) ==>
              MailStep(max, m, Protocol(e)) == m.(world := Step(max, m.world, e))
  {}

  lemma OtherGuestEventsWrite(max: nat, s: State, e: Event<GuestOutcome>)
    ensures e.Enqueue? ==> GuestStep(max, s, e) == s
    ensures !e.Enqueue? && !e.Finish? && !e.Claim? ==>
              GuestStep(max, s, e) == s.(guests := s.guests.(world := Step(max, s.guests.world, e)))
  {}

  /** The two relays and the requests share nothing but the tables. */
  lemma EventsAreRouted(max: nat, s: State, request: Request, e: Event<GuestOutcome>, m: MailEvent)
    ensures SystemStep(max, s, Api(request)) == DoRequest(max, s, request)
    ensures SystemStep(max, s, GuestRelay(e)) == GuestStep(max, s, e)
    ensures SystemStep(max, s, EmailRelay(m)) == s.(mails := MailStep(max, s.mails, m))
  {}
}
