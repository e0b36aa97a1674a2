# Verification of Rova's concurrent and retried components

A Dafny model of the parts of Rova that run under concurrency, crashes or retries, with proofs of what they keep.

- **Outbox relays** (`OutboxLease`, `OutboxShapes`, `OutboxTheorems`, `OutboxEffects`, `OutboxTable`). A worker claims due rows under a
  fresh lease token and spends an attempt, renews the lease right before an external call made with no transaction open,
  and finishes in a transaction fenced on the token; a reaper dead-letters abandoned rows. A run is any sequence of events
  by any number of workers: claims, renewals, answers, finishes, finishes that throw, crashes and clock movement. An event
  that is not possible does nothing, so every interleaving is a run.
- **The relays built on it.** `InvitationEmail`, `InvitationInvariant`, `InvitationTheorems`, `InvitationEffects` and `InvitationTables`
  couple the guest-invite relay, the email scheduler and the email relay with the requests that create, resend, copy, cancel, accept
  and expire invitations. `AuditProjection` is the audit log. `Notifications`, `NotificationTheorems`, `NotificationEffects` and
  `NotificationTables` are the notification relay with its post-commit task.
- **The MCP identity bridge.** `AccessBinding` and `AccessVerdicts` (racing first logins), `CallTokens` (single-use tokens over time),
  `RoutePolicy` (route templates up to parameter names) and `GuardChain` (hook and guards of many requests over one store).
- **Migration history.** `Migrations` judges the stranded-migration detector against what the runner did over whole
  histories; `LegacyHead` adds the legacy-head script.
- **Algorithmic cores.** `ChunkGuard` (search over build chunks), `Retention` and `FileSweep` (the daily sweep),
  `RoleRepoint` (role assignments), `LikePattern` and `DeliveryStatus` (latest row of a key family), `Health` (schedule
  arithmetic), `PercentCodec`, `DatabaseUrl` and `ServiceVersion` (a percent-encoding printer and parser).

`Wrappers` and `Text` hold what they share. Code that changes tables, maps or fields step by step is a method or a class
whose `ensures` equate the new state with a specification function; the results are lemmas about those functions over all
inputs and runs.

## What the model found

Each of these is a property one would expect of the code that does not hold on every input; the lemma named proves it,
and where there is an exact condition, proves that too.

- `NotificationTheorems.EmailCanBeLost`: a worker that dies between its in-app insert and its finish loses the email for
  ever. The redelivery finds the notification already there, answers null, and leaves no post-commit task. `EmailCanComeIff`
  is the exact condition, in every reachable state, under which the email can still come; `EmailLostIff` is what it says
  of a row that is sent or failed, also when the process dies between the finish and its task.
- `OutboxTheorems.DeferringHasNoBudget`: a deferral gives its attempt back, so a row can be delivered any number of times.
  `BudgetIsExact`: among runs with d deferrals a number bounds the deliveries if and only if it is at least maxAttempts + d,
  so maxAttempts alone is a bound exactly when nothing defers.
- `FileSweep.OrphansIffSwallowed`: the sweep's comment says that a failed object delete keeps its row for the next run.
  `StorageService.deleteObject` swallows its errors, so the row goes and the object is forgotten; the lemma says exactly when,
  and `SwallowedDeleteLeavesAnOrphan` shows a sweep that does it.
- `RoleRepoint.GrantLostIff` and `ForeignTwinLosesTheGrant`: the delete of twins does not compare workspaces, so a twin
  of the copy role in another workspace makes this workspace lose a grant.
- `Migrations.KnownEditDependsOnRowOrder`: when two rows share a timestamp the last one wins, so whether an edited file is
  excused depends on row order. `OrderMattersIff` and `ReportIgnoresOrderIff` say exactly when.
- `LikePattern.ExactIffNoBackslash`: the delivery-status query escapes `%` and `_` but not the backslash, which is LIKE's
  escape character. So a root with a backslash can lose its resends (`DeliveryStatus.BackslashLosesAResend`), though not
  every one does; `DeliveryStatus.StatusIsRightIff` is the exact boundary, one match a caller can check.
- `PercentCodec.EncodeIffWellFormed`: `encodeURIComponent` throws on a lone surrogate, so credentials that hold one cannot
  be composed into a URL (`DatabaseUrl.ResolvesIff`).
- `Health.FinishedIsSafeIff`: finished work can be reported late under a threshold that is not positive.

The comment on `McpPrincipalGuard` says that it reads no header; the code reads the call-token header, and the model
follows the code.

## Model

| member | source | states |
|---|---|---|
| `OutboxTables.OutboxTable.Reap` | libs/platform/src/outbox/abstract-outbox-relay.ts:359-381 | dead-letters exactly the pending rows with every attempt spent and no live lease, and counts them |
| `OutboxTables.OutboxTable.Claim` | libs/platform/src/outbox/abstract-outbox-relay.ts:501-558 | reaps, then leases exactly the offered rows that are due and not leased |
| `OutboxTables.OutboxTable.RenewLease` | libs/platform/src/outbox/abstract-outbox-relay.ts:431-439 | succeeds exactly for the holder of the token and moves only that row's lease |
| `OutboxTables.OutboxTable.RefundAttempt` | libs/platform/src/outbox/abstract-outbox-relay.ts:442-448 | gives one attempt back and never goes below zero |
| `OutboxTables.OutboxTable.MarkFailed` | apps/worker/src/audit/audit-projection.relay.ts:185-201 | writes the status, and moves the due time only for a retry |
| `OutboxTables.OutboxTable.Finish` | libs/platform/src/outbox/abstract-outbox-relay.ts:635-727 | commits exactly when the token still holds the row, and then writes what the outcome, the attempt and the clock say and releases the lease; otherwise writes nothing |
| `OutboxLease.StepKeepsInv` | db/schema/outbox-lease.ts:4-18 | every event keeps the protocol's bookkeeping: attempts within the maximum, leases only on pending rows, attempts plus refunds equal to claims, and every waiting worker's claim not yet called |
| `OutboxLease.RunKeepsInv` | db/schema/outbox-lease.ts:4-18 | the same over every run |
| `OutboxTheorems.SentExactlyByFencedSuccess` | libs/platform/src/outbox/abstract-outbox-relay.ts:592-651 | a row becomes sent in an event if and only if the event is the fenced finish of its own successful delivery |
| `OutboxTheorems.TerminalRowsNeverChange` | libs/platform/src/outbox/abstract-outbox-relay.ts:352-424 | a sent or failed row is the same row after any further run |
| `OutboxTheorems.OneSentTransition` | apps/worker/src/identity/entra-guest-invite-relay.service.ts:214-281 | over any run a row makes at most one transition to sent, and one exactly if it ends sent |
| `OutboxTheorems.LostLeaseStaysLost` | libs/platform/src/outbox/abstract-outbox-relay.ts:416-424 | a worker whose lease is gone never holds the row again, over any run |
| `OutboxTheorems.ReplacedWorkerChangesNothing` | libs/platform/src/outbox/abstract-outbox-relay.ts:416-439 | once another claim took the row, whatever the first worker does, however much later, changes no row |
| `OutboxTheorems.DeliveriesAreBounded` | libs/platform/src/outbox/abstract-outbox-relay.ts:387-448 | with any crashes a row is delivered at most maxAttempts times plus once per deferral |
| `OutboxTheorems.AttemptsNeverFall` | libs/platform/src/outbox/abstract-outbox-relay.ts:387-448 | the counter rises exactly when a claim takes the row and falls, by one, exactly at a committed deferral |
| `OutboxTheorems.RankStep` | db/schema/outbox-lease.ts:8-12 | no event but a deferral raises the number of services a row still needs |
| `OutboxTheorems.ServiceLowersRank` | libs/platform/src/outbox/abstract-outbox-relay.ts:501-558 | a claim that reaches a pending row once its delay and lease have passed lowers that number |
| `OutboxTheorems.EveryRowTerminates` | db/schema/outbox-lease.ts:8-12 | whatever happens between the services, a row is terminal after as many services as its rank plus the deferrals |
| `OutboxTheorems.RefusalEndsTheRow` | libs/platform/src/outbox/abstract-outbox-relay.ts:654-727 | a non-retryable refusal fails the row at once; a retryable one fails it exactly on the last attempt and otherwise moves it into the future |
| `OutboxTheorems.BackoffDoublesToTheCap` | libs/platform/src/outbox/abstract-outbox-relay.ts:302-311 | the delay is 30 seconds doubled with each attempt, and half an hour once that would exceed it |
| `OutboxTheorems.DeferringHasNoBudget` | libs/platform/src/outbox/abstract-outbox-relay.ts:654-681 | for every n there is a run of exactly n deliveries and n committed deferrals that leaves the row pending with the attempts it had |
| `OutboxTheorems.BudgetIsExact` | libs/platform/src/outbox/abstract-outbox-relay.ts:654-727 | over the runs in which a fresh row is deferred d times, a number bounds its deliveries if and only if it is at least maxAttempts + d |
| `OutboxTheorems.BoundedFromTheStart` | db/schema/outbox-lease.ts:8-12 | for a row not there yet, over any run: the bound with deferrals, and plain maxAttempts when no delivery answers with one |
| `OutboxEffects.LiveLeaseIsLeftAlone` | libs/platform/src/outbox/abstract-outbox-relay.ts:352-354 | no claim and no reaper touches a row whose lease has not run out |
| `OutboxEffects.NotYetDueIsLeftAlone` | apps/worker/src/identity/entra-guest-invite-relay.service.ts:170-177 | nor one whose time has not come while it has attempts left |
| `OutboxEffects.ClaimWrites` | libs/platform/src/outbox/abstract-outbox-relay.ts:359-413 | the columns of every row after a claim: dead-lettered, leased with one attempt more, or as it was, and the job it starts |
| `OutboxEffects.ClaimTouchesNothingElse` | libs/platform/src/outbox/abstract-outbox-relay.ts:501-558 | no other job begins or ends, and the next claim has a fresh token |
| `OutboxEffects.RenewWrites` | libs/platform/src/outbox/abstract-outbox-relay.ts:431-439 | the holder's lease moves to the new end and its call starts; anyone else only drops the row |
| `OutboxEffects.ThrowWrites` | libs/platform/src/outbox/abstract-outbox-relay.ts:621-631 | a finish that throws writes nothing, and a success is then to be recorded as a retry |
| `OutboxEffects.RetryIsDueAfter` | libs/platform/src/outbox/abstract-outbox-relay.ts:302-311 | a retried row is due after the longer of the hint, kept within 0 and an hour, and 30 seconds doubled per earlier attempt up to half an hour |
| `OutboxEffects.FinishWrites` | libs/platform/src/outbox/abstract-outbox-relay.ts:654-727 | the columns after a success, a refusal, the last attempt, and a deferral of up to an hour or five minutes |
| `OutboxEffects.FinishTouchesNothingElse` | libs/platform/src/outbox/abstract-outbox-relay.ts:635-651 | a finish ends its own job and touches its own row, and without the lease not even that |
| `OutboxEffects.LeaseExcludesOthers` | libs/platform/src/outbox/abstract-outbox-relay.ts:352-439 | over any run that ends before the lease does, and without an act of its holder, the row stays exactly as it is |
| `OutboxEffects.NobodyElseUntil` | libs/platform/src/outbox/abstract-outbox-relay.ts:387-439 | so a claimed or renewed row is its worker's alone until the clock passes the end that was stored |
| `InvitationTables.Database.ScheduleEmail` | libs/platform/src/email/email-scheduler.service.ts:56-82 | inserts the mail unless its key is taken, and then nothing |
| `InvitationTables.Database.ScheduleGuestInvite` | libs/modules/workspace/src/application/guest-invite-scheduler.service.ts:79-120 | answers the flag, and enqueues at most one row per invitation |
| `InvitationTables.Database.InviteMember` | libs/modules/workspace/src/application/workspace.service.ts:646-780 | cancels the open invitation of the address, creates a new one, and queues provisioning or the email, never both |
| `InvitationTables.Database.ResendInvitation` | libs/modules/workspace/src/application/workspace.service.ts:789-876 | rotates the token of a pending or expired invitation, mails the new link under a fresh key, and queues provisioning without a token |
| `InvitationTables.Database.ScheduleInvitationEmail` | apps/worker/src/identity/entra-guest-invite-relay.service.ts:301-359 | mails exactly the link that is still the invitation's own, while it is pending |
| `InvitationTables.Database.FinishGuestSent` | apps/worker/src/identity/entra-guest-invite-relay.service.ts:214-281 | object id, email, scrub and status together, as one protocol step |
| `InvitationTables.Database.FinishGuestFailed` | apps/worker/src/identity/entra-guest-invite-relay.service.ts:377-398 | a terminal row loses its token, a retried one keeps it |
| `InvitationTables.Database.FinishEmail` | apps/worker/src/email/email-relay.service.ts:157-186 | stores the message id in the write that flips the status |
| `InvitationInvariant.SystemStepKeepsInv` | apps/worker/src/identity/entra-guest-invite-relay.service.ts:150-398 | every request and every event of either relay keeps the invariant of the two outboxes and the invitations |
| `InvitationInvariant.RunKeepsSystemInv` | apps/worker/src/identity/entra-guest-invite-relay.service.ts:150-398 | the same over every run |
| `InvitationTheorems.NoTokenOncePendingEnds` | apps/worker/src/identity/entra-guest-invite-relay.service.ts:150-157 | in every reachable state a guest row that is not pending holds no token, whichever exit it took |
| `InvitationTheorems.FinishCommitsTogether` | apps/worker/src/identity/entra-guest-invite-relay.service.ts:214-359 | a finish without the lease writes nothing; a failure touches neither invitation nor mail; a success sends, scrubs, records the object id, and inserts the email exactly when the row's link is live, its workspace exists and the key is free |
| `InvitationTheorems.OnlySuccessInsertsAnEmail` | apps/worker/src/identity/entra-guest-invite-relay.service.ts:256-359 | no other event of the relay inserts an email, and that one only while the invitation is pending and the token hashes to the stored value |
| `InvitationTheorems.OneEmailPerInvitation` | libs/platform/src/email/email-scheduler.service.ts:61-74 | at most one email row exists per invitation key |
| `InvitationTheorems.EmailOnlyAfterProvisioning` | libs/modules/workspace/src/application/workspace.service.ts:703-759 | an invitation that owes its email to the relay has none before its guest row is sent |
| `InvitationTheorems.SendsCarryTheKey` | apps/worker/src/email/email-relay.service.ts:145-154 | every provider send for an invitation carries its key, and two sends share a key exactly if they are of one row |
| `InvitationTheorems.SentMailHasItsMessageId` | apps/worker/src/email/email-relay.service.ts:157-166 | a stored message id is one the provider gave for the row's own key, and only a mail with a recipient is sent without one |
| `InvitationTheorems.EmailOutboxIsARun` | apps/worker/src/email/email-relay.service.ts:98-186 | the email outbox inside the system is a run of the lease protocol, so its results hold there |
| `InvitationTheorems.EmailDeliveriesAreBounded` | apps/worker/src/email/email-relay.service.ts:98-155 | the delivery bound for every mail over every run of the system, deferrals of the provider counted, and one sent transition exactly if it ends sent |
| `InvitationTheorems.GuestOutboxIsARun` | apps/worker/src/identity/entra-guest-invite-relay.service.ts:159-212 | the guest outbox inside the system is a run of the lease protocol |
| `InvitationTheorems.ProvisioningIsBounded` | apps/worker/src/identity/entra-guest-invite-relay.service.ts:196-212 | over every run of the system an invitation makes at most maxAttempts directory calls, since the directory client never defers |
| `InvitationEffects.NextIsFree` | libs/modules/workspace/src/application/workspace.service.ts:817-822 | in every reachable state the key of an invitation's next resend, and the next row of either outbox, are free |
| `InvitationEffects.ResendMailsTheLiveLink` | libs/modules/workspace/src/application/workspace.service.ts:809-822 | the link a resend mails is the one link that opens the invitation afterwards, under a key of its own; provisioning is queued at most once and without a token |
| `InvitationEffects.ResendKillsOldLinks` | libs/modules/workspace/src/application/workspace.service.ts:809-822 | after a resend or a copy no earlier secret opens the invitation |
| `InvitationEffects.CopyRotates` | libs/modules/workspace/src/application/workspace.service.ts:880-915 | copying the link rotates it and tells nobody |
| `InvitationEffects.SettledIsNotRotated` | libs/modules/workspace/src/application/workspace.service.ts:795-800 | an accepted or cancelled invitation is not rotated by either |
| `InvitationEffects.InviteWrites` | libs/modules/workspace/src/application/workspace.service.ts:646-705 | exactly the open invitations of the address are cancelled, and the new one is opened by the new secret alone |
| `InvitationEffects.InviteSendsTheLiveLink` | libs/modules/workspace/src/application/workspace.service.ts:733-759 | the link goes in the mail or with the queued provisioning, never both, and it opens the invitation |
| `InvitationEffects.FinishRecordsTheGuest` | apps/worker/src/identity/entra-guest-invite-relay.service.ts:218-239 | a committed success records the guest's object id on the row's own invitation and nowhere else |
| `InvitationEffects.FinishRecordsNothingElse` | apps/worker/src/identity/entra-guest-invite-relay.service.ts:218-239 | without an object id no invitation changes |
| `InvitationEffects.FinishMailsTheLiveLink` | apps/worker/src/identity/entra-guest-invite-relay.service.ts:256-359 | the email of a success in the columns of three tables, and what the finish leaves alone |
| `InvitationEffects.FailureScrubsOnlyAtTheEnd` | apps/worker/src/identity/entra-guest-invite-relay.service.ts:377-398 | a failure scrubs the token exactly when it fails the row for good |
| `InvitationEffects.ClaimReadsTheToken` | apps/worker/src/identity/entra-guest-invite-relay.service.ts:155-157 | a claim scrubs exactly the rows it dead-letters, and a worker reads the token of what it takes |
| `InvitationEffects.AcceptanceIsRemembered` | apps/worker/src/email/email-relay.service.ts:145-154 | a provider's acceptance is under the mail's own key, or its row id, whether or not the worker lives |
| `InvitationEffects.SuppressionNeedsARecipient` | apps/worker/src/email/email-relay.service.ts:124-140 | only a mail that names a recipient can be suppressed, and then nothing is sent |
| `InvitationEffects.FinishStoresTheMessageId` | apps/worker/src/email/email-relay.service.ts:157-166 | the answer's message id is stored exactly by a committed success |
| `AuditProjection.AuditTables.CreateRow` | libs/modules/audit/src/infrastructure/persistence/audit.drizzle-repository.ts:14-37 | inserts unless the source event is recorded; a row without a source never conflicts |
| `AuditProjection.AuditTables.DeliverEvent` | apps/worker/src/audit/audit-projection.relay.ts:151-176 | one delivery is the insert of the event's own projection |
| `AuditProjection.AuditRunKeeps` | apps/worker/src/audit/audit-projection.relay.ts:151-201 | emits, direct records, redeliveries and crashes after the insert keep the log's invariant |
| `AuditProjection.AuditLogRefinesOutbox` | db/schema/audit.ts:25-37 | after any run each outbox row has at most one audit row, a published one exactly one, and field by field it tells the event's own story and time, whichever attempt wrote it |
| `AuditProjection.DeliveryInserts` | apps/worker/src/audit/audit-projection.relay.ts:151-176 | a delivery, and one whose worker dies after the insert, adds one such row unless the source has one |
| `AuditProjection.LogOnlyGrows` | apps/worker/src/audit/audit-projection.relay.ts:151-176 | what is in the log stays there, in order, unchanged |
| `AuditProjection.ProjectionsAreBounded` | apps/worker/src/audit/audit-projection.relay.ts:151-176 | the audit outbox is a run of the lease protocol in which every event is projected at most maxAttempts times |
| `NotificationTables.Tables.CreateNotification` | libs/modules/notifications/src/infrastructure/persistence/notification.drizzle-repository.ts:163-185 | inserts unless the source id is taken, and says which |
| `NotificationTables.Tables.Deliver` | apps/worker/src/notifications/notification-relay.service.ts:176-223 | opted out, unrenderable, duplicate or new: the answer and the one row written in each case |
| `NotificationTables.Tables.ScheduleNotificationEmail` | apps/worker/src/notifications/notification-relay.service.ts:266-303 | at most one email per notification, none without an address |
| `NotificationTheorems.NotifyRunKeeps` | apps/worker/src/notifications/notification-relay.service.ts:176-303 | every interleaving of schedules, the steps of a delivery, protocol events and tasks keeps the invariant |
| `NotificationTheorems.OneNotificationPerSource` | apps/worker/src/notifications/notification-relay.service.ts:176-212 | any run leaves at most one in-app notification per source, mailed or not |
| `NotificationTheorems.OneEmailPerSource` | apps/worker/src/notifications/notification-relay.service.ts:231-303 | every email is for a notification of the feed, and any run leaves at most one per source |
| `NotificationTheorems.EmailsPassBothGates` | apps/worker/src/notifications/notification-relay.service.ts:217-222 | an email exists only for a notification that was allowed one and whose template allows one |
| `NotificationTheorems.PermissionNeedsBothGates` | apps/worker/src/notifications/notification-relay.service.ts:217-222 | the permission is given only by the delivery that wrote the notification, with the template and the preference both open |
| `NotificationTheorems.SentRowsAreServed` | apps/worker/src/notifications/notification-relay.service.ts:176-212 | a sent row has its in-app notification, or a delivery found the recipient opted out |
| `NotificationTheorems.TaskExactlyForTheWriter` | apps/worker/src/notifications/notification-relay.service.ts:231-256 | a committed finish leaves a task exactly when its own delivery inserted the notification |
| `NotificationTheorems.NotificationsAreBounded` | apps/worker/src/notifications/notification-relay.service.ts:176-223 | the notification outbox is a run of the lease protocol in which every row is delivered at most maxAttempts times |
| `NotificationTheorems.UnmailedForEver` | apps/worker/src/notifications/notification-relay.service.ts:204-256 | a notification that nothing is left to mail is never mailed, over every further run |
| `NotificationTheorems.EmailCanComeIff` | apps/worker/src/notifications/notification-relay.service.ts:204-256 | in every reachable state some run mails a notification if and only if it is mailed, an enabled task for it waits, or its own writer holds the lease and can still answer so |
| `NotificationTheorems.EmailLostIff` | apps/worker/src/notifications/notification-relay.service.ts:231-256 | once the writer's row is sent or failed, the email is lost exactly when there is neither the mail nor an enabled task |
| `NotificationTheorems.EmailCanBeLost` | apps/worker/src/notifications/notification-relay.service.ts:204-256 | a reachable state in which the row is sent, everything allows an email, and there is none and never will be |
| `NotificationEffects.PreferencePrecedence` | libs/modules/notifications/src/application/notification-preferences.service.ts:50-80 | the type's own preference decides, else the wildcard's, else both channels are open |
| `NotificationEffects.Types` | apps/worker/src/notifications/notification-relay.service.ts:217-219 | the types there are, and the one that is never mailed |
| `NotificationEffects.CheckWrites` | apps/worker/src/notifications/notification-relay.service.ts:176-190 | opted out ends the delivery as a success that wrote nothing |
| `NotificationEffects.InsertWrites` | apps/worker/src/notifications/notification-relay.service.ts:191-212 | one notification for the recipient under the row's own key or id, unless the source has one |
| `NotificationEffects.DecideWrites` | apps/worker/src/notifications/notification-relay.service.ts:212-223 | null for a duplicate, else the notification with an email exactly if both gates are open |
| `NotificationEffects.FinishLeavesTheTask` | apps/worker/src/notifications/notification-relay.service.ts:231-256 | a committed success that wrote a notification leaves one task, and nothing else leaves any |
| `NotificationEffects.TaskSends` | apps/worker/src/notifications/notification-relay.service.ts:266-303 | the task mails the recipient's address if the email is enabled, there is one, and no mail has the key |
| `AccessBinding.RowOrderIsIrrelevant` | apps/api/src/mcp/access-jwt.adapter.ts:80-104 | with unique live emails, any order of the same rows resolves the same employee, none, or ambiguous |
| `AccessBinding.FindEmployeeIs` | apps/api/src/mcp/access-jwt.adapter.ts:72-104 | the exact address wins even beside a case variant; otherwise one live variant is the employee, ambiguous means two, nobody means none |
| `AccessBinding.TwoLooksFindTheEmployee` | apps/api/src/mcp/access-jwt.adapter.ts:90-103 | the two statements of the runs, with no change between them, resolve that employee |
| `AccessBinding.Directory.BindAccessSubject` | apps/api/src/mcp/access-jwt.adapter.ts:113-131 | binds, sees the same subject, sees another, or violates the unique key: exactly when each, and writes only when it binds |
| `AccessBinding.RunKeepsInv` | apps/api/src/mcp/access-jwt.adapter.ts:149-223 | over every interleaving subjects stay unique and no binding is ever taken away |
| `AccessBinding.RacingLoginsOneOwner` | apps/api/src/mcp/access-jwt.adapter.ts:149-223 | two granted requests are for one account if and only if they carry one subject |
| `AccessBinding.OnlyGrantsWrite` | apps/api/src/mcp/access-jwt.adapter.ts:203-219 | a request writes only in the statement that grants it, and only its subject, on the one unbound account it resolved |
| `AccessBinding.DeniedNeverWrote` | apps/api/src/mcp/access-jwt.adapter.ts:149-231 | no statement of a request that ends denied changed any account, over every run |
| `AccessBinding.ChecksComeFirst` | apps/api/src/mcp/access-jwt.adapter.ts:163-201 | a request gets to the binding only as an active, verified employee of exactly one workspace |
| `AccessVerdicts.StartedAnswers` | apps/api/src/mcp/access-jwt.adapter.ts:163-178 | the first look: the claim, an exact live row, an active and verified account |
| `AccessVerdicts.UnmatchedAnswers` | apps/api/src/mcp/access-jwt.adapter.ts:97-103 | the second look: two case variants are refused and one is judged |
| `AccessVerdicts.ResolvedAnswers` | apps/api/src/mcp/access-jwt.adapter.ts:183-201 | no workspace, the one, or more than one |
| `AccessVerdicts.BoundAccountAnswers` | apps/api/src/mcp/access-jwt.adapter.ts:203-207 | an account that has a subject grants exactly that subject and is not written |
| `AccessVerdicts.FreeAccountAnswers` | apps/api/src/mcp/access-jwt.adapter.ts:207-219 | an account without one is bound and granted if it still has none and nobody has this subject |
| `AccessVerdicts.ContendingAnswers` | apps/api/src/mcp/access-jwt.adapter.ts:124-130 | the loser of the race is granted exactly if the winner carried its subject |
| `AccessVerdicts.RefusalsAreEarned` | apps/api/src/mcp/access-jwt.adapter.ts:203-219 | over any run a mismatch means the account is bound to another subject, and a taken subject that another account has it |
| `AccessVerdicts.UndisturbedVerdict` | apps/api/src/mcp/access-jwt.adapter.ts:149-223 | a request left alone is granted if and only if every check passes, is refused for the first that fails, and writes only a first binding |
| `AccessVerdicts.ContinueTouchesItself` | apps/api/src/mcp/access-jwt.adapter.ts:149-223 | a statement of one request leaves every other request and the memberships alone |
| `CallTokens.TokenStore.DeleteExpired` | libs/platform/src/mcp-call-token.ts:53-58 | removes exactly the entries that have expired |
| `CallTokens.TokenStore.MintToken` | libs/platform/src/mcp-call-token.ts:52-63 | the mint, sweep included, is the store's mint step |
| `CallTokens.TokenStore.Consume` | libs/platform/src/mcp-call-token.ts:69-78 | deletes the token whether or not it answers, and answers as the consume step says |
| `CallTokens.StepKeeps` | libs/platform/src/mcp-call-token.ts:52-92 | the store keeps every issued, unspent, unexpired token and no spent one, whatever was swept, and answers what the ledger owes |
| `CallTokens.ReadsAnswerTheLedger` | libs/platform/src/mcp-call-token.ts:52-92 | over every run with a non-decreasing clock and fresh tokens, each read yields the minted principal exactly if the token is unspent and unexpired |
| `CallTokens.ConsumeSpends` | libs/platform/src/mcp-call-token.ts:69-78 | a consume of an issued token leaves it spent for the rest of the run |
| `CallTokens.ConsumedAtMostOnce` | libs/platform/src/mcp-call-token.ts:69-78 | of two consumes of one token at most one yields a principal |
| `CallTokens.PeekIsFree` | libs/platform/src/mcp-call-token.ts:84-92 | a peek answers as a consume would and changes no later answer |
| `CallTokens.HeaderCarries` | libs/platform/src/mcp-call-token.ts:47-49 | the token of a header is its value, or the first of its values, and an empty one is none |
| `CallTokens.MintedLivesFiveSeconds` | libs/platform/src/mcp-call-token.ts:40-63 | a minted token is answered with its principal for five seconds and not after |
| `CallTokens.MintLeavesOthers` | libs/platform/src/mcp-call-token.ts:43-58 | a mint drops no other token but expired ones, and those only once a thousand are pending |
| `CallTokens.ConsumeDeletes` | libs/platform/src/mcp-call-token.ts:69-92 | a consume deletes its token and no other, and a peek deletes none |
| `CallTokens.LedgerRemembers` | libs/platform/src/mcp-call-token.ts:60-90 | what the ledger that answers are held against writes down of each event: every mint with its five seconds, every consume of an issued token, and the time |
| `CallTokens.RunsGoOn` | libs/platform/src/mcp-call-token.ts:52-92 | a run can be continued by exactly the events that are possible where it stands |
| `RoutePolicy.NormalizeBySegments` | apps/api/src/mcp/write-policy.ts:42-44 | one scan of the template erases exactly what erasing each segment after a slash does |
| `RoutePolicy.SameKeyIffSameUpToNames` | apps/api/src/mcp/write-policy.ts:15-18 | two templates normalise alike if and only if they differ in nothing but parameter names |
| `RoutePolicy.NormalizeTwiceIsOnce` | apps/api/src/mcp/write-policy.ts:42-44 | normalising twice is normalising once |
| `RoutePolicy.AllowedIffListed` | apps/api/src/mcp/write-policy.ts:122-133 | a read passes if and only if a listed template is the same up to names; a write if and only if writes are on and a listed route has its method and the same template |
| `RoutePolicy.RenamingChangesNothing` | apps/api/src/mcp/write-policy.ts:15-18 | renaming parameters or changing the method's case changes no decision |
| `RoutePolicy.WordsAre` | apps/api/src/mcp/write-policy.ts:43-43 | which characters a parameter name is made of |
| `GuardChain.Bridge.CanActivate` | apps/api/src/mcp/principal.guard.ts:52-115 | the guard marks, sets the user and spends the token exactly as its step in the chain says |
| `GuardChain.StepKeepsSystemInv` | apps/api/src/mcp/principal.guard.ts:52-115 | every mint, arrival and step of any request keeps the chain's invariant over the shared store |
| `GuardChain.LiveTokenMeansAllowed` | apps/api/src/mcp/write-hook.ts:24-38 | a request whose token was live at the hook reaches a handler of any kind only if allowed, though the token may expire on the way; off the guarded routes exactly if allowed |
| `GuardChain.BridgedIffAllowed` | apps/api/src/mcp/write.guard.ts:46-67 | without the hook too, a bridged request that has ended was handled exactly if allowed, and one seen with a live token only if allowed |
| `GuardChain.BridgedUserIsMinted` | apps/api/src/mcp/principal.guard.ts:73-91 | a bridged request acts as the very principal its token was minted for, with empty permissions |
| `GuardChain.OneRequestPerToken` | libs/platform/src/mcp-call-token.ts:69-78 | one token bridges at most one request |
| `GuardChain.HandledForSomebody` | libs/platform/src/auth/session-auth.guard.ts:41-74 | a guarded handler runs only for a redeemed token's principal, an API token's user or a session's |
| `GuardChain.OthersPassUntouched` | apps/api/src/mcp/write.guard.ts:33-36 | a request with no minted token is never refused by the policy and ends as it would without MCP |
| `GuardChain.HookAnswers` | apps/api/src/mcp/write-hook.ts:24-38 | the hook refuses exactly a live token on a request that is not allowed |
| `GuardChain.PrincipalGuardAnswers` | apps/api/src/mcp/principal.guard.ts:52-91 | the guard spends the token a guarded request carries, live or not, and bridges exactly a live one, as the minted principal |
| `GuardChain.WriteGuardAnswers` | apps/api/src/mcp/write.guard.ts:46-67 | the guard judges a bridged request and one that still carries a live token, and no other |
| `GuardChain.SessionGuardAnswers` | libs/platform/src/auth/session-auth.guard.ts:41-74 | public, an API token's user, a bridged user, or the session's, in this order, or 401 |
| `GuardChain.AllowedCallIsHandled` | apps/api/src/mcp/principal.guard.ts:52-115 | an allowed call whose token is live when the guard reads it is handled as the principal it was minted for, whatever expires later |
| `Migrations.StrandedMigrations` | db/stranded-migrations.ts:88-134 | the two indexes and the one pass report exactly the entries judged missing, mismatched, recorded elsewhere and known edits, in order |
| `Migrations.AssertNoStrandedMigrations` | db/migrate.ts:97-142 | a run fails if and only if some entry's file is recorded nowhere while its own timestamp is empty, and names exactly those entries |
| `Migrations.NamedIffNeverRan` | db/migrate.ts:76-83 | after any history from foreign rows an entry is named exactly when no run executed its file and nothing took its timestamp |
| `Migrations.RecordedIffApplied` | db/migrate.ts:52-58 | after any history a file's hash is recorded if and only if it was before or some run executed the file |
| `Migrations.ReportedIffSkipped` | db/stranded-migrations.ts:88-134 | over any history of journals and any foreign rows, an entry is reported missing, mismatched or a known edit if and only if no run executed its file |
| `Migrations.SettledByTheFirstRun` | db/migrate.ts:52-58 | an entry's fate is settled by the first run that has it, and it is skipped for ever exactly when its timestamp is not past the newest recorded |
| `Migrations.AscendingCompletes` | db/migrate.ts:52-58 | a strictly ascending journal on a database that holds a prefix ends fully recorded |
| `Migrations.AscendingReportsNothing` | db/stranded-migrations.ts:88-134 | and its report is empty |
| `Migrations.CorrectedTimestamp` | db/stranded-migrations.ts:10-16 | an entry that ran and was moved to an empty slot is reported only as recorded under another timestamp |
| `Migrations.MissingIgnoresRowOrder` | db/stranded-migrations.ts:99-131 | what is missing, or only recorded elsewhere, does not depend on row order or repeated rows |
| `Migrations.KnownEditDependsOnRowOrder` | db/stranded-migrations.ts:99-131 | two rows at one timestamp decide by their order whether an edit is excused |
| `Migrations.OrderMattersIff` | db/stranded-migrations.ts:99-131 | what is said of an entry depends on the order or repetition of the rows if and only if its file is a listed edit, is recorded nowhere, and its timestamp holds both the listed hash and another |
| `Migrations.ReportIgnoresOrderIff` | db/stranded-migrations.ts:99-131 | every set of rows gives one report if and only if no entry is in that doubt |
| `Migrations.UniqueSlotsIgnoreRowOrder` | db/stranded-migrations.ts:99-131 | so with one row per timestamp the whole report ignores row order |
| `LegacyHead.FourDigits` | db/fresh-db/apply-legacy-head.ts:53-54 | a tag that starts with four digits has that number |
| `LegacyHead.NumberDecides` | db/fresh-db/apply-legacy-head.ts:67-68 | below means a number under 68, at means 68, and a tag without a number is neither |
| `LegacyHead.NumberIs` | db/fresh-db/apply-legacy-head.ts:53-54 | the number of a tag is the signed decimal that its first four characters start with, after spaces, and none if no digit is there |
| `LegacyHead.FindAtIs` | db/fresh-db/apply-legacy-head.ts:68-68 | the entry at 68 is the first with that number, if there is one |
| `LegacyHead.StopsLeave` | db/fresh-db/apply-legacy-head.ts:78-136 | what each moment a run can be killed at leaves in the table |
| `LegacyHead.RefusesUntouched` | db/fresh-db/apply-legacy-head.ts:69-75 | with no head, no 0068, 0068 already recorded or a file missing, nothing is written |
| `LegacyHead.Bookkeeping.Run` | db/fresh-db/apply-legacy-head.ts:56-140 | one run, stopped anywhere, leaves the table the specification says, and reports success exactly in the states it should |
| `LegacyHead.Bookkeeping.InsertIfAbsent` | db/fresh-db/apply-legacy-head.ts:122-129 | a retried step adds no second row |
| `LegacyHead.AnyNumberOfRuns` | db/fresh-db/apply-legacy-head.ts:67-136 | after any number of killed runs and a finished one, an empty database holds exactly the head and one row for 0068 |
| `LegacyHead.SlotHeldOnce` | db/fresh-db/apply-legacy-head.ts:118-129 | on any database a run never adds a row to a taken slot, and a finished one fills an empty slot once |
| `LegacyHead.NextRunAppliesTheRest` | db/fresh-db/apply-legacy-head.ts:17-20 | the next migration applies exactly what is neither the head nor 0068, in order |
| `LegacyHead.LegacyHeadThenMigrate` | db/fresh-db/apply-legacy-head.ts:22-26 | the detector then reports nothing missing or mismatched, and 0068 alone, as a known edit |
| `ChunkGuard.SearchFrom` | apps/web/vite.config.ts:77-90 | from one entry, with cycles, duplicates and names outside the bundle, the search ends and finds a private chunk exactly when one is reached |
| `ChunkGuard.AssertEntryIsPublic` | apps/web/vite.config.ts:74-92 | fails, naming an entry and a private chunk it reaches, if and only if some entry reaches one through static imports of chunks |
| `ChunkGuard.GuideTextIsGated` | apps/web/vite.config.ts:50-92 | in a bundle that passes, every chunk with guide text is under the gated directory and no entry reaches it |
| `ChunkGuard.GuideTextIff` | apps/web/vite.config.ts:42-47 | which module paths carry guide text, with either separator and with a query |
| `ChunkGuard.PrivateIff` | apps/web/vite.config.ts:83-83 | a chunk is private under the gated directory, or if it holds guide text |
| `ChunkGuard.ChunkDirIs` | apps/web/vite.config.ts:50-54 | where a chunk is written, with guide text and without |
| `Retention.EligibleFromThenOn` | apps/worker/src/cron/cleanup.cron.ts:90-148 | eligibility is never lost by waiting, and work owed or bounced is never eligible |
| `Retention.MessageRules` | apps/worker/src/cron/cleanup.cron.ts:57-70 | each message table's own retention rule, in seconds |
| `Retention.OtherRules` | apps/worker/src/cron/cleanup.cron.ts:90-148 | the rules of notifications, tokens and sessions, with NULL never older than anything |
| `Retention.PurgesCompose` | apps/worker/src/cron/cleanup.cron.ts:445-449 | two purges at one instant are one purge with the sum of their quotas |
| `Retention.DeleteBatch` | apps/worker/src/cron/cleanup.cron.ts:335-356 | one statement deletes min(limit, eligible) rows, all eligible, and reports how many |
| `Retention.RunPasses` | apps/worker/src/cron/cleanup.cron.ts:450-477 | the passes take a whole number of batches, and end for the cap, a short pass, the deadline or a failure, exactly as they say |
| `Retention.EndedAsPredicted` | apps/worker/src/cron/cleanup.cron.ts:450-477 | the number of passes and the failure depend only on the clock, the failing statements and how many rows are eligible |
| `Retention.UndisturbedPurge` | apps/worker/src/cron/cleanup.cron.ts:450-477 | with no deadline reached and no failure a purge takes exactly min(eligible, 20 × 5000) rows |
| `Retention.CompletedIsBounded` | apps/worker/src/cron/cleanup.cron.ts:456-472 | never more passes than the cap, and a purge that failed had taken full batches only |
| `Retention.Sweeper.PurgeBatched` | apps/worker/src/cron/cleanup.cron.ts:450-477 | one table's purge touches no other table and marks only itself as failed |
| `Retention.Sweeper.Sweep` | apps/worker/src/cron/cleanup.cron.ts:333-443 | every table gets its full purge, whatever failed before it |
| `Retention.Sweeper.ReportNewSweep` | apps/worker/src/cron/cleanup.cron.ts:101-156 | the dry run counts, per table, exactly the rows a purge would find eligible |
| `FileSweep.Storage.SelectUnreachable` | apps/worker/src/cron/cleanup.cron.ts:205-231 | selects at most a thousand files, all unreachable, and all of them if there are no more |
| `FileSweep.Storage.Sweep` | apps/worker/src/cron/cleanup.cron.ts:232-261 | deletes the objects first and drops exactly the rows whose delete was fulfilled |
| `FileSweep.SweepTakes` | apps/worker/src/cron/cleanup.cron.ts:209-231 | a sweep takes every unreachable file, or exactly a thousand of them |
| `FileSweep.UnreachableRules` | apps/worker/src/cron/cleanup.cron.ts:214-229 | the three ways to be unreachable, and the grace of a day unconfirmed and an hour unlinked |
| `FileSweep.ObjectIs` | apps/worker/src/cron/cleanup.cron.ts:240-247 | the object of a file is its key in the bucket of its visibility |
| `FileSweep.LiveFilesSurvive` | apps/worker/src/cron/cleanup.cron.ts:205-231 | a completed, undeleted file with a link is never selected and keeps its row and its object |
| `FileSweep.RejectedRowsStay` | apps/worker/src/cron/cleanup.cron.ts:238-256 | a row goes exactly when it was swept and its delete fulfilled, and a rejected one is eligible again |
| `FileSweep.OrphansIffSwallowed` | libs/platform/src/storage/storage.service.ts:267-280 | an object is left without a row if and only if a failed delete of an existing object was reported as fulfilled |
| `FileSweep.SwallowedDeleteLeavesAnOrphan` | libs/platform/src/storage/storage.service.ts:267-280 | a sweep of one abandoned upload that drops the row and leaves the object |
| `RoleRepoint.AccessTable.RepointTiers` | db/seeds/bootstrap.ts:128-152 | the loop does what its specification says and no statement of it violates the unique key |
| `RoleRepoint.KeyHoldsAfterEachStatement` | db/schema/access.ts:72-77 | the key, with NULL scopes distinct, holds after the delete and after the move |
| `RoleRepoint.KeyHoldsThroughout` | db/seeds/bootstrap.ts:128-152 | the key holds after every tier of the loop |
| `RoleRepoint.UniqueKeyIs` | db/schema/access.ts:72-77 | what the key forbids: two rows with one user, role, scope type and scope id that is not NULL |
| `RoleRepoint.FindRoleFinds` | db/seeds/bootstrap.ts:128-131 | the role of a slug and a workspace is found exactly when there is one |
| `RoleRepoint.OthersAreAsTheyWere` | db/seeds/bootstrap.ts:134-151 | what becomes of each row: left alone, dropped for a twin, or moved with nothing but its role changed |
| `RoleRepoint.GrantsAreKept` | db/seeds/bootstrap.ts:132-151 | a (user, scope) grant is held after through the copy if and only if it was held before through either role |
| `RoleRepoint.AllGrantsAreKept` | db/seeds/bootstrap.ts:115-152 | the same for every tier of the whole loop, with no template row of the workspace left |
| `RoleRepoint.GrantLostIff` | db/seeds/bootstrap.ts:134-145 | without local copies, exactly when a grant is lost |
| `RoleRepoint.ForeignTwinLosesTheGrant` | db/seeds/bootstrap.ts:134-145 | a table with the unique key on which one is |
| `RoleRepoint.OnlyTemplateRowsChange` | db/seeds/bootstrap.ts:134-151 | rows of other workspaces and roles are as they were |
| `RoleRepoint.SecondRunChangesNothing` | db/seeds/bootstrap.ts:115-119 | seeding again leaves the table as it is |
| `LikePattern.ExactIffNoBackslash` | libs/platform/src/email/email-delivery.service.ts:45-49 | the escaped pattern matches exactly the keys that start with the root and a colon, for a root if and only if it holds no backslash |
| `DeliveryStatus.StatusesFor` | libs/platform/src/email/email-delivery.service.ts:35-84 | each requested root gets the verdict of the first row of its family, or unknown; no roots, no answer |
| `DeliveryStatus.FamilySharesItsRoot` | libs/platform/src/email/email-delivery.service.ts:63-66 | the root of every key of a family is the family's root |
| `DeliveryStatus.FamilyIs` | libs/platform/src/email/email-delivery.service.ts:30-33 | a family is its root, and the root with `:r` and a decimal number |
| `DeliveryStatus.RootOfCuts` | libs/platform/src/email/email-delivery.service.ts:63-66 | the root ends at the last mark |
| `DeliveryStatus.OrderAndOwnership` | libs/platform/src/email/email-delivery.service.ts:57-61 | later is later scheduled, or the larger id at one time; an empty key is nobody's |
| `DeliveryStatus.OnePassMeetsTheSpecification` | libs/platform/src/email/email-delivery.service.ts:51-83 | from query to answer, a root whose resends the query finds gets the status of the latest (scheduledAt, id) row of its family, with pending and an empty family both unknown |
| `DeliveryStatus.StatusIsRightIff` | libs/platform/src/email/email-delivery.service.ts:45-83 | for any list of requested roots, a root's status is right on every table if and only if some requested pattern matches the root and a bare colon |
| `DeliveryStatus.NoBackslashFindsResends` | libs/platform/src/email/email-delivery.service.ts:45-47 | a requested root without a backslash always meets that condition |
| `DeliveryStatus.BackslashLosesAResend` | libs/platform/src/email/email-delivery.service.ts:45-58 | a sent resend of a root with a backslash that the query misses and the answer calls unknown |
| `LikePattern.FindsResendsIff` | libs/platform/src/email/email-delivery.service.ts:45-47 | whatever backslashes a pattern holds, it matches every resend of a key or none, as it matches the key with a bare colon |
| `DeliveryStatus.StatusIsUnique` | libs/platform/src/email/email-delivery.service.ts:59-61 | there is one such status |
| `DeliveryStatus.StatusNames` | libs/platform/src/email/email-delivery.service.ts:76-81 | what is said of the latest row is its own verdict, and unknown while it is queued |
| `DeliveryStatus.ResendSupersedes` | libs/platform/src/email/email-delivery.service.ts:14-16 | a newer row of the family is the one reported, whatever came before |
| `Health.TimeNeverHelps` | libs/shared-kernel/src/health.ts:93-152 | with fixed unfinished work the verdict never improves as days pass |
| `Health.AcceptingNeverHurts` | libs/shared-kernel/src/health.ts:93-152 | accepting more on one day never makes it worse |
| `Health.FinishedIsSafeIff` | libs/shared-kernel/src/health.ts:110-152 | finished work is never at risk or late, for all dates, if and only if both thresholds are positive |
| `Health.UnitsDoNotMatter` | libs/shared-kernel/src/health.ts:93-152 | scaling accepted and total together changes nothing |
| `Health.OnlyTheDayMatters` | libs/shared-kernel/src/health.ts:75-80 | the time of day changes nothing |
| `Health.DayIs` | libs/shared-kernel/src/health.ts:73-80 | a UTC day is 86,400,000 milliseconds from the epoch in both directions |
| `Health.CompleteIff` | libs/shared-kernel/src/health.ts:112-124 | complete means all the work, both dates, and the planned end's day in the past |
| `Health.FractionsAndReasons` | libs/shared-kernel/src/health.ts:46-62 | when the verdict is indeterminate and why, what the two fractions are, and that a judged item is not started exactly before its start |
| `Health.ElapsedIs` | libs/shared-kernel/src/health.ts:132-139 | inside the window the elapsed fraction is the days since the start over the days of the window |
| `Health.VerdictIsDebt` | libs/shared-kernel/src/health.ts:139-151 | late and at risk, in whole days and units of work without division: when what the days owe exceeds what was accepted by the threshold's share |
| `PercentCodec.EncodeIffWellFormed` | db/database-url.ts:58-75 | encoding succeeds if and only if every surrogate is paired |
| `PercentCodec.DecodeEncode` | apps/api/src/bootstrap/service-version.ts:27-33 | decoding undoes encoding on every well-formed string |
| `PercentCodec.EncodedIsPlain` | db/database-url.ts:58-62 | nothing structural survives encoding, and nothing becomes empty |
| `PercentCodec.OctetsRoundTrip` | db/database-url.ts:58-62 | the UTF-8 octets of a scalar value decode to it |
| `PercentCodec.DecodesOnlyUtf8` | apps/api/src/bootstrap/service-version.ts:27-33 | octets are decoded to a code point if and only if they are the ones it is encoded as |
| `PercentCodec.UnescapedAre` | db/database-url.ts:58-62 | which characters an encoder leaves alone |
| `DatabaseUrl.ResolvesIff` | db/database-url.ts:35-75 | a complete URL is returned untouched; composing succeeds if and only if the five parts are set and the credentials well-formed, and otherwise the first missing part is named |
| `DatabaseUrl.SetMeans` | db/database-url.ts:35-44 | an empty value is as good as none |
| `DatabaseUrl.ComposeSpells` | db/database-url.ts:74-74 | the composed URL with its delimiters written out |
| `DatabaseUrl.ParseCompose` | db/database-url.ts:74-74 | reading a composed URL gives every part as it was put in |
| `DatabaseUrl.CredentialsSurvive` | db/database-url.ts:57-75 | whatever they contain, the user and password that are read and decoded are the ones that were set, with the host, port and name |
| `DatabaseUrl.RequiresTlsByDefault` | db/database-url.ts:72-74 | TLS is required unless another mode was set, and then that mode is asked for |
| `ServiceVersion.ServiceVersionFromOtel` | apps/api/src/bootstrap/service-version.ts:19-36 | the scan answers for the first pair whose trimmed key is the version's |
| `ServiceVersion.Environment.Apply` | apps/api/src/bootstrap/service-version.ts:43-47 | an explicit version wins and a missing attribute changes nothing |
| `ServiceVersion.VersionSurvives` | apps/api/src/bootstrap/service-version.ts:19-36 | from any list with distinct trimmed keys, the non-empty version that was encoded is the one that is read |
| `ServiceVersion.MalformedIsKept` | apps/api/src/bootstrap/service-version.ts:27-33 | a value no decoder accepts is reported as it stands |
| `ServiceVersion.EmptyIsNone` | apps/api/src/bootstrap/service-version.ts:25-26 | an empty version is none, and the scan ends there |
| `ServiceVersion.AbsentIsNone` | apps/api/src/bootstrap/service-version.ts:19-36 | nothing is read without attributes or without the key among them |

## Left out

- Queue order, `SKIP LOCKED` and the batch limit: a claim takes whatever part of the due rows it is offered, so the results hold for every choice.
- Wake signals, cron timing, metrics, tracing, logging, SSE push and `lastError` texts: no effect on what is proved.
- Purges of outbox rows by the retention sweep are no event of the relays' runs: a key whose row was purged could be used again.
- Each outbox runs on its own clock. Nothing proved compares times of two outboxes.
- An error thrown by `settle` counts as an ordinary retryable failure of a delivery that happened.
- Lease tokens, invitation secrets and call tokens are fresh, and hashes are injective: cryptography is not part of this model.
- The SCM relays, which are easier copies of the relay model, and the worker heartbeat.
- InvitationTables.Database.InviteMember: the checks before the write (permission, role, project access) and internal domains are the flag of the call; audit records are not written.
- InvitationTables.Database.ResendInvitation: the resend cooldown is not modelled, so a run may resend at any time.
- InvitationTheorems.ProvisioningIsBounded: that the directory client never defers is a condition on the run's answers; the client itself is not part of this model.
- AuditProjection.ProjectionsAreBounded: that an insert of an audit row never defers is a condition on the run's answers.
- NotificationTheorems.NotificationsAreBounded: that a notification delivery never defers is a condition on the run's answers.
- InvitationTheorems.SentMailHasItsMessageId: a provider that returns no message id (the development one) is not modelled.
- AccessBinding.RacingLoginsOneOwner: an administrator's reset of a bound subject is not an event of the runs, because it is what the promise excludes.
- AccessBinding.RowOrderIsIrrelevant: lower-casing is that of ASCII letters; Unicode case folding and database collations are not part of this model.
- GuardChain.HandledForSomebody: the identity library's own session guard, which runs before this one and may only refuse, is not part of this model.
- GuardChain.BridgedUserIsMinted: holds of principals with a user id; for an empty one the session guard falls through to the session, and the model keeps that.
- Rate limits, the request-context provenance and the ban check of a bridged request.
- RoutePolicy.AllowedIffListed: methods hold no space, as HTTP requires of a method, and upper-casing is that of ASCII letters.
- Migrations.StrandedMigrations: timestamps are integers and a label is its entry; the text of a label and of the error is not modelled.
- Migrations.ReportedIffSkipped: a file's hash does not change during the history; an edit of a file after it ran is what the known-edit list is for.
- LegacyHead.Bookkeeping.Run: the temporary folder and the roles created by the frozen SQL are not modelled.
- ChunkGuard.AssertEntryIsPublic: which of several leaks is named first is left open, and the bundle is keyed by file name, as the bundler builds it.
- Retention.Sweeper.Sweep: NOW() is one instant for the sweep, days are 86400 seconds, and the older cleanups of sessions, invitations and the SCM inbox are left out as easier copies of one batch.
- FileSweep.Storage.Sweep: links are one snapshot; attachments written during the sweep are not modelled.
- The kill switch and the dry-run flag of the retention sweep, which only choose between the two methods.
- RoleRepoint.GrantsAreKept: assumes that rows of the copy role belong to its workspace; GrantLostIff says what happens otherwise.
- DeliveryStatus.OnePassMeetsTheSpecification: for requested roots without a resend mark, in a table whose keys are roots or their resends, where the query finds the root's resends; StatusIsRightIff says when it does not.
- Health.VerdictIsDebt: fractions are exact; rounding of doubles and NaN are not modelled.
- DatabaseUrl.CredentialsSurvive: host, port and name hold no delimiter, and the reader is that of RFC 3986; drivers that read URLs otherwise are not part of this model.
- `resolveMigrationUrl`, which only chooses between two URLs.
