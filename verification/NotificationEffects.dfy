/**
 * What each step of a notification's delivery reads and writes, column by column: whose preference counts, which types may be
 * mailed at all, what the insert adds, and what the post-commit task sends to whom.
 */
module NotificationEffects {
  import opened Wrappers
  import opened OutboxLease
  import opened Notifications

  // ── The two gates ──────────────────────────────────────────────────────────

  /** The type's own preference decides; without one the wildcard's; without either both channels are open. */
  lemma PreferencePrecedence(prefs: map<(UserId, string), Prefs>, user: UserId, kind: string)
    ensures (user, kind) in prefs ==> PrefsOf(prefs, user, kind) == prefs[(user, kind)]
    ensures (user, kind) !in prefs && (user, "*") in prefs ==> PrefsOf(prefs, user, kind) == prefs[(user, "*")]
    ensures (user, kind) !in prefs && (user, "*") !in prefs ==> PrefsOf(prefs, user, kind) == Prefs(true, true)
  {}

  /** The six types there are, and the one of them that is never mailed. */
  lemma Types(kind: string)
    ensures Renderable(kind) <==>
              kind in {"WORKSPACE_INVITATION", "WORKSPACE_INVITATION_ACCEPTED", "WORK_ITEM_ASSIGNED", "WORK_ITEM_STATE_CHANGED",
                       "WORK_ITEM_COMMENTED", "WORK_ITEM_MENTIONED"}
    ensures EmailChannelAvailable(kind) <==> Renderable(kind) && kind != "WORK_ITEM_ASSIGNED"
  {}

  /** A delivery in its call on a row there is. */
  ghost predicate InCall(s: State, k: Worker) {
    k in s.world.jobs && s.world.jobs[k].phase == Calling && k.1 in s.notices
  }

  /** The world once the delivery has returned this. */
  function Returned(max: nat, s: State, k: Worker, answer: Option<Delivery>): World<Option<Delivery>> {
    Step(max, s.world, Return(k.0, k.1, Succeeded(answer)))
  }

  // ── The steps of deliver ───────────────────────────────────────────────────

  /** First the in-app preference: opted out ends the delivery as a success that wrote nothing. */
  lemma CheckWrites(max: nat, s: State, k: Worker)
    requires InCall(s, k) && k !in s.desk.created
    ensures var s', notice := NotifyStep(max, s, CheckInApp(k)), s.notices[k.1];
            if PrefsOf(s.prefs, notice.recipient, notice.kind).inApp
            then s' == s.(desk := Desk(s.desk.checked + {k}, s.desk.created))
            else s' == s.(world := Returned(max, s, k, None), suppressed := s.suppressed + {k.1})
  {}

  /**
   * Then the insert, under the row's own key or its id: one new notification for the recipient, remembered as this
   * worker's, unless the source has one.
   */
  lemma InsertWrites(max: nat, s: State, k: Worker)
    requires InCall(s, k) && k in s.desk.checked && k !in s.desk.created && Renderable(s.notices[k.1].kind)
    ensures var s', notice := NotifyStep(max, s, Insert(k)), s.notices[k.1];
            var source := if notice.key == None then k.1 else notice.key.value;
            if exists n <- s.feed.inApp :: s.feed.inApp[n].source == source
            then s' == s.(desk := Desk(s.desk.checked, s.desk.created[k := None]))
            else
              var n := s.feed.next;
              s' == s.(desk := Desk(s.desk.checked, s.desk.created[k := Some(n)]),
                       feed := Feed(s.feed.inApp[n := InApp(source, notice.recipient, notice.kind)], s.feed.writer[n := k], n + 1))
  {}

  /** A delivery that has not passed the check, or whose type has no template, inserts nothing. */
  lemma InsertNeedsTheCheck(max: nat, s: State, k: Worker)
    requires !InCall(s, k) || k !in s.desk.checked || k in s.desk.created || !Renderable(s.notices[k.1].kind)
    ensures NotifyStep(max, s, Insert(k)) == s
  {}

  /** Last the answer: null for a duplicate, else the new notification, with an email exactly if both gates are open. */
  lemma DecideWrites(max: nat, s: State, k: Worker)
    requires InCall(s, k) && k in s.desk.created
    ensures var s', notice := NotifyStep(max, s, Decide(k)), s.notices[k.1];
            var open := EmailChannelAvailable(notice.kind) && PrefsOf(s.prefs, notice.recipient, notice.kind).email;
            match s.desk.created[k]
            case None => s' == s.(world := Returned(max, s, k, None))
            case Some(n) =>
              s' == s.(world := Returned(max, s, k, Some(Delivery(n, open))),
                       post := Post(s.post.tasks, s.post.mails, if open then s.post.allowed + {n} else s.post.allowed))
  {}

  /** None of the three happens out of turn. */
  lemma OutOfTurnDoesNothing(max: nat, s: State, k: Worker)
    ensures !InCall(s, k) || k in s.desk.created ==> NotifyStep(max, s, CheckInApp(k)) == s
    ensures !InCall(s, k) || k !in s.desk.created ==> NotifyStep(max, s, Decide(k)) == s
  {}

  // ── The finish and its task ────────────────────────────────────────────────

  /** A committed success that wrote a notification leaves one task for it; nothing else leaves any. */
  lemma FinishLeavesTheTask(max: nat, s: State, k: Worker)
    ensures var s' := NotifyStep(max, s, Relay(Finish(k.0, k.1)));
            var done := k in s.world.jobs && s.world.jobs[k].phase.Returned? && s.world.jobs[k].phase.outcome.Succeeded?
                        && k.1 in s.world.rows && s.world.rows[k.1].leaseToken == Some(k.0)
                        && s.world.jobs[k].phase.outcome.result.Some?;
            && s' == s.(world := Step(max, s.world, Finish(k.0, k.1)), post := s'.post)
            && s'.post.mails == s.post.mails && s'.post.allowed == s.post.allowed
            && (!done ==> s'.post.tasks == s.post.tasks)
            && (done ==>
                  var d := s.world.jobs[k].phase.outcome.result.value;
                  s'.post.tasks == s.post.tasks + {Task(k.1, d.notification, d.emailEnabled)})
  {}

  /** The task is taken once. It mails the recipient's address if the email is enabled, there is one, and no mail has the key. */
  lemma TaskSends(max: nat, s: State, task: Task)
    requires task in s.post.tasks
    ensures var s' := NotifyStep(max, s, RunTask(task));
            var sends := task.emailEnabled && task.row in s.notices && s.notices[task.row].recipient in s.users
                         && forall m <- s.post.mails :: m.notification != task.notification;
            && s' == s.(post := s'.post) && s'.post.allowed == s.post.allowed && s'.post.tasks == s.post.tasks - {task}
            && s'.post.mails == if sends then s.post.mails + [Mail(task.notification, s.users[s.notices[task.row].recipient])]
                                else s.post.mails
  {}

  lemma NoTaskNoMail(max: nat, s: State, task: Task)
    ensures task !in s.post.tasks ==> NotifyStep(max, s, RunTask(task)) == s
    ensures NotifyStep(max, s, LoseTask(task)) == s.(post := Post(s.post.tasks - {task}, s.post.mails, s.post.allowed))
  {}

  // ── The rest ───────────────────────────────────────────────────────────────

  lemma OtherEventsWrite(
    max: nat, s: State, id: Id, notice: Notice, at: int, user: UserId, kind: string, value: Prefs, address: Address,
    e: Event<Option<Delivery>>)
    ensures var taken := id in s.notices || (notice.key.Some? && exists i <- s.notices :: s.notices[i].key == notice.key);
            NotifyStep(max, s, Schedule(id, notice, at)) ==
            if taken then s else s.(world := Step(max, s.world, Enqueue(id, at)), notices := s.notices[id := notice])
    ensures NotifyStep(max, s, SetPrefs(user, kind, value)) == s.(prefs := s.prefs[(user, kind) := value])
    ensures NotifyStep(max, s, SetUser(user, address)) == s.(users := s.users[user := address])
    ensures e.Enqueue? || (e.Return? && e.outcome.Succeeded?) ==> NotifyStep(max, s, Relay(e)) == s
    ensures !e.Enqueue? && !e.Finish? && !(e.Return? && e.outcome.Succeeded?) ==>
              NotifyStep(max, s, Relay(e)) == s.(world := Step(max, s.world, e))
  {}
}
