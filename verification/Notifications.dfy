/**
 * The notification relay (apps/worker/src/notifications/notification-relay.service.ts): an idempotent in-app write
 * during delivery, and an email scheduled by a task that runs after the finish transaction commits.
 *
 * `deliver` is not one step: a worker reads the preference, inserts, reads the second preference and returns, and it can
 * die between any two of them.
 */
module Notifications {
  import opened Wrappers
  import opened OutboxLease

  type UserId = nat
  type NotificationId = nat
  type Source = nat  // idempotency keys and row ids share one name space: source_event_id
  type Address = nat

  /** EMAIL_CHANNEL_BY_TEMPLATE; a type outside the table cannot even be rendered. */
  const EMAIL_CHANNEL: map<string, bool> := map[
    "WORKSPACE_INVITATION" := true,
    "WORKSPACE_INVITATION_ACCEPTED" := true,
    "WORK_ITEM_ASSIGNED" := false,
    "WORK_ITEM_STATE_CHANGED" := true,
    "WORK_ITEM_COMMENTED" := true,
    "WORK_ITEM_MENTIONED" := true]

  predicate Renderable(kind: string) {
    kind in EMAIL_CHANNEL
  }

  predicate EmailChannelAvailable(kind: string) {
    kind in EMAIL_CHANNEL && EMAIL_CHANNEL[kind]
  }

  datatype Prefs = Prefs(inApp: bool, email: bool)

  /** The type's own row, else the wildcard's, else both channels on. */
  function PrefsOf(prefs: map<(UserId, string), Prefs>, user: UserId, kind: string): Prefs {
    if (user, kind) in prefs then prefs[(user, kind)]
    else if (user, "*") in prefs then prefs[(user, "*")]
    else Prefs(true, true)
  }

  /** A `notification_outbox` row. */
  datatype Notice = Notice(recipient: UserId, kind: string, key: Option<Source>)

  function SourceOf(id: Id, notice: Notice): Source {
    if notice.key.Some? then notice.key.value else id
  }

  datatype InApp = InApp(source: Source, recipient: UserId, kind: string)

  /** What deliver hands to settle; the answer is None when nothing was written. */
  datatype Delivery = Delivery(notification: NotificationId, emailEnabled: bool)

  datatype Task = Task(row: Id, notification: NotificationId, emailEnabled: bool)

  /** Its idempotency key is `notification-email:<notification>`. */
  datatype Mail = Mail(notification: NotificationId, to: Address)

  type Worker = (Token, Id)

  /** What workers remember inside deliver: who passed the preference check, and what their insert answered. */
  datatype Desk = Desk(checked: set<Worker>, created: map<Worker, Option<NotificationId>>)

  /** `in_app_notifications`, and which worker wrote each row. */
  datatype Feed = Feed(inApp: map<NotificationId, InApp>, writer: map<NotificationId, Worker>, next: NotificationId)

  /** Post-commit tasks, notification emails, and the notifications both gates allowed an email for. */
  datatype Post = Post(tasks: set<Task>, mails: seq<Mail>, allowed: set<NotificationId>)

  datatype State = State(
    world: World<Option<Delivery>>,
    notices: map<Id, Notice>,
    suppressed: set<Id>,  // rows some delivery suppressed because the recipient had opted out
    desk: Desk,
    feed: Feed,
    post: Post,
    prefs: map<(UserId, string), Prefs>,
    users: map<UserId, Address>)

  datatype NotifyEvent =
    | SetPrefs(user: UserId, kind: string, value: Prefs)
    | SetUser(user: UserId, address: Address)
    | Schedule(id: Id, notice: Notice, at: int)
    | CheckInApp(worker: Worker)
    | Insert(worker: Worker)
    | Decide(worker: Worker)
    | Relay(e: Event<Option<Delivery>>)
    | RunTask(task: Task)
    | LoseTask(task: Task)

  predicate Delivering(s: State, k: Worker) {
    k in s.world.jobs && s.world.jobs[k].phase.Calling? && k.1 in s.notices
  }

  predicate SourceTaken(feed: Feed, source: Source) {
    exists n <- feed.inApp :: feed.inApp[n].source == source
  }

  /** NotificationsService.send: insert, ON CONFLICT (source_event_id) DO NOTHING; None when deduplicated. */
  function Send(feed: Feed, k: Worker, row: InApp): (Feed, Option<NotificationId>) {
    if SourceTaken(feed, row.source) then (feed, None)
    else (Feed(feed.inApp[feed.next := row], feed.writer[feed.next := k], feed.next + 1), Some(feed.next))
  }

  function DoCheck(max: nat, s: State, k: Worker): State {
    if !Delivering(s, k) || k in s.desk.created then s
    else if !PrefsOf(s.prefs, s.notices[k.1].recipient, s.notices[k.1].kind).inApp
    then s.(world := Step(max, s.world, Return(k.0, k.1, Succeeded(None))), suppressed := s.suppressed + {k.1})
    else s.(desk := s.desk.(checked := s.desk.checked + {k}))
  }

  function DoInsert(s: State, k: Worker): State {
    if !Delivering(s, k) || k !in s.desk.checked || k in s.desk.created || !Renderable(s.notices[k.1].kind) then s
    else
      var notice := s.notices[k.1];
      var (feed, answer) := Send(s.feed, k, InApp(SourceOf(k.1, notice), notice.recipient, notice.kind));
      s.(feed := feed, desk := s.desk.(created := s.desk.created[k := answer]))
  }

  /** The template's channel policy is asked first; a preference can only narrow it. */
  function EmailAllowed(s: State, id: Id): bool
    requires id in s.notices
  {
    EmailChannelAvailable(s.notices[id].kind) && PrefsOf(s.prefs, s.notices[id].recipient, s.notices[id].kind).email
  }

  function DoDecide(max: nat, s: State, k: Worker): State {
    if !Delivering(s, k) || k !in s.desk.created then s
    else
      match s.desk.created[k]
      case None => s.(world := Step(max, s.world, Return(k.0, k.1, Succeeded(None))))
      case Some(n) =>
        var enabled := EmailAllowed(s, k.1);
        s.(world := Step(max, s.world, Return(k.0, k.1, Succeeded(Some(Delivery(n, enabled))))),
           post := s.post.(allowed := if enabled then s.post.allowed + {n} else s.post.allowed))
  }

  /** settle: a task, only for a delivery that wrote something, only if the finish commits. */
  function TaskOf(w: World<Option<Delivery>>, k: Worker): set<Task> {
    if CommitsSent(w, k.0, k.1) && w.jobs[k].phase.outcome.result.Some?
    then {Task(k.1, w.jobs[k].phase.outcome.result.value.notification, w.jobs[k].phase.outcome.result.value.emailEnabled)}
    else {}
  }

  predicate Mailed(mails: seq<Mail>, n: NotificationId) {
    exists m <- mails :: m.notification == n
  }

  /** scheduleNotificationEmail: best-effort, deduplicated by key. */
  function ScheduleEmail(mails: seq<Mail>, n: NotificationId, to: Address): seq<Mail> {
    if Mailed(mails, n) then mails else mails + [Mail(n, to)]
  }

  function DoTask(s: State, task: Task): State {
    if task !in s.post.tasks then s
    else
      var left := s.post.(tasks := s.post.tasks - {task});
      if task.emailEnabled && task.row in s.notices && s.notices[task.row].recipient in s.users
      then s.(post := left.(mails := ScheduleEmail(s.post.mails, task.notification, s.users[s.notices[task.row].recipient])))
      else s.(post := left)
  }

  predicate KeyTaken(notices: map<Id, Notice>, key: Option<Source>) {
    key.Some? && exists i <- notices :: notices[i].key == key
  }

  function RelayStep(max: nat, s: State, e: Event<Option<Delivery>>): State {
    match e
    case Enqueue(_, _) => s
    case Return(_, _, Succeeded(_)) => s  // deliver's own steps above return
    case Finish(token, id) =>
      s.(world := Step(max, s.world, e), post := s.post.(tasks := s.post.tasks + TaskOf(s.world, (token, id))))
    case _ => s.(world := Step(max, s.world, e))
  }

  function NotifyStep(max: nat, s: State, e: NotifyEvent): State {
    match e
    case SetPrefs(user, kind, value) => s.(prefs := s.prefs[(user, kind) := value])
    case SetUser(user, address) => s.(users := s.users[user := address])
    case Schedule(id, notice, at) =>
      if id in s.notices || KeyTaken(s.notices, notice.key) then s
      else s.(world := Step(max, s.world, Enqueue(id, at)), notices := s.notices[id := notice])
    case CheckInApp(k) => DoCheck(max, s, k)
    case Insert(k) => DoInsert(s, k)
    case Decide(k) => DoDecide(max, s, k)
    case Relay(event) => RelayStep(max, s, event)
    case RunTask(task) => DoTask(s, task)
    case LoseTask(task) => s.(post := s.post.(tasks := s.post.tasks - {task}))
  }

  function NotifyRun(max: nat, s: State, es: seq<NotifyEvent>): State
    decreases |es|
  {
    if es == [] then s else NotifyRun(max, NotifyStep(max, s, es[0]), es[1..])
  }

  function NewNotifications(): State {
    State(Empty(), map[], {}, Desk({}, map[]), Feed(map[], map[], 0), Post({}, [], {}), map[], map[])
  }
}
