/** The effects of one notification row, over every run. */
module NotificationTheorems {
  import opened Wrappers
  import opened OutboxLease
  import opened OutboxShapes
  import OutboxTheorems
  import opened Notifications

  // ── The invariant ──────────────────────────────────────────────────────────

  ghost predicate FeedOk(feed: Feed) {
    && feed.writer.Keys == feed.inApp.Keys
    && (forall n <- feed.inApp :: n < feed.next)
    && (forall n <- feed.inApp, m <- feed.inApp :: feed.inApp[n].source == feed.inApp[m].source ==> n == m)
  }

  /** Every insert a worker remembers is in the feed, and every row of the feed is remembered by its writer. */
  ghost predicate DeskOk(notices: map<Id, Notice>, desk: Desk, feed: Feed) {
    && (forall k <- desk.created :: CreatedOk(notices, desk, feed, k))
    && (forall n <- feed.writer :: WrittenOk(desk, feed, n))
  }

  ghost predicate CreatedOk(notices: map<Id, Notice>, desk: Desk, feed: Feed, k: Worker)
    requires k in desk.created
  {
    && k.1 in notices
    && SourceTaken(feed, SourceOf(k.1, notices[k.1]))
    && (desk.created[k].Some? ==>
          var n := desk.created[k].value;
          n in feed.inApp && n in feed.writer && feed.writer[n] == k
          && feed.inApp[n] == InApp(SourceOf(k.1, notices[k.1]), notices[k.1].recipient, notices[k.1].kind))
  }

  ghost predicate WrittenOk(desk: Desk, feed: Feed, n: NotificationId)
    requires n in feed.writer
  {
    feed.writer[n] in desk.created && desk.created[feed.writer[n]] == Some(n)
  }

  /** The row has its in-app notification, or a delivery found the recipient opted out. */
  ghost predicate Served(s: State, id: Id) {
    id in s.suppressed || (id in s.notices && SourceTaken(s.feed, SourceOf(id, s.notices[id])))
  }

  ghost predicate AnswerOk(s: State, k: Worker)
    requires k in s.world.jobs
  {
    var phase := s.world.jobs[k].phase;
    phase.Returned? && phase.outcome.Succeeded? ==>
      && Served(s, k.1)
      && (phase.outcome.result.Some? ==>
            var d := phase.outcome.result.value;
            && k in s.desk.created && s.desk.created[k] == Some(d.notification)
            && (d.emailEnabled ==> d.notification in s.post.allowed))
      && (phase.outcome.result.None? ==> WroteNothing(s.desk, k))
  }

  ghost predicate WroteNothing(desk: Desk, k: Worker) {
    k in desk.created ==> desk.created[k].None?
  }

  ghost predicate WorldOk(s: State) {
    && s.notices.Keys == s.world.rows.Keys
    && (forall id <- s.world.rows :: s.world.rows[id].status.Sent? ==> Served(s, id))
    && (forall k <- s.world.jobs :: AnswerOk(s, k))
  }

  ghost predicate TaskOk(s: State, task: Task) {
    && task.row in s.notices
    && task.notification in s.feed.inApp
    && s.feed.inApp[task.notification].source == SourceOf(task.row, s.notices[task.row])
    && (task.emailEnabled ==> task.notification in s.post.allowed)
  }

  ghost predicate PostOk(s: State) {
    && (forall task <- s.post.tasks :: TaskOk(s, task))
    && (forall n <- s.post.allowed :: n in s.feed.inApp && EmailChannelAvailable(s.feed.inApp[n].kind))
    && (forall m <- s.post.mails :: m.notification in s.post.allowed)
    && (forall i, j :: 0 <= i < j < |s.post.mails| ==> s.post.mails[i].notification != s.post.mails[j].notification)
  }

  ghost predicate NotifyInv(max: nat, s: State) {
    Inv(max, s.world) && FeedOk(s.feed) && DeskOk(s.notices, s.desk, s.feed) && WorldOk(s) && PostOk(s)
  }

  /** Rows, inserts, suppressions and permissions only accumulate. */
  ghost predicate Accumulates(s: State, s': State) {
    && (forall id <- s.notices :: id in s'.notices && s'.notices[id] == s.notices[id])
    && s.suppressed <= s'.suppressed
    && (forall k <- s.desk.created :: k in s'.desk.created && s'.desk.created[k] == s.desk.created[k])
    && (forall n <- s.feed.inApp :: n in s'.feed.inApp && s'.feed.inApp[n] == s.feed.inApp[n])
    && s.post.allowed <= s'.post.allowed
  }

  lemma ServedStays(s: State, s': State, id: Id)
    requires Accumulates(s, s') && Served(s, id)
    ensures Served(s', id)
  {
    if id !in s.suppressed {
      var n :| n in s.feed.inApp && s.feed.inApp[n].source == SourceOf(id, s.notices[id]);
      assert s'.feed.inApp[n] == s.feed.inApp[n];
    }
  }

  /** A world change that finishes nothing and answers nothing new, beside an accumulating change. */
  lemma WorldKept(s: State, s': State)
    requires WorldOk(s) && Accumulates(s, s') && Quiet(s.world, s'.world) && s'.notices.Keys == s.notices.Keys
    requires forall k <- s'.desk.created :: k in s.desk.created || (k in s.world.jobs && s.world.jobs[k].phase.Calling?)
    ensures WorldOk(s')
  {
    forall id <- s'.world.rows | s'.world.rows[id].status.Sent? ensures Served(s', id) { ServedStays(s, s', id); }
    forall k <- s'.world.jobs ensures AnswerOk(s', k) {
      assert AnswerOk(s, k) && AnswerKept(s.world.jobs[k].phase, s'.world.jobs[k].phase);
      if s'.world.jobs[k].phase.Returned? && s'.world.jobs[k].phase.outcome.Succeeded? { ServedStays(s, s', k.1); }
    }
  }

  lemma PostKept(s: State, s': State)
    requires PostOk(s) && Accumulates(s, s')
    requires s'.post.tasks <= s.post.tasks && s'.post.mails == s.post.mails
    requires forall n <- s'.post.allowed :: n in s.post.allowed || (n in s'.feed.inApp && EmailChannelAvailable(s'.feed.inApp[n].kind))
    ensures PostOk(s')
  {
    forall task <- s'.post.tasks ensures TaskOk(s', task) { assert TaskOk(s, task); }
  }

  lemma DeskKept(s: State, s': State)
    requires DeskOk(s.notices, s.desk, s.feed) && s'.feed == s.feed && s'.desk.created == s.desk.created
    requires forall id <- s.notices :: id in s'.notices && s'.notices[id] == s.notices[id]
    ensures DeskOk(s'.notices, s'.desk, s'.feed)
  {
    forall k <- s'.desk.created ensures CreatedOk(s'.notices, s'.desk, s'.feed, k) {
      assert CreatedOk(s.notices, s.desk, s.feed, k);
    }
    forall n <- s'.feed.writer ensures WrittenOk(s'.desk, s'.feed, n) { assert WrittenOk(s.desk, s.feed, n); }
  }

  // ── Every event keeps it ───────────────────────────────────────────────────

  /** A new row: nothing is finished or answered by it. */
  lemma ScheduleKeepsWorld(max: nat, s: State, s': State, id: Id, at: int)
    requires Inv(max, s.world) && WorldOk(s) && Accumulates(s, s') && id !in s.world.rows
    requires s'.world == Step(max, s.world, Enqueue(id, at)) && s'.notices.Keys == s.notices.Keys + {id} && s'.desk == s.desk
    ensures WorldOk(s')
  {
    EnqueueStep(max, s.world, id, at);
    forall i <- s'.world.rows | s'.world.rows[i].status.Sent? ensures Served(s', i) { ServedStays(s, s', i); }
    forall k <- s'.world.jobs ensures AnswerOk(s', k) {
      assert AnswerOk(s, k);
      if Served(s, k.1) { ServedStays(s, s', k.1); }
    }
  }

  lemma ScheduleKeeps(max: nat, s: State, s': State, id: Id, notice: Notice, at: int)
    requires NotifyInv(max, s) && id !in s.notices
    requires s' == s.(world := Step(max, s.world, Enqueue(id, at)), notices := s.notices[id := notice])
    ensures NotifyInv(max, s')
  {
    assert Inv(max, s'.world) by { StepKeepsInv(max, s.world, Enqueue(id, at)); }
    assert DeskOk(s'.notices, s'.desk, s'.feed) by { DeskKept(s, s'); }
    assert PostOk(s') by { ScheduleKeepsPost(s, s', id, notice); }
    ScheduleKeepsWorld(max, s, s', id, at);
  }

  lemma ScheduleKeepsPost(s: State, s': State, id: Id, notice: Notice)
    requires PostOk(s) && id !in s.notices && s'.notices == s.notices[id := notice]
    requires s'.feed == s.feed && s'.post == s.post && s'.desk == s.desk && s'.suppressed == s.suppressed
    ensures PostOk(s') && Accumulates(s, s')
  {
    PostKept(s, s');
  }

  lemma QuietKeeps(max: nat, s: State, s': State)
    requires NotifyInv(max, s) && Quiet(s.world, s'.world) && Inv(max, s'.world)
    requires s' == s.(world := s'.world, prefs := s'.prefs, users := s'.users, post := s'.post, desk := s'.desk)
    requires s'.desk.created == s.desk.created && s'.post.allowed == s.post.allowed
    requires s'.post.tasks <= s.post.tasks && s'.post.mails == s.post.mails
    ensures NotifyInv(max, s')
  {
    DeskKept(s, s');
    WorldKept(s, s');
    PostKept(s, s');
  }

  /** deliver returning a success that is true to what happened. */
  lemma AnswerKeeps(max: nat, s: State, s': State, k: Worker, answer: Option<Delivery>)
    requires NotifyInv(max, s) && k in s.world.jobs && Served(s', k.1)
    requires answer.Some? ==>
               k in s.desk.created && s.desk.created[k] == Some(answer.value.notification)
               && (answer.value.emailEnabled ==> answer.value.notification in s'.post.allowed)
    requires answer.None? ==> WroteNothing(s.desk, k)
    requires s' == s.(world := s'.world, suppressed := s'.suppressed, post := s'.post)
    requires s'.world == Step(max, s.world, Return(k.0, k.1, Succeeded(answer)))
    requires s.suppressed <= s'.suppressed && s'.post == s.post.(allowed := s'.post.allowed) && s.post.allowed <= s'.post.allowed
    requires forall n <- s'.post.allowed :: n in s.post.allowed || (n in s.feed.inApp && EmailChannelAvailable(s.feed.inApp[n].kind))
    ensures NotifyInv(max, s')
  {
    StepKeepsInv(max, s.world, Return(k.0, k.1, Succeeded(answer)));
    PostKept(s, s');
    AnswerKeepsWorld(max, s, s', k, answer);
  }

  lemma AnswerKeepsWorld(max: nat, s: State, s': State, k: Worker, answer: Option<Delivery>)
    requires WorldOk(s) && k in s.world.jobs && Served(s', k.1)
    requires answer.Some? ==>
               k in s.desk.created && s.desk.created[k] == Some(answer.value.notification)
               && (answer.value.emailEnabled ==> answer.value.notification in s'.post.allowed)
    requires answer.None? ==> WroteNothing(s.desk, k)
    requires s'.world == Step(max, s.world, Return(k.0, k.1, Succeeded(answer)))
    requires s'.notices == s.notices && s'.feed == s.feed && s'.desk == s.desk
    requires s.suppressed <= s'.suppressed && s.post.allowed <= s'.post.allowed
    ensures WorldOk(s')
  {
    AnswerStep(max, s.world, k.0, k.1, Succeeded(answer));
    forall id <- s'.world.rows | s'.world.rows[id].status.Sent? ensures Served(s', id) { assert Served(s, id); }
    forall j <- s'.world.jobs ensures AnswerOk(s', j) { assert AnswerOk(s, j); }
  }

  /** Opted out: the delivery answers null and the row is suppressed. */
  lemma SuppressKeeps(max: nat, s: State, k: Worker, s': State)
    requires NotifyInv(max, s) && Delivering(s, k) && k !in s.desk.created
    requires s' == s.(world := Step(max, s.world, Return(k.0, k.1, Succeeded(None))), suppressed := s.suppressed + {k.1})
    ensures NotifyInv(max, s')
  {
    AnswerKeeps(max, s, s', k, None);
  }

  /** Remembering who passed the check touches nothing else. */
  lemma PassKeeps(max: nat, s: State, s': State)
    requires NotifyInv(max, s) && s' == s.(desk := s'.desk) && s'.desk.created == s.desk.created
    ensures NotifyInv(max, s')
  {
    assert DeskOk(s'.notices, s'.desk, s'.feed) by { DeskKept(s, s'); }
    assert PostOk(s') by { PostKept(s, s'); }
    assert WorldOk(s') by { WorldKept(s, s'); }
  }

  lemma CheckIs(max: nat, s: State, k: Worker, s': State)
    requires s' == DoCheck(max, s, k)
    ensures || (s' == s.(desk := s'.desk) && s'.desk.created == s.desk.created)
            || (Delivering(s, k) && k !in s.desk.created
                && s' == s.(world := Step(max, s.world, Return(k.0, k.1, Succeeded(None))), suppressed := s.suppressed + {k.1}))
  {}

  lemma CheckKeeps(max: nat, s: State, k: Worker)
    requires NotifyInv(max, s)
    ensures NotifyInv(max, DoCheck(max, s, k))
  {
    var s' := DoCheck(max, s, k);
    CheckIs(max, s, k, s');
    if s' == s.(desk := s'.desk) && s'.desk.created == s.desk.created {
      PassKeeps(max, s, s');
    } else {
      SuppressKeeps(max, s, k, s');
    }
  }

  lemma DecideKeeps(max: nat, s: State, k: Worker)
    requires NotifyInv(max, s)
    ensures NotifyInv(max, DoDecide(max, s, k))
  {
    if Delivering(s, k) && k in s.desk.created {
      assert CreatedOk(s.notices, s.desk, s.feed, k);
      var s' := DoDecide(max, s, k);
      var answer := if s.desk.created[k].None? then None else Some(Delivery(s.desk.created[k].value, EmailAllowed(s, k.1)));
      AnswerKeeps(max, s, s', k, answer);
    }
  }

  function RowOf(notices: map<Id, Notice>, id: Id): InApp
    requires id in notices
  {
    InApp(SourceOf(id, notices[id]), notices[id].recipient, notices[id].kind)
  }

  ghost predicate FeedGrows(feed: Feed, feed': Feed) {
    && (forall n <- feed.inApp :: n in feed'.inApp && feed'.inApp[n] == feed.inApp[n])
    && (forall n <- feed.writer :: n in feed'.writer && feed'.writer[n] == feed.writer[n])
  }

  /** What one insert does to the feed, whether or not it was deduplicated. */
  ghost predicate Inserted(feed: Feed, feed': Feed, k: Worker, row: InApp, answer: Option<NotificationId>) {
    && FeedGrows(feed, feed') && SourceTaken(feed', row.source)
    && (forall n <- feed'.writer :: n in feed.writer || (answer == Some(n) && feed'.writer[n] == k))
    && (answer.Some? ==>
          answer.value in feed'.inApp && feed'.inApp[answer.value] == row
          && answer.value in feed'.writer && feed'.writer[answer.value] == k)
  }

  lemma SendGrows(feed: Feed, k: Worker, row: InApp)
    requires FeedOk(feed)
    ensures var (feed', answer) := Send(feed, k, row); FeedOk(feed') && Inserted(feed, feed', k, row, answer)
  {
    var (feed', answer) := Send(feed, k, row);
    assert answer.Some? ==> feed'.inApp[feed.next].source == row.source;
  }

  lemma CreatedStays(notices: map<Id, Notice>, desk: Desk, desk': Desk, feed: Feed, feed': Feed, j: Worker)
    requires j in desk.created && CreatedOk(notices, desk, feed, j) && FeedGrows(feed, feed')
    requires j in desk'.created && desk'.created[j] == desk.created[j]
    ensures CreatedOk(notices, desk', feed', j)
  {
    var n :| n in feed.inApp && feed.inApp[n].source == SourceOf(j.1, notices[j.1]);
    assert n in feed'.inApp && feed'.inApp[n] == feed.inApp[n];
  }

  lemma SendKeeps(notices: map<Id, Notice>, desk: Desk, feed: Feed, k: Worker, feed': Feed, desk': Desk, answer: Option<NotificationId>)
    requires DeskOk(notices, desk, feed) && k.1 in notices && k !in desk.created
    requires Inserted(feed, feed', k, RowOf(notices, k.1), answer)
    requires desk'.created == desk.created[k := answer]
    ensures DeskOk(notices, desk', feed')
  {
    forall j <- desk'.created ensures CreatedOk(notices, desk', feed', j) {
      if j != k { CreatedStays(notices, desk, desk', feed, feed', j); }
    }
    forall n <- feed'.writer ensures WrittenOk(desk', feed', n) {
      if n in feed.writer { assert WrittenOk(desk, feed, n); }
    }
  }

  lemma InsertKeeps(max: nat, s: State, k: Worker)
    requires NotifyInv(max, s)
    ensures NotifyInv(max, DoInsert(s, k))
  {
    var s' := DoInsert(s, k);
    if s' != s {
      SendGrows(s.feed, k, RowOf(s.notices, k.1));
      InsertedKeeps(max, s, s', k, Send(s.feed, k, RowOf(s.notices, k.1)).1);
    }
  }

  lemma InsertedKeepsWorld(s: State, s': State, k: Worker, answer: Option<NotificationId>)
    requires WorldOk(s) && PostOk(s) && Delivering(s, k) && k !in s.desk.created
    requires s' == s.(feed := s'.feed, desk := s'.desk) && FeedGrows(s.feed, s'.feed)
    requires s'.desk.created == s.desk.created[k := answer]
    ensures WorldOk(s') && PostOk(s')
  {
    assert Accumulates(s, s');
    WorldKept(s, s');
    PostKept(s, s');
  }

  lemma InsertedKeeps(max: nat, s: State, s': State, k: Worker, answer: Option<NotificationId>)
    requires NotifyInv(max, s) && Delivering(s, k) && k !in s.desk.created
    requires s' == s.(feed := s'.feed, desk := s'.desk) && FeedOk(s'.feed)
    requires Inserted(s.feed, s'.feed, k, RowOf(s.notices, k.1), answer)
    requires s'.desk.created == s.desk.created[k := answer]
    ensures NotifyInv(max, s')
  {
    assert WorldOk(s') && PostOk(s') by { InsertedKeepsWorld(s, s', k, answer); }
    assert DeskOk(s'.notices, s'.desk, s'.feed) by {
      SendKeeps(s.notices, s.desk, s.feed, k, s'.feed, s'.desk, answer);
    }
  }

  lemma FinishKeeps(max: nat, s: State, s': State, token: Token, id: Id)
    requires NotifyInv(max, s)
    requires s' == s.(world := Step(max, s.world, Finish(token, id)),
                      post := s.post.(tasks := s.post.tasks + TaskOf(s.world, (token, id))))
    ensures NotifyInv(max, s')
  {
    StepKeepsInv(max, s.world, Finish(token, id));
    FinishKeepsWorld(max, s, s', token, id);
    FinishKeepsPost(s, s', (token, id));
  }

  lemma FinishKeepsWorld(max: nat, s: State, s': State, token: Token, id: Id)
    requires Inv(max, s.world) && WorldOk(s)
    requires s' == s.(world := Step(max, s.world, Finish(token, id)), post := s'.post) && s'.post.allowed == s.post.allowed
    ensures WorldOk(s')
  {
    FinishStep(max, s.world, token, id);
    if CommitsSent(s.world, token, id) { assert AnswerOk(s, (token, id)); }
    forall i <- s'.world.rows | s'.world.rows[i].status.Sent? ensures Served(s', i) { assert Served(s, i); }
    forall k <- s'.world.jobs ensures AnswerOk(s', k) { assert AnswerOk(s, k); }
  }

  lemma FinishKeepsPost(s: State, s': State, k: Worker)
    requires PostOk(s) && WorldOk(s) && DeskOk(s.notices, s.desk, s.feed)
    requires s' == s.(world := s'.world, post := s.post.(tasks := s.post.tasks + TaskOf(s.world, k)))
    ensures PostOk(s')
  {
    forall task <- s'.post.tasks ensures TaskOk(s', task) {
      if task in s.post.tasks { assert TaskOk(s, task); }
      else { assert AnswerOk(s, k); assert CreatedOk(s.notices, s.desk, s.feed, k); }
    }
  }

  lemma ClaimKeeps(max: nat, s: State, s': State, offered: set<Id>, hold: nat)
    requires NotifyInv(max, s) && s' == s.(world := Step(max, s.world, Claim(offered, hold)))
    ensures NotifyInv(max, s')
  {
    StepKeepsInv(max, s.world, Claim(offered, hold));
    ClaimStep(max, s.world, offered, hold);
    forall i <- s'.world.rows | s'.world.rows[i].status.Sent? ensures Served(s', i) { assert Served(s, i); }
    forall k <- s'.world.jobs ensures AnswerOk(s', k) { if k in s.world.jobs { assert AnswerOk(s, k); } }
    PostKept(s, s');
  }

  lemma QuietRelayKeeps(max: nat, s: State, e: Event<Option<Delivery>>)
    requires NotifyInv(max, s)
    requires e.Advance? || e.Renew? || e.FinishThrows? || e.Crash? || (e.Return? && !e.outcome.Succeeded?)
    ensures NotifyInv(max, RelayStep(max, s, e))
  {
    QuietStep(max, s.world, e);
    StepKeepsInv(max, s.world, e);
    QuietKeeps(max, s, s.(world := Step(max, s.world, e)));
  }

  lemma RelayKeeps(max: nat, s: State, e: Event<Option<Delivery>>)
    requires NotifyInv(max, s)
    ensures NotifyInv(max, RelayStep(max, s, e))
  {
    match e
    case Enqueue(_, _) =>
    case Return(_, _, Succeeded(_)) =>
    case Finish(token, id) => FinishKeeps(max, s, RelayStep(max, s, e), token, id);
    case Claim(offered, hold) => ClaimKeeps(max, s, RelayStep(max, s, e), offered, hold);
    case _ => QuietRelayKeeps(max, s, e);
  }

  lemma ScheduleEmailKeeps(mails: seq<Mail>, n: NotificationId, to: Address)
    requires forall i, j :: 0 <= i < j < |mails| ==> mails[i].notification != mails[j].notification
    ensures var mails' := ScheduleEmail(mails, n, to);
            && (forall i, j :: 0 <= i < j < |mails'| ==> mails'[i].notification != mails'[j].notification)
            && (forall m <- mails' :: m in mails || m.notification == n)
  {
    forall i | 0 <= i < |mails| && !Mailed(mails, n) ensures mails[i].notification != n { assert mails[i] in mails; }
  }

  lemma TaskKeeps(max: nat, s: State, task: Task)
    requires NotifyInv(max, s)
    ensures NotifyInv(max, DoTask(s, task))
  {
    if task in s.post.tasks {
      assert TaskOk(s, task);
      var to := if s.notices[task.row].recipient in s.users then s.users[s.notices[task.row].recipient] else 0;
      ScheduleEmailKeeps(s.post.mails, task.notification, to);
      TaskRunKeeps(max, s, DoTask(s, task));
    }
  }

  lemma TaskRunKeeps(max: nat, s: State, s': State)
    requires NotifyInv(max, s) && s' == s.(post := s'.post)
    requires s'.post.tasks <= s.post.tasks && s'.post.allowed == s.post.allowed
    requires forall m <- s'.post.mails :: m.notification in s.post.allowed
    requires forall i, j :: 0 <= i < j < |s'.post.mails| ==> s'.post.mails[i].notification != s'.post.mails[j].notification
    ensures NotifyInv(max, s')
  {
    forall t <- s'.post.tasks ensures TaskOk(s', t) { assert TaskOk(s, t); }
    WorldKept(s, s');
  }

  /** Settings, addresses and lost tasks. */
  lemma OutsideKeeps(max: nat, s: State, e: NotifyEvent, s': State)
    requires NotifyInv(max, s) && (e.SetPrefs? || e.SetUser? || e.LoseTask?) && s' == NotifyStep(max, s, e)
    ensures NotifyInv(max, s')
  {
    assert Quiet(s.world, s'.world);
    QuietKeeps(max, s, s');
  }

  lemma ScheduledKeeps(max: nat, s: State, id: Id, notice: Notice, at: int, s': State)
    requires NotifyInv(max, s) && s' == NotifyStep(max, s, Schedule(id, notice, at))
    ensures NotifyInv(max, s')
  {
    if id !in s.notices && !KeyTaken(s.notices, notice.key) { ScheduleKeeps(max, s, s', id, notice, at); }
  }

  lemma NotifyStepKeeps(max: nat, s: State, e: NotifyEvent)
    requires NotifyInv(max, s)
    ensures NotifyInv(max, NotifyStep(max, s, e))
  {
    match e
    case Schedule(id, notice, at) => ScheduledKeeps(max, s, id, notice, at, NotifyStep(max, s, e));
    case CheckInApp(k) => CheckKeeps(max, s, k);
    case Insert(k) => InsertKeeps(max, s, k);
    case Decide(k) => DecideKeeps(max, s, k);
    case Relay(event) => RelayKeeps(max, s, event);
    case RunTask(task) => TaskKeeps(max, s, task);
    case _ => OutsideKeeps(max, s, e, NotifyStep(max, s, e));
  }

  lemma {:induction false} NotifyRunKeeps(max: nat, s: State, es: seq<NotifyEvent>)
    requires NotifyInv(max, s)
    ensures NotifyInv(max, NotifyRun(max, s, es))
    decreases |es|
  {
    if es != [] {
      NotifyStepKeeps(max, s, es[0]);
      NotifyRunKeeps(max, NotifyStep(max, s, es[0]), es[1..]);
    }
  }

  ghost predicate Reachable(max: nat, s: State) {
    exists es :: s == NotifyRun(max, NewNotifications(), es)
  }

  lemma ReachableKeepsInv(max: nat, s: State)
    requires Reachable(max, s)
    ensures NotifyInv(max, s)
  {
    var es :| s == NotifyRun(max, NewNotifications(), es);
    NotifyRunKeeps(max, NewNotifications(), es);
  }

  // ── The results ────────────────────────────────────────────────────────────

  /** Redelivery and crashes included, mailed or not: one in-app notification per source, and so per outbox row. */
  lemma OneNotificationPerSource(max: nat, s: State, n: NotificationId, m: NotificationId)
    requires Reachable(max, s)
    requires n in s.feed.inApp && m in s.feed.inApp && s.feed.inApp[n].source == s.feed.inApp[m].source
    ensures n == m
  {
    ReachableKeepsInv(max, s);
  }

  /** Every email is for a notification in the feed, and two whose notifications share a source are one email. */
  lemma OneEmailPerSource(max: nat, s: State, i: nat, j: nat)
    requires Reachable(max, s) && i < |s.post.mails| && j < |s.post.mails|
    ensures var n, m := s.post.mails[i].notification, s.post.mails[j].notification;
            n in s.feed.inApp && m in s.feed.inApp && (s.feed.inApp[n].source == s.feed.inApp[m].source ==> i == j)
  {
    ReachableKeepsInv(max, s);
    var n, m := s.post.mails[i].notification, s.post.mails[j].notification;
    assert s.post.mails[i] in s.post.mails && s.post.mails[j] in s.post.mails;
    if s.feed.inApp[n].source == s.feed.inApp[m].source { OneNotificationPerSource(max, s, n, m); }
  }

  /** An email exists only for a notification whose template allows one and whose preference allowed it when decided. */
  lemma EmailsPassBothGates(max: nat, s: State, m: Mail)
    requires Reachable(max, s) && m in s.post.mails
    ensures m.notification in s.post.allowed && m.notification in s.feed.inApp
    ensures EmailChannelAvailable(s.feed.inApp[m.notification].kind)
  {
    ReachableKeepsInv(max, s);
  }

  lemma OnlyDecidesAllow(max: nat, s: State, e: NotifyEvent)
    requires !e.Decide?
    ensures NotifyStep(max, s, e).post.allowed == s.post.allowed
  {}

  /** Permission is granted in one place only, where both gates are open. */
  lemma PermissionNeedsBothGates(max: nat, s: State, e: NotifyEvent, n: NotificationId)
    requires Reachable(max, s) && n in NotifyStep(max, s, e).post.allowed && n !in s.post.allowed
    ensures e.Decide? && Delivering(s, e.worker) && EmailAllowed(s, e.worker.1)
    ensures n in s.feed.inApp && s.feed.inApp[n].source == SourceOf(e.worker.1, s.notices[e.worker.1])
    ensures n in s.feed.writer && s.feed.writer[n] == e.worker
  {
    if e.Decide? {
      assert DeskOk(s.notices, s.desk, s.feed) by { ReachableKeepsInv(max, s); }
      assert e.worker in s.desk.created && CreatedOk(s.notices, s.desk, s.feed, e.worker);
    } else {
      OnlyDecidesAllow(max, s, e);
    }
  }

  /** A `sent` row has its in-app notification, or some delivery found the recipient opted out. */
  lemma SentRowsAreServed(max: nat, s: State, id: Id)
    requires Reachable(max, s) && id in s.world.rows && s.world.rows[id].status.Sent?
    ensures id in s.notices
    ensures id in s.suppressed || SourceTaken(s.feed, SourceOf(id, s.notices[id]))
  {
    ReachableKeepsInv(max, s);
    assert Served(s, id);
  }

  /**
   * When an email becomes possible: exactly when the finish is committed by the very delivery that inserted the
   * notification. A redelivery finds it already there, answers null, and leaves no task.
   */
  lemma TaskExactlyForTheWriter(max: nat, s: State, token: Token, id: Id)
    requires Reachable(max, s) && CommitsSent(s.world, token, id)
    ensures TaskOf(s.world, (token, id)) != {} <==> exists n <- s.feed.writer :: s.feed.writer[n] == (token, id)
  {
    ReachableKeepsInv(max, s);
    var k := (token, id);
    assert AnswerOk(s, k);
    if s.world.jobs[k].phase.outcome.result.Some? {
      assert CreatedOk(s.notices, s.desk, s.feed, k);
      assert s.feed.writer[s.world.jobs[k].phase.outcome.result.value.notification] == k;
    } else {
      forall n <- s.feed.writer ensures s.feed.writer[n] != k { assert WrittenOk(s.desk, s.feed, n); }
    }
  }

  // ── The outbox inside is a run of the protocol ─────────────────────────────

  ghost function NotifyTrace(s: State, e: NotifyEvent): seq<Event<Option<Delivery>>> {
    match e
    case Schedule(id, notice, at) => if id in s.notices || KeyTaken(s.notices, notice.key) then [] else [Enqueue(id, at)]
    case CheckInApp(k) =>
      if !Delivering(s, k) || k in s.desk.created || PrefsOf(s.prefs, s.notices[k.1].recipient, s.notices[k.1].kind).inApp
      then [] else [Return(k.0, k.1, Succeeded(None))]
    case Decide(k) =>
      if !Delivering(s, k) || k !in s.desk.created then []
      else if s.desk.created[k].None? then [Return(k.0, k.1, Succeeded(None))]
      else [Return(k.0, k.1, Succeeded(Some(Delivery(s.desk.created[k].value, EmailAllowed(s, k.1)))))]
    case Relay(Enqueue(_, _)) => []
    case Relay(Return(_, _, Succeeded(_))) => []
    case Relay(other) => [other]
    case _ => []
  }

  lemma NotifyStepIsARun(max: nat, s: State, e: NotifyEvent)
    ensures NotifyStep(max, s, e).world == Run(max, s.world, NotifyTrace(s, e))
    ensures NotifyStep(max, s, e).world ==
            if NotifyTrace(s, e) == [] then s.world else Step(max, s.world, NotifyTrace(s, e)[0])
  {
    var es := NotifyTrace(s, e);
    if es != [] {
      assert es == [es[0]];
      RunOne(max, s.world, es[0]);
    }
  }

  ghost function NotifyTraces(max: nat, s: State, es: seq<NotifyEvent>): seq<Event<Option<Delivery>>>
    decreases |es|
  {
    if es == [] then [] else NotifyTrace(s, es[0]) + NotifyTraces(max, NotifyStep(max, s, es[0]), es[1..])
  }

  lemma {:induction false} NotifyOutboxIsARun(max: nat, s: State, es: seq<NotifyEvent>)
    ensures NotifyRun(max, s, es).world == Run(max, s.world, NotifyTraces(max, s, es))
    decreases |es|
  {
    if es != [] {
      var s1 := NotifyStep(max, s, es[0]);
      NotifyStepIsARun(max, s, es[0]);
      NotifyOutboxIsARun(max, s1, es[1..]);
      RunConcat(max, s.world, NotifyTrace(s, es[0]), NotifyTraces(max, s1, es[1..]));
    }
  }

  ghost predicate DeliveryNeverDefers(es: seq<NotifyEvent>) {
    forall e <- es :: e.Relay? && e.e.Return? ==> !e.e.outcome.Deferred?
  }

  lemma {:induction false} NotifyTracesNeverDefer(max: nat, s: State, es: seq<NotifyEvent>, id: Id)
    requires DeliveryNeverDefers(es)
    ensures OutboxTheorems.NeverDeferred(NotifyTraces(max, s, es), id)
    decreases |es|
  {
    if es != [] {
      assert es[0] in es && forall e <- es[1..] :: e in es;
      NotifyTracesNeverDefer(max, NotifyStep(max, s, es[0]), es[1..], id);
    }
  }

  /** Every notification row is delivered at most `max` times, over every run: nothing its delivery calls defers. */
  lemma NotificationsAreBounded(max: nat, es: seq<NotifyEvent>, id: Id)
    requires DeliveryNeverDefers(es)
    ensures NotifyRun(max, NewNotifications(), es).world ==
            Run(max, NewNotifications().world, NotifyTraces(max, NewNotifications(), es))
    ensures OutboxTheorems.CallsStarted(max, NewNotifications().world, NotifyTraces(max, NewNotifications(), es), id) <= max
  {
    NotifyOutboxIsARun(max, NewNotifications(), es);
    NotifyTracesNeverDefer(max, NewNotifications(), es, id);
    OutboxTheorems.BoundedFromTheStart(max, NewNotifications().world, NotifyTraces(max, NewNotifications(), es), id);
  }

  // ── Whether an email can still come ────────────────────────────────────────

  /**
   * The delivery `k` can still leave a task that mails `n`: it holds its lease, and it either has not answered, while the
   * template is open to email, or has answered that the email is enabled.
   */
  ghost predicate ViableIn(w: World<Option<Delivery>>, k: Worker, n: NotificationId, open: bool) {
    && k in w.jobs && HoldsLease(w.rows, k.1, k.0)
    && if w.jobs[k].phase.Returned? then w.jobs[k].phase.outcome == Succeeded(Some(Delivery(n, true))) else open
  }

  ghost predicate Viable(s: State, n: NotificationId) {
    && n in s.feed.writer && n in s.feed.inApp
    && ViableIn(s.world, s.feed.writer[n], n, EmailChannelAvailable(s.feed.inApp[n].kind))
  }

  ghost predicate OwesTask(post: Post, n: NotificationId) {
    exists task <- post.tasks :: task.notification == n && task.emailEnabled
  }

  /** Mailed, or owed a task that mails it, or its own writer can still leave one. */
  ghost predicate MayBeMailed(s: State, n: NotificationId) {
    Mailed(s.post.mails, n) || OwesTask(s.post, n) || Viable(s, n)
  }

  /** The notification exists, and nothing that could mail it is left. */
  ghost predicate Unmailed(s: State, n: NotificationId) {
    n in s.feed.inApp && n in s.feed.writer && s.feed.writer[n].0 < s.world.nextToken && !MayBeMailed(s, n)
  }

  /** What one event can make of a claimed row in a worker's memory. */
  lemma JobFollows<R>(max: nat, w: World<R>, e: Event<R>, k: (Token, Id), w': World<R>)
    requires k.0 < w.nextToken && w' == Step(max, w, e)
    ensures k.0 < w'.nextToken
    ensures k in w'.jobs ==> k in w.jobs && (w.jobs[k].phase.Returned? ==> w'.jobs[k].phase.Returned?)
    ensures k in w'.jobs && w'.jobs[k].phase.Returned? ==>
              || w'.jobs[k].phase == w.jobs[k].phase
              || w'.jobs[k].phase.outcome.Retryable?
              || e == Return(k.0, k.1, w'.jobs[k].phase.outcome)
  {}

  lemma SpentStays(max: nat, w: World<Option<Delivery>>, e: Event<Option<Delivery>>, k: Worker, n: NotificationId, open: bool)
    requires Inv(max, w) && k.0 < w.nextToken && !ViableIn(w, k, n, open)
    requires e == Return(k.0, k.1, Succeeded(Some(Delivery(n, true)))) ==> open
    ensures !ViableIn(Step(max, w, e), k, n, open) && k.0 < Step(max, w, e).nextToken
  {
    var w' := Step(max, w, e);
    assert !HoldsLease(w.rows, k.1, k.0) ==> !HoldsLease(w'.rows, k.1, k.0) by {
      if !HoldsLease(w.rows, k.1, k.0) { OutboxTheorems.LostLeaseStep(max, w, e, k.0, k.1); }
    }
    JobFollows(max, w, e, k, w');
  }

  lemma EnabledAnswersComeFromDecide(s: State, e: NotifyEvent, k: Worker, n: NotificationId)
    requires NotifyTrace(s, e) != [] && NotifyTrace(s, e)[0] == Return(k.0, k.1, Succeeded(Some(Delivery(n, true))))
    ensures e == Decide(k) && Delivering(s, k) && k in s.desk.created && s.desk.created[k] == Some(n) && EmailAllowed(s, k.1)
  {}

  /** Only the notification's own writer answers with it, and with an enabled email only if the template allows one. */
  lemma AnswersAreOwn(max: nat, s: State, e: NotifyEvent, n: NotificationId)
    requires DeskOk(s.notices, s.desk, s.feed) && n in s.feed.writer && n in s.feed.inApp
    requires NotifyTrace(s, e) != []
    requires var k := s.feed.writer[n]; NotifyTrace(s, e)[0] == Return(k.0, k.1, Succeeded(Some(Delivery(n, true))))
    ensures EmailChannelAvailable(s.feed.inApp[n].kind)
  {
    var k := s.feed.writer[n];
    EnabledAnswersComeFromDecide(s, e, k, n);
    assert CreatedOk(s.notices, s.desk, s.feed, k);
  }

  lemma FeedStays(max: nat, s: State, e: NotifyEvent, n: NotificationId)
    requires FeedOk(s.feed) && n in s.feed.writer && n in s.feed.inApp
    ensures var s' := NotifyStep(max, s, e);
            && n in s'.feed.writer && n in s'.feed.inApp
            && s'.feed.writer[n] == s.feed.writer[n] && s'.feed.inApp[n] == s.feed.inApp[n]
  {}

  /** A finish leaves an enabled task for a notification only if its writer was viable. */
  lemma TaskIsTheWriters(max: nat, s: State, k: Worker, n: NotificationId)
    requires NotifyInv(max, s) && (exists task <- TaskOf(s.world, k) :: task.notification == n && task.emailEnabled)
    ensures Viable(s, n)
  {
    assert AnswerOk(s, k);
    assert CreatedOk(s.notices, s.desk, s.feed, k);
  }

  lemma OnlyFinishesAndTasksPost(max: nat, s: State, e: NotifyEvent)
    requires !e.RunTask? && !(e.Relay? && e.e.Finish?)
    ensures var post := NotifyStep(max, s, e).post; post.mails == s.post.mails && post.tasks <= s.post.tasks
  {}

  lemma FinishPosts(max: nat, s: State, k: Worker)
    ensures var post := NotifyStep(max, s, Relay(Finish(k.0, k.1))).post;
            post.mails == s.post.mails && post.tasks == s.post.tasks + TaskOf(s.world, k)
  {}

  lemma UnmailedFinish(max: nat, s: State, k: Worker, n: NotificationId, post: Post)
    requires NotifyInv(max, s) && Unmailed(s, n) && post == NotifyStep(max, s, Relay(Finish(k.0, k.1))).post
    ensures !Mailed(post.mails, n) && !OwesTask(post, n)
  {
    FinishPosts(max, s, k);
    forall task <- TaskOf(s.world, k) ensures !(task.notification == n && task.emailEnabled) {
      if task.notification == n && task.emailEnabled {
        TaskIsTheWriters(max, s, k, n);
        assert false;
      }
    }
  }

  lemma UnmailedTask(max: nat, s: State, task: Task, n: NotificationId)
    requires Unmailed(s, n)
    ensures var post := NotifyStep(max, s, RunTask(task)).post; !Mailed(post.mails, n) && !OwesTask(post, n)
  {
    assert task in s.post.tasks && task.emailEnabled ==> task.notification != n;
  }

  lemma UnmailedPost(max: nat, s: State, e: NotifyEvent, n: NotificationId)
    requires NotifyInv(max, s) && Unmailed(s, n)
    ensures var post := NotifyStep(max, s, e).post; !Mailed(post.mails, n) && !OwesTask(post, n)
  {
    match e
    case Relay(Finish(token, id)) => UnmailedFinish(max, s, (token, id), n, NotifyStep(max, s, e).post);
    case RunTask(task) => UnmailedTask(max, s, task, n);
    case _ => OnlyFinishesAndTasksPost(max, s, e);
  }

  lemma UnmailedWorld(max: nat, s: State, e: NotifyEvent, n: NotificationId, s': State)
    requires NotifyInv(max, s) && Unmailed(s, n) && s' == NotifyStep(max, s, e)
    ensures var k := s.feed.writer[n];
            !ViableIn(s'.world, k, n, EmailChannelAvailable(s.feed.inApp[n].kind)) && k.0 < s'.world.nextToken
  {
    var k, open := s.feed.writer[n], EmailChannelAvailable(s.feed.inApp[n].kind);
    var trace := NotifyTrace(s, e);
    assert s'.world == if trace == [] then s.world else Step(max, s.world, trace[0]) by { NotifyStepIsARun(max, s, e); }
    if trace != [] {
      assert trace[0] == Return(k.0, k.1, Succeeded(Some(Delivery(n, true)))) ==> open by {
        if trace[0] == Return(k.0, k.1, Succeeded(Some(Delivery(n, true)))) { AnswersAreOwn(max, s, e, n); }
      }
      SpentStays(max, s.world, trace[0], k, n, open);
    }
  }

  lemma UnmailedStep(max: nat, s: State, e: NotifyEvent, n: NotificationId)
    requires NotifyInv(max, s) && Unmailed(s, n)
    ensures Unmailed(NotifyStep(max, s, e), n)
  {
    FeedStays(max, s, e, n);
    UnmailedPost(max, s, e, n);
    UnmailedWorld(max, s, e, n, NotifyStep(max, s, e));
  }

  /** Such a notification is never mailed: not by a redelivery, not by any later event. */
  lemma {:induction false} UnmailedForEver(max: nat, s: State, es: seq<NotifyEvent>, n: NotificationId)
    requires NotifyInv(max, s) && Unmailed(s, n)
    ensures Unmailed(NotifyRun(max, s, es), n)
    decreases |es|
  {
    if es != [] {
      UnmailedStep(max, s, es[0], n);
      NotifyStepKeeps(max, s, es[0]);
      UnmailedForEver(max, NotifyStep(max, s, es[0]), es[1..], n);
    }
  }

  // ── … and that it can, if anything is left ─────────────────────────────────

  lemma NotifyRunCons(max: nat, s: State, e: NotifyEvent, es: seq<NotifyEvent>)
    ensures NotifyRun(max, s, [e] + es) == NotifyRun(max, NotifyStep(max, s, e), es)
  {
    assert ([e] + es)[1..] == es;
  }

  lemma TaskMails(max: nat, s: State, task: Task) returns (es: seq<NotifyEvent>)
    requires task in s.post.tasks && task.emailEnabled && task.row in s.notices
    ensures Mailed(NotifyRun(max, s, es).post.mails, task.notification)
  {
    var user := s.notices[task.row].recipient;
    var s1 := NotifyStep(max, s, SetUser(user, 0));
    var s2 := NotifyStep(max, s1, RunTask(task));
    var n := task.notification;
    if !Mailed(s.post.mails, n) {
      var mails := s.post.mails + [Mail(n, 0)];
      assert mails[|mails| - 1] in mails;
      assert s2.post.mails == mails;
    }
    es := [SetUser(user, 0)] + ([RunTask(task)] + []);
    NotifyRunCons(max, s, SetUser(user, 0), [RunTask(task)] + []);
    NotifyRunCons(max, s1, RunTask(task), []);
  }

  /** The finish of an enabled answer leaves its task. */
  lemma FinishOwes(max: nat, s: State, k: Worker, n: NotificationId, s': State)
    requires ViableIn(s.world, k, n, false) && s' == NotifyStep(max, s, Relay(Finish(k.0, k.1)))
    ensures Task(k.1, n, true) in s'.post.tasks && s'.notices == s.notices
  {
    FinishPosts(max, s, k);
    assert Task(k.1, n, true) in TaskOf(s.world, k);
  }

  lemma AnswerMails(max: nat, s: State, n: NotificationId) returns (es: seq<NotifyEvent>)
    requires NotifyInv(max, s) && Viable(s, n) && s.world.jobs[s.feed.writer[n]].phase.Returned?
    ensures Mailed(NotifyRun(max, s, es).post.mails, n)
  {
    var k := s.feed.writer[n];
    assert k.1 in s.notices by {
      assert WrittenOk(s.desk, s.feed, n);
      assert CreatedOk(s.notices, s.desk, s.feed, k);
    }
    var finish: NotifyEvent := Relay(Finish(k.0, k.1));
    var s1 := NotifyStep(max, s, finish);
    FinishOwes(max, s, k, n, s1);
    var rest := TaskMails(max, s1, Task(k.1, n, true));
    NotifyRunCons(max, s, finish, rest);
    es := [finish] + rest;
  }

  /** A delivery that decides while every channel is open answers that the email is enabled. */
  lemma DecideEnables(max: nat, s: State, k: Worker, n: NotificationId, s': State)
    requires Delivering(s, k) && HoldsLease(s.world.rows, k.1, k.0) && k in s.desk.created && s.desk.created[k] == Some(n)
    requires n in s.feed.writer && n in s.feed.inApp && s.feed.writer[n] == k && EmailAllowed(s, k.1)
    requires s' == NotifyStep(max, s, Decide(k))
    ensures Viable(s', n) && s'.feed == s.feed && s'.world.jobs[k].phase.Returned?
  {}

  lemma PrefsOpen(max: nat, s: State, user: UserId, kind: string, s': State)
    requires s' == NotifyStep(max, s, SetPrefs(user, kind, Prefs(true, true)))
    ensures s' == s.(prefs := s'.prefs) && PrefsOf(s'.prefs, user, kind) == Prefs(true, true)
  {}

  /** The recipient opens every channel, and the delivery answers accordingly. */
  lemma CallMails(max: nat, s: State, n: NotificationId) returns (es: seq<NotifyEvent>)
    requires NotifyInv(max, s) && Viable(s, n) && s.world.jobs[s.feed.writer[n]].phase.Calling?
    ensures Mailed(NotifyRun(max, s, es).post.mails, n)
  {
    var k := s.feed.writer[n];
    assert WrittenOk(s.desk, s.feed, n) && CreatedOk(s.notices, s.desk, s.feed, k);
    var notice := s.notices[k.1];
    var open: NotifyEvent := SetPrefs(notice.recipient, notice.kind, Prefs(true, true));
    var s1 := NotifyStep(max, s, open);
    PrefsOpen(max, s, notice.recipient, notice.kind, s1);
    var s2 := NotifyStep(max, s1, Decide(k));
    DecideEnables(max, s1, k, n, s2);
    assert NotifyInv(max, s2) by {
      NotifyStepKeeps(max, s, open);
      NotifyStepKeeps(max, s1, Decide(k));
    }
    var rest := AnswerMails(max, s2, n);
    NotifyRunCons(max, s1, Decide(k), rest);
    NotifyRunCons(max, s, open, [Decide(k)] + rest);
    es := [open] + ([Decide(k)] + rest);
  }

  lemma RenewViable(max: nat, s: State, n: NotificationId, s': State)
    requires Viable(s, n) && s.world.jobs[s.feed.writer[n]].phase.Waiting? && s.feed.writer[n].1 in s.world.hist
    requires var k := s.feed.writer[n]; s' == NotifyStep(max, s, Relay(Renew(k.0, k.1, 0)))
    ensures Viable(s', n) && s'.feed == s.feed && s'.world.jobs[s.feed.writer[n]].phase.Calling?
  {}

  lemma WaitMails(max: nat, s: State, n: NotificationId) returns (es: seq<NotifyEvent>)
    requires NotifyInv(max, s) && Viable(s, n) && s.world.jobs[s.feed.writer[n]].phase.Waiting?
    ensures Mailed(NotifyRun(max, s, es).post.mails, n)
  {
    var k := s.feed.writer[n];
    var renew: NotifyEvent := Relay(Renew(k.0, k.1, 0));
    var s1 := NotifyStep(max, s, renew);
    RenewViable(max, s, n, s1);
    assert NotifyInv(max, s1) by { NotifyStepKeeps(max, s, renew); }
    var rest := CallMails(max, s1, n);
    NotifyRunCons(max, s, renew, rest);
    es := [renew] + rest;
  }

  lemma ViableMails(max: nat, s: State, n: NotificationId) returns (es: seq<NotifyEvent>)
    requires NotifyInv(max, s) && Viable(s, n)
    ensures Mailed(NotifyRun(max, s, es).post.mails, n)
  {
    match s.world.jobs[s.feed.writer[n]].phase
    case Returned(_) => es := AnswerMails(max, s, n);
    case Calling => es := CallMails(max, s, n);
    case Waiting => es := WaitMails(max, s, n);
  }

  /** Tokens a worker has inserted under were handed out. */
  ghost predicate TokensOk(s: State) {
    forall k <- s.desk.created :: k.0 < s.world.nextToken
  }

  lemma {:induction false} RunKeepsTokens(max: nat, s: State, es: seq<NotifyEvent>)
    requires NotifyInv(max, s) && TokensOk(s)
    ensures TokensOk(NotifyRun(max, s, es))
    decreases |es|
  {
    if es != [] {
      var s1 := NotifyStep(max, s, es[0]);
      StepKeepsTokens(max, s, es[0], s1);
      NotifyStepKeeps(max, s, es[0]);
      RunKeepsTokens(max, s1, es[1..]);
    }
  }

  lemma TokensGrow(max: nat, w: World<Option<Delivery>>, e: Event<Option<Delivery>>)
    ensures w.nextToken <= Step(max, w, e).nextToken
  {}

  lemma OnlyInsertsCreate(max: nat, s: State, e: NotifyEvent)
    ensures var created := NotifyStep(max, s, e).desk.created;
            created.Keys <= s.desk.created.Keys + if e.Insert? && Delivering(s, e.worker) then {e.worker} else {}
  {}

  lemma StepKeepsTokens(max: nat, s: State, e: NotifyEvent, s': State)
    requires NotifyInv(max, s) && TokensOk(s) && s' == NotifyStep(max, s, e)
    ensures TokensOk(s')
  {
    assert s.world.nextToken <= s'.world.nextToken by {
      NotifyStepIsARun(max, s, e);
      if NotifyTrace(s, e) != [] { TokensGrow(max, s.world, NotifyTrace(s, e)[0]); }
    }
    OnlyInsertsCreate(max, s, e);
    if e.Insert? && Delivering(s, e.worker) { assert JobInv(s.world, e.worker); }
  }

  ghost predicate MailedAfter(max: nat, s: State, es: seq<NotifyEvent>, n: NotificationId) {
    Mailed(NotifyRun(max, s, es).post.mails, n)
  }

  lemma SomeRunMails(max: nat, s: State, n: NotificationId) returns (es: seq<NotifyEvent>)
    requires NotifyInv(max, s) && MayBeMailed(s, n)
    ensures MailedAfter(max, s, es, n)
  {
    if Mailed(s.post.mails, n) {
      es := [];
    } else if OwesTask(s.post, n) {
      var task :| task in s.post.tasks && task.notification == n && task.emailEnabled;
      assert TaskOk(s, task);
      es := TaskMails(max, s, task);
    } else {
      es := ViableMails(max, s, n);
    }
  }

  /**
   * When a notification's email can still come, in every reachable state: some run mails it if and only if it is mailed,
   * or a task that mails it is waiting, or the delivery that wrote it holds its lease and has not answered otherwise.
   */
  lemma EmailCanComeIff(max: nat, s: State, n: NotificationId)
    requires Reachable(max, s) && n in s.feed.inApp
    ensures (exists es :: MailedAfter(max, s, es, n)) <==> MayBeMailed(s, n)
  {
    ReachableKeepsInv(max, s);
    assert WrittenOk(s.desk, s.feed, n);
    if MayBeMailed(s, n) {
      var es := SomeRunMails(max, s, n);
    } else {
      var es0 :| s == NotifyRun(max, NewNotifications(), es0);
      RunKeepsTokens(max, NewNotifications(), es0);
      forall es ensures !MailedAfter(max, s, es, n) { UnmailedForEver(max, s, es, n); }
    }
  }

  /**
   * So once the writer's row is sent or failed, all that is left is a task in some process's memory: the email of a sent,
   * fully permitted notification is lost exactly when neither it nor such a task exists.
   */
  lemma EmailLostIff(max: nat, s: State, n: NotificationId)
    requires Reachable(max, s) && n in s.feed.inApp && n in s.feed.writer
    requires s.feed.writer[n].1 in s.world.rows && !s.world.rows[s.feed.writer[n].1].status.Pending?
    ensures (forall es :: !MailedAfter(max, s, es, n))
            <==> !Mailed(s.post.mails, n) && forall task <- s.post.tasks :: task.notification == n ==> !task.emailEnabled
  {
    ReachableKeepsInv(max, s);
    EmailCanComeIff(max, s, n);
    assert RowInv(max, s.world, s.feed.writer[n].1);
  }

  // ── An email that is lost ──────────────────────────────────────────────────

  lemma {:induction false} NotifyRunConcat(max: nat, s: State, a: seq<NotifyEvent>, b: seq<NotifyEvent>)
    ensures NotifyRun(max, s, a + b) == NotifyRun(max, NotifyRun(max, s, a), b)
    decreases |a|
  {
    if a == [] {
      assert a + b == b;
    } else {
      assert (a + b)[1..] == a[1..] + b;
      NotifyRunConcat(max, NotifyStep(max, s, a[0]), a[1..], b);
    }
  }

  lemma Extend(max: nat, s: State, e: NotifyEvent)
    requires Reachable(max, s)
    ensures Reachable(max, NotifyStep(max, s, e))
  {
    var es :| s == NotifyRun(max, NewNotifications(), es);
    NotifyRunConcat(max, NewNotifications(), es, [e]);
    NotifyRunCons(max, s, e, []);
    assert [e] + [] == [e];
    assert NotifyStep(max, s, e) == NotifyRun(max, NewNotifications(), es + [e]);
  }

  const COMMENTED: Notice := Notice(1, "WORK_ITEM_COMMENTED", None)

  /** A worker claims a due row and starts its call. */
  lemma TakeOver<R>(max: nat, w: World<R>, id: Id)
    requires id in w.rows && id in w.hist && Due(w.rows[id], max, w.now)
    ensures var t, w' := w.nextToken, DoRenew(DoClaim(max, w, {id}, 0), w.nextToken, id, 0);
            && (t, id) in w'.jobs && w'.jobs[(t, id)].phase.Calling? && w'.jobs.Keys == w.jobs.Keys + {(t, id)}
            && id in w'.hist && w'.nextToken == t + 1 && w'.now == w.now && id in w'.rows
            && w'.rows[id] == Row(Pending, w.rows[id].attempts + 1, w.rows[id].scheduledAt, Some(t), Some(w.now))
  {
    var w1 := DoClaim(max, w, {id}, 0);
    assert id in Selected(w, max, {id});
    assert (w.nextToken, id) in w1.jobs;
    assert Selected(w, max, {id}) == {id};
  }

  lemma TakeRow(max: nat, s: State) returns (s': State)
    requires Reachable(max, s) && 0 in s.notices && 0 in s.world.rows && 0 in s.world.hist
    requires Due(s.world.rows[0], max, s.world.now)
    ensures Reachable(max, s') && s' == s.(world := s'.world)
    ensures s'.world == DoRenew(DoClaim(max, s.world, {0}, 0), s.world.nextToken, 0, 0)
  {
    Extend(max, s, Relay(Claim({0}, 0)));
    var s1 := NotifyStep(max, s, Relay(Claim({0}, 0)));
    Extend(max, s1, Relay(Renew(s.world.nextToken, 0, 0)));
    s' := NotifyStep(max, s1, Relay(Renew(s.world.nextToken, 0, 0)));
  }

  /** With no preference rows both channels are on: the delivery gets as far as its insert. */
  lemma CheckAndInsert(max: nat, s: State, k: Worker) returns (s': State)
    requires Reachable(max, s) && Delivering(s, k) && k !in s.desk.created && s.prefs == map[]
    requires s.notices[k.1] == COMMENTED
    ensures Reachable(max, s') && s' == s.(desk := s'.desk, feed := s'.feed)
    ensures s'.desk.created == s.desk.created[k := Send(s.feed, k, RowOf(s.notices, k.1)).1]
    ensures s'.feed == Send(s.feed, k, RowOf(s.notices, k.1)).0
  {
    Extend(max, s, CheckInApp(k));
    var s1 := NotifyStep(max, s, CheckInApp(k));
    Extend(max, s1, Insert(k));
    s' := NotifyStep(max, s1, Insert(k));
  }

  /** A comment is scheduled for a recipient who has an address. */
  lemma Scheduled(max: nat) returns (s: State)
    requires max > 1
    ensures Reachable(max, s) && s.notices == map[0 := COMMENTED] && 1 in s.users && s.prefs == map[]
    ensures s.desk == Desk({}, map[]) && s.feed == Feed(map[], map[], 0) && s.post == Post({}, [], {})
    ensures s.world == Step(max, Empty(), Enqueue(0, 0))
  {
    var s0 := NewNotifications();
    assert s0 == NotifyRun(max, s0, []);
    Extend(max, s0, SetUser(1, 7));
    var s1 := NotifyStep(max, s0, SetUser(1, 7));
    Extend(max, s1, Schedule(0, COMMENTED, 0));
    s := NotifyStep(max, s1, Schedule(0, COMMENTED, 0));
  }

  /** The first worker inserts the notification … */
  lemma FirstInserted(max: nat) returns (s: State)
    requires max > 1
    ensures Reachable(max, s) && s.notices == map[0 := COMMENTED] && 1 in s.users && s.prefs == map[]
    ensures s.desk.created == map[(0, 0) := Some(0)] && s.post == Post({}, [], {})
    ensures s.feed == Feed(map[0 := RowOf(s.notices, 0)], map[0 := (0, 0)], 1)
    ensures s.world.nextToken == 1 && s.world.jobs.Keys == {(0, 0)} && 0 in s.world.rows && 0 in s.world.hist
    ensures Due(s.world.rows[0], max, s.world.now)
  {
    var s0 := Scheduled(max);
    TakeOver(max, s0.world, 0);
    var s1 := TakeRow(max, s0);
    s := CheckAndInsert(max, s1, (0, 0));
  }

  /** … and dies before its finish. */
  lemma InsertedThenCrashed(max: nat) returns (s: State)
    requires max > 1
    ensures Reachable(max, s) && s.notices == map[0 := COMMENTED] && 1 in s.users && s.prefs == map[]
    ensures s.desk.created == map[(0, 0) := Some(0)] && s.post == Post({}, [], {})
    ensures s.feed == Feed(map[0 := RowOf(s.notices, 0)], map[0 := (0, 0)], 1)
    ensures s.world.nextToken == 1 && s.world.jobs.Keys == {} && 0 in s.world.rows && 0 in s.world.hist
    ensures Due(s.world.rows[0], max, s.world.now)
  {
    var s0 := FirstInserted(max);
    Extend(max, s0, Relay(Crash({(0, 0)})));
    s := NotifyStep(max, s0, Relay(Crash({(0, 0)})));
  }

  /** The second worker finds it already there. */
  lemma Redelivered(max: nat) returns (s: State)
    requires max > 1
    ensures Reachable(max, s) && s.notices == map[0 := COMMENTED] && 1 in s.users && s.prefs == map[]
    ensures s.desk.created == map[(0, 0) := Some(0), (1, 0) := None] && s.post == Post({}, [], {})
    ensures s.feed == Feed(map[0 := RowOf(s.notices, 0)], map[0 := (0, 0)], 1)
    ensures s.world.nextToken == 2 && Delivering(s, (1, 0)) && (0, 0) !in s.world.jobs
    ensures HoldsLease(s.world.rows, 0, 1) && 0 in s.world.hist
  {
    var s0 := InsertedThenCrashed(max);
    TakeOver(max, s0.world, 0);
    var s1 := TakeRow(max, s0);
    assert s1.feed.inApp[0].source == SourceOf(0, COMMENTED);
    s := CheckAndInsert(max, s1, (1, 0));
  }

  /** Finding it there is a success like any other. */
  lemma AnsweredAgain(max: nat) returns (s: State)
    requires max > 1
    ensures Reachable(max, s) && s.notices == map[0 := COMMENTED] && 1 in s.users && s.prefs == map[]
    ensures s.desk.created == map[(0, 0) := Some(0), (1, 0) := None] && s.post == Post({}, [], {})
    ensures s.feed == Feed(map[0 := RowOf(s.notices, 0)], map[0 := (0, 0)], 1)
    ensures CommitsSent(s.world, 1, 0) && (0, 0) !in s.world.jobs && 0 in s.world.hist && s.world.nextToken == 2
    ensures TaskOf(s.world, (1, 0)) == {}
  {
    var s0 := Redelivered(max);
    Extend(max, s0, Decide((1, 0)));
    s := NotifyStep(max, s0, Decide((1, 0)));
  }

  /** … so the row is finished as sent. */
  lemma FinishedAgain(max: nat) returns (s: State)
    requires max > 1
    ensures Reachable(max, s) && s.notices == map[0 := COMMENTED] && 1 in s.users && s.prefs == map[]
    ensures Unmailed(s, 0) && s.feed == Feed(map[0 := RowOf(s.notices, 0)], map[0 := (0, 0)], 1)
    ensures 0 in s.world.rows && s.world.rows[0].status.Sent?
  {
    var s0 := AnsweredAgain(max);
    Extend(max, s0, Relay(Finish(1, 0)));
    s := NotifyStep(max, s0, Relay(Finish(1, 0)));
  }

  /**
   * A promise the relay cannot keep: the row is `sent`, its notification exists, template, preference and address all
   * allow an email, and none was scheduled or ever will be.
   */
  lemma EmailCanBeLost(max: nat) returns (s: State)
    requires max > 1
    ensures Reachable(max, s) && 0 in s.notices && 0 in s.world.rows && s.world.rows[0].status.Sent?
    ensures EmailAllowed(s, 0) && s.notices[0].recipient in s.users && SourceTaken(s.feed, SourceOf(0, s.notices[0]))
    ensures forall es :: Unmailed(NotifyRun(max, s, es), 0)
  {
    s := FinishedAgain(max);
    assert s.feed.inApp[0].source == SourceOf(0, COMMENTED);
    ReachableKeepsInv(max, s);
    forall es ensures Unmailed(NotifyRun(max, s, es), 0) { UnmailedForEver(max, s, es, 0); }
  }
}
