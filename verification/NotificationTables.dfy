/** The notification relay's own steps as they run, over the tables they write. */
module NotificationTables {
  import opened Wrappers
  import opened OutboxLease
  import opened Notifications

  class Tables {
    var feed: Feed
    var post: Post
    var prefs: map<(UserId, string), Prefs>
    var users: map<UserId, Address>

    constructor ()
      ensures feed == Feed(map[], map[], 0) && post == Post({}, [], {}) && prefs == map[] && users == map[]
    {
      feed, post := Feed(map[], map[], 0), Post({}, [], {});
      prefs, users := map[], map[];
    }

    /** NotificationDrizzleRepository.create: None when the source id is taken. */
    method CreateNotification(k: Worker, row: InApp) returns (id: Option<NotificationId>)
      modifies this`feed
      ensures (feed, id) == Send(old(feed), k, row)
    {
      if exists n <- feed.inApp :: feed.inApp[n].source == row.source { return None; }
      var n := feed.next;
      feed := feed.(inApp := feed.inApp[n := row]);
      feed := feed.(writer := feed.writer[n := k]);
      feed := feed.(next := n + 1);
      return Some(n);
    }

    /**
     * deliver, start to end: opted out, or a type that cannot be rendered, or a duplicate, or a new notification whose
     * email is decided by the template first and the preference second.
     */
    method Deliver(k: Worker, notice: Notice) returns (outcome: Outcome<Option<Delivery>>)
      modifies this`feed
      ensures var source := SourceOf(k.1, notice);
              var mine := PrefsOf(prefs, notice.recipient, notice.kind);
              && (!mine.inApp ==> outcome == Succeeded(None) && feed == old(feed))
              && (mine.inApp && !Renderable(notice.kind) ==> outcome == Retryable && feed == old(feed))
              && (mine.inApp && Renderable(notice.kind) ==>
                    && SourceTaken(feed, source)
                    && (SourceTaken(old(feed), source) ==> outcome == Succeeded(None) && feed == old(feed))
                    && (!SourceTaken(old(feed), source) ==>
                          outcome == Succeeded(Some(Delivery(old(feed).next, EmailChannelAvailable(notice.kind) && mine.email)))
                          && feed.inApp == old(feed).inApp[old(feed).next := InApp(source, notice.recipient, notice.kind)]))
    {
      var inAppEnabled := PrefsOf(prefs, notice.recipient, notice.kind).inApp;
      if !inAppEnabled { return Succeeded(None); }
      if !Renderable(notice.kind) { return Retryable; }
      var id := CreateNotification(k, InApp(SourceOf(k.1, notice), notice.recipient, notice.kind));
      if id.None? { return Succeeded(None); }
      assert feed.inApp[id.value].source == SourceOf(k.1, notice);
      var emailEnabled := EmailChannelAvailable(notice.kind);
      if emailEnabled {
        emailEnabled := PrefsOf(prefs, notice.recipient, notice.kind).email;
      }
      return Succeeded(Some(Delivery(id.value, emailEnabled)));
    }

    /** scheduleNotificationEmail: no address, no email; a second run of the same task is a no-op. */
    method ScheduleNotificationEmail(recipient: UserId, id: NotificationId)
      modifies this`post
      ensures post.mails == if recipient in users then ScheduleEmail(old(post.mails), id, users[recipient]) else old(post.mails)
      ensures post == old(post).(mails := post.mails)
    {
      if recipient !in users { return; }
      if exists m <- post.mails :: m.notification == id { return; }
      post := post.(mails := post.mails + [Mail(id, users[recipient])]);
    }
  }
}
