/**
 * The notification service: an ordered feed of notifications with read
 * state, the operations that change it, its queries, and the subscriber
 * fan-out that follows every successful change.
 *
 * Callbacks are modelled as subscriber values. Invoking them is modelled
 * as appending one delivery per subscriber to a log; a subscriber whose
 * `raises` flag is set (it raises an `Exception`) has its delivery recorded
 * as raised, and the exception is swallowed: later subscribers are still called and the
 * change stays in place. The clock and the random id suffix are inputs.
 */
module Notifications {
  import opened Common
  import opened Sorting

  /** `NotificationType`. */
  datatype NotificationType = Info | Warning | Alert | Emergency

  /** A notification; `created_at` is a clock reading. */
  datatype Notification = Notification(
    id: string,
    title: string,
    message: string,
    notificationType: NotificationType,
    isRead: bool,
    createdAt: int,
    actionUrl: Option<string>,
    actionLabel: Option<string>)

  /**
   * `Notification(id, title, message, type, created_at=...)`: unread, no
   * action; an absent `created_at` is replaced by the clock reading `now`.
   */
  function NewNotification(id: string, title: string, message: string, notificationType: NotificationType,
                           createdAt: Option<int>, now: int): (n: Notification)
    ensures n.id == id && n.title == title && n.message == message && n.notificationType == notificationType
    ensures !n.isRead && n.actionUrl.None? && n.actionLabel.None?
    ensures createdAt.None? ==> n.createdAt == now
    ensures createdAt.Some? ==> n.createdAt == createdAt.value
  {
    Notification(id, title, message, notificationType, false,
                 match createdAt case Some(t) => t case None => now,
                 None, None)
  }

  /** The colour table of `get_type_color`. */
  const TypeColors: map<NotificationType, string> := map[
    Info := "#2196F3",
    Warning := "#FFC107",
    Alert := "#FF9800",
    Emergency := "#F44336"
  ]

  /** The colour for a type outside the table. */
  const UnknownTypeColor := "#9E9E9E"

  /** The icon table of `get_type_icon`. */
  const TypeIcons: map<NotificationType, string> := map[
    Info := "ℹ️",
    Warning := "⚠️",
    Alert := "🔔",
    Emergency := "🚨"
  ]

  /** The icon for a type outside the table. */
  const UnknownTypeIcon := "📌"

  /** `get_type_color`: the table covers every type, so the fallback never shows. */
  function TypeColor(n: Notification): (c: string)
    ensures c != UnknownTypeColor
    ensures c in TypeColors.Values
    ensures n.notificationType in TypeColors && c == TypeColors[n.notificationType]
  {
    assert n.notificationType in TypeColors by {
      assert n.notificationType.Info? || n.notificationType.Warning?
          || n.notificationType.Alert? || n.notificationType.Emergency?;
    }
    if n.notificationType in TypeColors then TypeColors[n.notificationType] else UnknownTypeColor
  }

  /** `get_type_icon`: the table covers every type, so the fallback never shows. */
  function TypeIcon(n: Notification): (c: string)
    ensures c != UnknownTypeIcon
    ensures c in TypeIcons.Values
    ensures n.notificationType in TypeIcons && c == TypeIcons[n.notificationType]
  {
    assert n.notificationType in TypeIcons by {
      assert n.notificationType.Info? || n.notificationType.Warning?
          || n.notificationType.Alert? || n.notificationType.Emergency?;
    }
    if n.notificationType in TypeIcons then TypeIcons[n.notificationType] else UnknownTypeIcon
  }

  /** Different types get different colours and different icons. */
  lemma TypeColorsAndIconsDistinct(a: Notification, b: Notification)
    requires a.notificationType != b.notificationType
    ensures TypeColor(a) != TypeColor(b)
    ensures TypeIcon(a) != TypeIcon(b)
  {
  }

  /** A registered callback; `raises` says whether calling it throws. */
  datatype Subscriber = Subscriber(id: nat, raises: bool)

  /** One callback invocation of fan-out round `round`; `raised` records a swallowed exception. */
  datatype Delivery = Delivery(round: nat, subscriber: Subscriber, raised: bool)

  /**
   * The service state: the stored notifications in insertion order, the
   * callback list, the number of fan-out rounds so far and the delivery log.
   */
  datatype Feed = Feed(notifications: seq<Notification>, callbacks: seq<Subscriber>, rounds: nat, log: seq<Delivery>)

  /** A freshly constructed service: the one mock warning, unread, stamped `now`; no subscribers. */
  function MockFeed(now: int): (f: Feed)
    ensures |f.notifications| == 1 && f.callbacks == [] && f.log == []
    ensures UnreadCount(f) == 1
  {
    var n := NewNotification("notif_1", "Предупреждение о погоде",
                             "Завтра ожидается сильный ветер.  Будьте осторожны! ",
                             Warning, None, now);
    assert Filter(IsUnread, [n]) == [n] by {
      assert [n][1..] == [];
    }
    Feed([n], [], 0, [])
  }

  /** The deliveries of one round: every subscriber in subscription order, raising or not. */
  function Deliveries(round: nat, callbacks: seq<Subscriber>): (r: seq<Delivery>)
    ensures |r| == |callbacks|
    ensures forall i :: 0 <= i < |r| ==> r[i].round == round && r[i].subscriber == callbacks[i]
    ensures forall i :: 0 <= i < |r| ==> r[i].raised == callbacks[i].raises
  {
    seq(|callbacks|, i requires 0 <= i < |callbacks| => Delivery(round, callbacks[i], callbacks[i].raises))
  }

  /** `_notify_callbacks`: one round that calls every subscriber and swallows their exceptions. */
  function FanOut(f: Feed): (r: Feed)
    ensures r.notifications == f.notifications && r.callbacks == f.callbacks
    ensures r.rounds == f.rounds + 1
    ensures r.log == f.log + Deliveries(f.rounds, f.callbacks)
  {
    f.(rounds := f.rounds + 1, log := f.log + Deliveries(f.rounds, f.callbacks))
  }

  /** `after` is `before` followed by exactly one fan-out round to `before`'s subscribers. */
  ghost predicate FiredOnce(before: Feed, after: Feed)
  {
    && after.callbacks == before.callbacks
    && after.rounds == before.rounds + 1
    && after.log == before.log + Deliveries(before.rounds, before.callbacks)
  }

  function IsUnread(n: Notification): bool { !n.isRead }

  /** `get_unread_notifications`: the unread notifications, in stored order. */
  function UnreadNotifications(f: Feed): (r: seq<Notification>)
    ensures forall n :: n in r <==> n in f.notifications && !n.isRead
    ensures forall n :: multiset(r)[n] == if n.isRead then 0 else multiset(f.notifications)[n]
    ensures IsSubsequence(r, f.notifications)
  {
    FilterIsSubsequence(IsUnread, f.notifications);
    FilterMultiset(IsUnread, f.notifications);
    Filter(IsUnread, f.notifications)
  }

  /** `get_unread_count`. */
  function UnreadCount(f: Feed): nat
  {
    |UnreadNotifications(f)|
  }

  /** The unread count is at most the feed length, and zero exactly when every notification is read. */
  lemma UnreadCountBounds(f: Feed)
    ensures UnreadCount(f) <= |f.notifications|
    ensures UnreadCount(f) == 0 <==> forall i :: 0 <= i < |f.notifications| ==> f.notifications[i].isRead
  {
    var r := UnreadNotifications(f);
    assert |r| > 0 ==> r[0] in r;
    if i :| 0 <= i < |f.notifications| && !f.notifications[i].isRead {
      assert f.notifications[i] in r;
    }
  }

  /** A feed in which every notification is read has no unread ones. */
  lemma {:induction false} NoneUnread(ns: seq<Notification>)
    requires forall i :: 0 <= i < |ns| ==> ns[i].isRead
    ensures Filter(IsUnread, ns) == []
    decreases |ns|
  {
    if |ns| > 0 {
      NoneUnread(ns[1..]);
    }
  }

  /**
   * `add_notification`: appends one unread notification with id
   * `"notif_" + token` stamped `now`, leaves the others alone, raises the
   * unread count by one, fires once and returns the new notification.
   */
  function AddNotification(f: Feed, token: string, title: string, message: string,
                           notificationType: NotificationType,
                           actionUrl: Option<string>, actionLabel: Option<string>, now: int)
    : (r: (Feed, Notification))
    ensures r.1.id == "notif_" + token && !r.1.isRead && r.1.createdAt == now
    ensures r.1.title == title && r.1.message == message && r.1.notificationType == notificationType
    ensures r.1.actionUrl == actionUrl && r.1.actionLabel == actionLabel
    ensures r.0.notifications == f.notifications + [r.1]
    ensures UnreadCount(r.0) == UnreadCount(f) + 1
    ensures FiredOnce(f, r.0)
  {
    var n := NewNotification("notif_" + token, title, message, notificationType, None, now)
               .(actionUrl := actionUrl, actionLabel := actionLabel);
    FilterSnoc(IsUnread, f.notifications, n);
    (FanOut(f.(notifications := f.notifications + [n])), n)
  }

  /** The type `add_notification` uses when none is given. */
  const DefaultNotificationType := Info

  function HasId(id: string): Notification -> bool { (n: Notification) => n.id == id }

  /**
   * `mark_as_read`: when some notification has the id, the first one is
   * marked read, nothing else changes, the result is true and fan-out fires
   * once; otherwise the result is false and the feed, log included, is unchanged.
   */
  function MarkAsRead(f: Feed, id: string): (r: (Feed, bool))
    ensures r.1 <==> exists i :: 0 <= i < |f.notifications| && f.notifications[i].id == id
    ensures !r.1 ==> r.0 == f
    ensures r.1 ==> exists i: nat :: IsFirstMatch(HasId(id), f.notifications, i)
                      && r.0.notifications == f.notifications[i := f.notifications[i].(isRead := true)]
    ensures r.1 ==> FiredOnce(f, r.0)
  {
    match FirstIndex(HasId(id), f.notifications)
    case None => (f, false)
    case Some(i) =>
      var ns := f.notifications[i := f.notifications[i].(isRead := true)];
      (FanOut(f.(notifications := ns)), true)
  }

  /** Marking the same id twice leaves the notifications as marking it once; only fan-out repeats. */
  lemma MarkAsReadIdempotent(f: Feed, id: string)
    ensures MarkAsRead(MarkAsRead(f, id).0, id).0.notifications == MarkAsRead(f, id).0.notifications
  {
    var r1 := MarkAsRead(f, id);
    if r1.1 {
      var i: nat :| IsFirstMatch(HasId(id), f.notifications, i)
                    && r1.0.notifications == f.notifications[i := f.notifications[i].(isRead := true)];
      var ns := r1.0.notifications;
      assert IsFirstMatch(HasId(id), ns, i);
      var r2 := MarkAsRead(r1.0, id);
      assert r2.1;
      var j: nat :| IsFirstMatch(HasId(id), ns, j) && r2.0.notifications == ns[j := ns[j].(isRead := true)];
      FirstMatchUnique(HasId(id), ns, i, j);
      assert ns[i].isRead;
      assert ns[i := ns[i].(isRead := true)] == ns;
    }
  }

  /** Marking one notification read lowers the unread count by one exactly when it was unread. */
  lemma MarkAsReadUnreadCount(f: Feed, id: string)
    ensures var r := MarkAsRead(f, id);
            r.1 ==> exists i: nat :: IsFirstMatch(HasId(id), f.notifications, i)
                     && UnreadCount(r.0) == UnreadCount(f) - (if f.notifications[i].isRead then 0 else 1)
    ensures !MarkAsRead(f, id).1 ==> UnreadCount(MarkAsRead(f, id).0) == UnreadCount(f)
  {
    var r := MarkAsRead(f, id);
    if r.1 {
      var i: nat :| IsFirstMatch(HasId(id), f.notifications, i)
                    && r.0.notifications == f.notifications[i := f.notifications[i].(isRead := true)];
      FilterUpdateCount(IsUnread, f.notifications, i, f.notifications[i].(isRead := true));
    }
  }

  /**
   * `mark_all_as_read`: every notification is marked read and nothing else
   * about it changes, the unread count becomes 0, and fan-out fires once,
   * even when the feed is empty or already read.
   */
  function MarkAllAsRead(f: Feed): (r: Feed)
    ensures |r.notifications| == |f.notifications|
    ensures forall i :: 0 <= i < |r.notifications| ==> r.notifications[i] == f.notifications[i].(isRead := true)
    ensures UnreadCount(r) == 0
    ensures FiredOnce(f, r)
  {
    var ns := seq(|f.notifications|, i requires 0 <= i < |f.notifications| => f.notifications[i].(isRead := true));
    NoneUnread(ns);
    FanOut(f.(notifications := ns))
  }

  /**
   * `delete_notification`: when some notification has the id, the first
   * one is removed, the rest keep their order, the result is true and
   * fan-out fires once; otherwise the result is false and nothing changes.
   */
  function DeleteNotification(f: Feed, id: string): (r: (Feed, bool))
    ensures r.1 <==> exists i :: 0 <= i < |f.notifications| && f.notifications[i].id == id
    ensures !r.1 ==> r.0 == f
    ensures r.1 ==> |r.0.notifications| == |f.notifications| - 1
    ensures r.1 ==> exists i: nat :: IsFirstMatch(HasId(id), f.notifications, i)
                      && r.0.notifications == RemoveAt(f.notifications, i)
    ensures r.1 ==> FiredOnce(f, r.0)
  {
    match FirstIndex(HasId(id), f.notifications)
    case None => (f, false)
    case Some(i) => (FanOut(f.(notifications := RemoveAt(f.notifications, i))), true)
  }

  /** Deleting a just-added notification whose id was new restores the previous notifications. */
  lemma AddThenDelete(f: Feed, token: string, title: string, message: string,
                      notificationType: NotificationType,
                      actionUrl: Option<string>, actionLabel: Option<string>, now: int)
    requires forall i :: 0 <= i < |f.notifications| ==> f.notifications[i].id != "notif_" + token
    ensures var added := AddNotification(f, token, title, message, notificationType, actionUrl, actionLabel, now).0;
            var deleted := DeleteNotification(added, "notif_" + token);
            deleted.1 && deleted.0.notifications == f.notifications
  {
    var r := AddNotification(f, token, title, message, notificationType, actionUrl, actionLabel, now);
    DeleteFreshLast(f.notifications, r.1);
  }

  /** In a list whose last notification alone has its id, that id is found at the last position. */
  lemma FindFreshLast(ns: seq<Notification>, n: Notification)
    requires forall i :: 0 <= i < |ns| ==> ns[i].id != n.id
    ensures FirstIndex(HasId(n.id), ns + [n]) == Some(|ns|)
  {
    var all := ns + [n];
    assert HasId(n.id)(all[|ns|]);
    var j := FirstIndex(HasId(n.id), all).value;
    assert IsFirstMatch(HasId(n.id), all, |ns|);
    FirstMatchUnique(HasId(n.id), all, j, |ns|);
  }

  /** Removing the last notification restores the list it was appended to. */
  lemma RemoveLast(ns: seq<Notification>, n: Notification)
    ensures RemoveAt(ns + [n], |ns|) == ns
  {
    assert (ns + [n])[..|ns|] == ns;
  }

  /** In a list whose last notification alone has its id, deleting that id removes exactly the last one. */
  lemma DeleteFreshLast(ns: seq<Notification>, n: Notification)
    requires forall i :: 0 <= i < |ns| ==> ns[i].id != n.id
    ensures FirstIndex(HasId(n.id), ns + [n]) == Some(|ns|)
    ensures RemoveAt(ns + [n], |ns|) == ns
  {
    FindFreshLast(ns, n);
    RemoveLast(ns, n);
  }

  /** Sort key of `get_all_notifications`: ascending on the negated time is newest first. */
  function NewestFirst(n: Notification): real { -(n.createdAt as real) }

  /**
   * `get_all_notifications`: the stored notifications, newest first,
   * recomputed on each call.
   */
  function AllNotifications(f: Feed): (r: seq<Notification>)
    ensures multiset(r) == multiset(f.notifications)
    ensures forall i, j :: 0 <= i < j < |r| ==> r[i].createdAt >= r[j].createdAt
  {
    var r := Sort(NewestFirst, f.notifications);
    assert forall i, j :: 0 <= i < j < |r| ==> NewestFirst(r[i]) <= NewestFirst(r[j]);
    r
  }

  function CreatedAt(t: int): Notification -> bool { (n: Notification) => n.createdAt == t }

  /** Notifications created at the same instant keep their stored order in the newest-first view. */
  lemma AllNotificationsTiesKeepOrder(f: Feed, t: int)
    ensures Filter(CreatedAt(t), AllNotifications(f)) == Filter(CreatedAt(t), f.notifications)
  {
    var k := -(t as real);
    SortStable(NewestFirst, f.notifications, k);
    forall n: Notification
      ensures KeyIs(NewestFirst, k)(n) == CreatedAt(t)(n)
    {
      assert NewestFirst(n) == k <==> n.createdAt == t;
    }
    FilterSamePredicate(KeyIs(NewestFirst, k), CreatedAt(t), AllNotifications(f));
    FilterSamePredicate(KeyIs(NewestFirst, k), CreatedAt(t), f.notifications);
  }

  /** `subscribe`: appends the callback, duplicates allowed; no fan-out. */
  function Subscribe(f: Feed, cb: Subscriber): (r: Feed)
    ensures r.callbacks == f.callbacks + [cb]
    ensures r.notifications == f.notifications && r.rounds == f.rounds && r.log == f.log
  {
    f.(callbacks := f.callbacks + [cb])
  }

  function IsCallback(cb: Subscriber): Subscriber -> bool { (s: Subscriber) => s == cb }

  /**
   * `unsubscribe`: removes the first occurrence of the callback, or does
   * nothing when it is not registered; no fan-out.
   */
  function Unsubscribe(f: Feed, cb: Subscriber): (r: Feed)
    ensures cb !in f.callbacks ==> r == f
    ensures cb in f.callbacks ==> exists i: nat :: IsFirstMatch(IsCallback(cb), f.callbacks, i)
                                    && r.callbacks == RemoveAt(f.callbacks, i)
    ensures multiset(r.callbacks) == multiset(f.callbacks) - multiset{cb}
    ensures r.notifications == f.notifications && r.rounds == f.rounds && r.log == f.log
  {
    match FirstIndex(IsCallback(cb), f.callbacks)
    case None => f
    case Some(i) => f.(callbacks := RemoveAt(f.callbacks, i))
  }

  /** Unsubscribing a callback that was just subscribed for the first time undoes the subscription. */
  lemma SubscribeThenUnsubscribe(f: Feed, cb: Subscriber)
    requires cb !in f.callbacks
    ensures Unsubscribe(Subscribe(f, cb), cb) == f
  {
    var g := Subscribe(f, cb);
    var k := |f.callbacks|;
    assert g.callbacks[k] == cb;
    assert IsFirstMatch(IsCallback(cb), g.callbacks, k);
    var i: nat :| IsFirstMatch(IsCallback(cb), g.callbacks, i)
                  && Unsubscribe(g, cb).callbacks == RemoveAt(g.callbacks, i);
    FirstMatchUnique(IsCallback(cb), g.callbacks, i, k);
    assert RemoveAt(g.callbacks, k) == f.callbacks;
  }

  /**
   * A subscriber that raises on every call neither hides the change nor
   * stops a later, well-behaved subscriber from being called. The call is
   * `add_notification(title, message)` with every default, so the new
   * notification is an information notice.
   */
  lemma FailingSubscriberIsolated(f: Feed, bad: Subscriber, good: Subscriber, token: string, title: string,
                                  message: string, now: int)
    requires f.callbacks == [bad, good] && bad.raises && !good.raises
    ensures var r := AddNotification(f, token, title, message, DefaultNotificationType, None, None, now);
            && r.1.notificationType == Info
            && UnreadCount(r.0) == UnreadCount(f) + 1
            && r.0.log == f.log + [Delivery(f.rounds, bad, true), Delivery(f.rounds, good, false)]
  {
    var r := AddNotification(f, token, title, message, DefaultNotificationType, None, None, now);
    assert r.0.log == f.log + Deliveries(f.rounds, [bad, good]);
    TwoDeliveries(f.rounds, bad, good);
  }

  /** The round delivered to two subscribers. */
  lemma TwoDeliveries(round: nat, a: Subscriber, b: Subscriber)
    ensures Deliveries(round, [a, b]) == [Delivery(round, a, a.raises), Delivery(round, b, b.raises)]
  {
    var d := Deliveries(round, [a, b]);
    assert d[0] == Delivery(round, a, a.raises);
    assert d[1] == Delivery(round, b, b.raises);
  }
}
