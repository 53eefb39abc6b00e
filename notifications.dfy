/**
 * NotificationServiceImpl: the notifications table. Rows are created unread,
 * read and deleted only by their recipient (in the two-argument variants), and
 * `markAllAsRead` clears one user's unread rows.
 */
module Notifications {
  import opened Domain
  import opened Store
  import opened Seqs

  /** The rows `createNotification` stores for `events`, issued in order from `firstId`. */
  function Stored(events: seq<Event>, firstId: nat, now: Time): (r: seq<Notification>)
    ensures |r| == |events|
    ensures forall i :: 0 <= i < |r| ==> r[i] == Notification(firstId + i, events[i], false, now, None)
  {
    seq(|events|, i requires 0 <= i < |events| => Notification(firstId + i, events[i], false, now, None))
  }

  lemma StoredSnoc(events: seq<Event>, e: Event, firstId: nat, now: Time)
    ensures Stored(events + [e], firstId, now)
         == Stored(events, firstId, now) + [Notification(firstId + |events|, e, false, now, None)]
  {
  }

  lemma StoredAppend(a: seq<Event>, b: seq<Event>, firstId: nat, now: Time)
    ensures Stored(a + b, firstId, now) == Stored(a, firstId, now) + Stored(b, firstId + |a|, now)
  {
  }

  /** createNotification: stores one unread row for `e`, stamped with `now`. */
  method CreateNotification(db: Database, e: Event, now: Time) returns (n: Notification)
    requires db.Valid()
    modifies db`notifications, db`nextNotificationId
    ensures db.Valid()
    ensures n == Notification(old(db.nextNotificationId), e, false, now, None)
    ensures db.notifications == old(db.notifications) + [n]
    ensures db.nextNotificationId == old(db.nextNotificationId) + 1
  {
    n := Notification(db.nextNotificationId, e, false, now, None);
    db.notifications := db.notifications + [n];
    db.nextNotificationId := db.nextNotificationId + 1;
  }

  /** One `createNotification` call per event, in order. */
  method Emit(db: Database, events: seq<Event>, now: Time)
    requires db.Valid()
    modifies db`notifications, db`nextNotificationId
    ensures db.Valid()
    ensures db.notifications == old(db.notifications) + Stored(events, old(db.nextNotificationId), now)
    ensures db.nextNotificationId == old(db.nextNotificationId) + |events|
  {
    for i := 0 to |events|
      invariant db.Valid()
      invariant db.notifications == old(db.notifications) + Stored(events[..i], old(db.nextNotificationId), now)
      invariant db.nextNotificationId == old(db.nextNotificationId) + i
    {
      assert events[..i + 1] == events[..i] + [events[i]];
      StoredSnoc(events[..i], events[i], old(db.nextNotificationId), now);
      var _ := CreateNotification(db, events[i], now);
    }
    assert events[..|events|] == events;
  }

  predicate IsUnreadFor(n: Notification, userId: UserId) {
    n.event.recipient == userId && !n.isRead
  }

  /** countByRecipientIdAndIsRead(userId, false). */
  function UnreadCount(t: seq<Notification>, userId: UserId): (c: nat)
    ensures c <= |t|
    ensures c == 0 <==> forall i :: 0 <= i < |t| ==> !IsUnreadFor(t[i], userId)
    ensures c == |t| <==> forall i :: 0 <= i < |t| ==> IsUnreadFor(t[i], userId)
  {
    if t == [] then 0
    else (if IsUnreadFor(t[0], userId) then 1 else 0) + UnreadCount(t[1..], userId)
  }

  /** The flag update both `markAsRead` variants perform; `readAt` is overwritten every time. */
  function MarkRead(n: Notification, now: Time): (m: Notification)
    ensures m.isRead && m.readAt == Some(now)
    ensures m.id == n.id && m.event == n.event && m.createdAt == n.createdAt
  {
    n.(isRead := true, readAt := Some(now))
  }

  /** Reading twice leaves the flag set; only the second timestamp survives. */
  lemma MarkReadTwice(n: Notification, t1: Time, t2: Time)
    ensures MarkRead(MarkRead(n, t1), t2) == MarkRead(n, t2)
  {
  }

  /** The identity column of the notifications table. */
  function NotificationIdOf(n: Notification): NotificationId {
    n.id
  }

  /** markAsRead(notificationId): no ownership check. */
  method MarkAsRead(db: Database, id: NotificationId, now: Time) returns (res: Result<Notification>)
    requires db.Valid()
    modifies db`notifications
    ensures db.Valid()
    ensures match old(IndexOfId(db.notifications, NotificationIdOf, id))
      case None => res == Failure(NotFound(NotificationEntity)) && db.notifications == old(db.notifications)
      case Some(k) =>
        && res == Success(MarkRead(old(db.notifications[k]), now))
        && db.notifications == old(db.notifications)[k := res.value]
  {
    var found := IndexOfId(db.notifications, NotificationIdOf, id);
    if found.None? {
      return Failure(NotFound(NotificationEntity));
    }
    var k := found.value;
    var n := MarkRead(db.notifications[k], now);
    db.notifications := db.notifications[k := n];
    res := Success(n);
  }

  /** markAsRead(notificationId, userId): NotFound first, then the recipient check. */
  method MarkAsReadByRecipient(db: Database, id: NotificationId, userId: UserId, now: Time)
    returns (res: Result<Notification>)
    requires db.Valid()
    modifies db`notifications
    ensures db.Valid()
    ensures match old(IndexOfId(db.notifications, NotificationIdOf, id))
      case None => res == Failure(NotFound(NotificationEntity)) && db.notifications == old(db.notifications)
      case Some(k) =>
        if old(db.notifications[k]).event.recipient != userId then
          res == Failure(Unauthorized) && db.notifications == old(db.notifications)
        else
          && res == Success(MarkRead(old(db.notifications[k]), now))
          && db.notifications == old(db.notifications)[k := res.value]
  {
    var found := IndexOfId(db.notifications, NotificationIdOf, id);
    if found.None? {
      return Failure(NotFound(NotificationEntity));
    }
    var k := found.value;
    if db.notifications[k].event.recipient != userId {
      return Failure(Unauthorized);
    }
    var n := MarkRead(db.notifications[k], now);
    db.notifications := db.notifications[k := n];
    res := Success(n);
  }

  /** What `markAllAsRead(userId)` does to one row. */
  function MarkReadIfUnreadFor(n: Notification, userId: UserId, now: Time): Notification {
    if IsUnreadFor(n, userId) then MarkRead(n, now) else n
  }

  /** The table after `markAllAsRead(userId)`: exactly that user's unread rows are marked. */
  function MarkAllRead(t: seq<Notification>, userId: UserId, now: Time): (r: seq<Notification>)
    ensures |r| == |t|
    ensures forall i :: 0 <= i < |t| ==> r[i] == MarkReadIfUnreadFor(t[i], userId, now)
  {
    seq(|t|, i requires 0 <= i < |t| => MarkReadIfUnreadFor(t[i], userId, now))
  }

  /** After `markAllAsRead(userId)` the user has nothing unread. */
  lemma {:induction false} MarkAllReadClearsUnread(t: seq<Notification>, userId: UserId, now: Time)
    ensures UnreadCount(MarkAllRead(t, userId, now), userId) == 0
  {
    var r := MarkAllRead(t, userId, now);
    forall i | 0 <= i < |r|
      ensures !IsUnreadFor(r[i], userId)
    {
    }
  }

  /** Another user's unread count is untouched by `markAllAsRead(userId)`. */
  lemma {:induction false} MarkAllReadKeepsOthers(t: seq<Notification>, userId: UserId, other: UserId, now: Time)
    requires other != userId
    ensures UnreadCount(MarkAllRead(t, userId, now), other) == UnreadCount(t, other)
  {
    if t != [] {
      MarkAllReadKeepsOthers(t[1..], userId, other, now);
      assert MarkAllRead(t, userId, now)[1..] == MarkAllRead(t[1..], userId, now);
    }
  }

  /** markAllAsRead(userId): the forEach over the user's unread rows. */
  method MarkAllAsRead(db: Database, userId: UserId, now: Time)
    requires db.Valid()
    modifies db`notifications
    ensures db.Valid()
    ensures db.notifications == MarkAllRead(old(db.notifications), userId, now)
  {
    ghost var t := db.notifications;
    var i := 0;
    while i < |db.notifications|
      invariant 0 <= i <= |db.notifications| == |t|
      invariant forall j :: 0 <= j < i ==> db.notifications[j] == MarkReadIfUnreadFor(t[j], userId, now)
      invariant forall j :: i <= j < |t| ==> db.notifications[j] == t[j]
    {
      if IsUnreadFor(db.notifications[i], userId) {
        db.notifications := db.notifications[i := MarkRead(db.notifications[i], now)];
      }
      i := i + 1;
    }
    assert db.notifications == MarkAllRead(t, userId, now);
  }

  /** The table without the row at position `k`. */
  function RemoveAt(t: seq<Notification>, k: nat): (r: seq<Notification>)
    requires k < |t|
    ensures |r| == |t| - 1
    ensures forall i :: 0 <= i < k ==> r[i] == t[i]
    ensures forall i :: k <= i < |r| ==> r[i] == t[i + 1]
  {
    t[..k] + t[k + 1..]
  }

  lemma RemoveKeepsIdsValid(t: seq<Notification>, k: nat, next: nat)
    requires k < |t| && NotificationIdsValid(t, next)
    ensures NotificationIdsValid(RemoveAt(t, k), next)
  {
    var r := RemoveAt(t, k);
    forall i, j | 0 <= i < j < |r|
      ensures r[i].id < r[j].id
    {
      var i' := if i < k then i else i + 1;
      var j' := if j < k then j else j + 1;
      assert r[i] == t[i'] && r[j] == t[j'];
    }
  }

  /** A row with id `id` is gone after removal, since ids are unique. */
  lemma RemoveDropsId(t: seq<Notification>, k: nat, next: nat)
    requires k < |t| && NotificationIdsValid(t, next)
    ensures forall i :: 0 <= i < |t| - 1 ==> RemoveAt(t, k)[i].id != t[k].id
  {
  }

  /** deleteNotification(notificationId): `deleteById`, which ignores an unknown id. */
  method DeleteNotification(db: Database, id: NotificationId)
    requires db.Valid()
    modifies db`notifications
    ensures db.Valid()
    ensures match old(IndexOfId(db.notifications, NotificationIdOf, id))
      case None => db.notifications == old(db.notifications)
      case Some(k) => db.notifications == RemoveAt(old(db.notifications), k)
    ensures forall i :: 0 <= i < |db.notifications| ==> db.notifications[i].id != id
  {
    var found := IndexOfId(db.notifications, NotificationIdOf, id);
    if found.Some? {
      RemoveKeepsIdsValid(db.notifications, found.value, db.nextNotificationId);
      RemoveDropsId(db.notifications, found.value, db.nextNotificationId);
      db.notifications := RemoveAt(db.notifications, found.value);
    }
  }

  /** deleteNotification(notificationId, userId): NotFound, then the recipient check, then removal. */
  method DeleteNotificationByRecipient(db: Database, id: NotificationId, userId: UserId)
    returns (res: Result<()>)
    requires db.Valid()
    modifies db`notifications
    ensures db.Valid()
    ensures match old(IndexOfId(db.notifications, NotificationIdOf, id))
      case None => res == Failure(NotFound(NotificationEntity)) && db.notifications == old(db.notifications)
      case Some(k) =>
        if old(db.notifications[k]).event.recipient != userId then
          res == Failure(Unauthorized) && db.notifications == old(db.notifications)
        else
          res == Success(()) && db.notifications == RemoveAt(old(db.notifications), k)
  {
    var found := IndexOfId(db.notifications, NotificationIdOf, id);
    if found.None? {
      return Failure(NotFound(NotificationEntity));
    }
    var k := found.value;
    if db.notifications[k].event.recipient != userId {
      return Failure(Unauthorized);
    }
    RemoveKeepsIdsValid(db.notifications, k, db.nextNotificationId);
    db.notifications := RemoveAt(db.notifications, k);
    res := Success(());
  }
}
