/** The header's notification bell, components/notifications/notification-bell.tsx:
    a list of unread notifications, an unread counter and an open/closed
    dropdown, updated by the initial fetch, realtime inserts, clicks and
    "mark all read". Each handler is modelled from the point where its awaited
    call has returned. */
module NotificationBell {
  import opened Common
  import opened Seqs
  import opened Database
  import Decimal

  /** The badge over the bell: hidden at zero, the count up to 99, `99+` above. */
  function BadgeText(count: int): Option<string> {
    if count <= 0 then None
    else if count > 99 then Some("99+")
    else Some(Decimal.Show(count))
  }

  /** The caller's counter is never negative, so the badge is hidden exactly at zero. */
  lemma BadgeHiddenIffZero(count: nat)
    ensures BadgeText(count).None? <==> count == 0
  {
  }

  /** Up to 99 the badge reads back as the count itself, in at most two digits. */
  lemma BadgeShowsCount(count: nat)
    requires 0 < count <= 99
    ensures BadgeText(count).Some?
    ensures Decimal.Value(BadgeText(count).value) == count
    ensures |BadgeText(count).value| <= 2
  {
    Decimal.ValueOfShow(count);
    Decimal.ShowBelowHundred(count);
  }

  /** Above 99 the badge no longer tells counts apart. */
  lemma BadgeSaturates(a: nat, b: nat)
    requires a > 99 && b > 99
    ensures BadgeText(a) == BadgeText(b) == Some("99+")
  {
  }

  /** Different counts up to 99 give different badges. */
  lemma BadgeInjectiveBelowHundred(a: nat, b: nat)
    requires 0 < a <= 99 && 0 < b <= 99
    requires BadgeText(a) == BadgeText(b)
    ensures a == b
  {
    Decimal.ShowInjective(a, b);
  }

  /** The list after removing every entry with this id, in order. */
  function WithoutId(notifications: seq<Notification>, id: nat): (r: seq<Notification>)
    ensures forall n :: n in r <==> n in notifications && n.id != id
  {
    Filter(notifications, (n: Notification) => n.id != id)
  }

  /** Removing an id that is not on the list keeps the list as it is. */
  lemma WithoutAbsentId(notifications: seq<Notification>, id: nat)
    requires forall n :: n in notifications ==> n.id != id
    ensures WithoutId(notifications, id) == notifications
  {
    FilterAll(notifications, (n: Notification) => n.id != id);
  }

  /** A link is followed only when `link_url` is a non-empty string. */
  function FollowLink(linkUrl: Option<string>): (r: Option<string>)
    ensures r.Some? <==> linkUrl.Some? && linkUrl.value != ""
    ensures r.Some? ==> r == linkUrl
  {
    if linkUrl.Some? && linkUrl.value != "" then linkUrl else None
  }

  class NotificationBell {
    /** The signed-in user the bell belongs to, if any. */
    const userId: Option<UserId>
    var notifications: seq<Notification>
    var unreadCount: nat
    var isOpen: bool

    constructor (userId: Option<UserId>)
      ensures this.userId == userId
      ensures notifications == [] && unreadCount == 0 && !isOpen
    {
      this.userId := userId;
      notifications, unreadCount, isOpen := [], 0, false;
    }

    /** What the bell renders over its icon; nothing at all without a user. */
    function Badge(): Option<string>
      reads this
    {
      if userId.None? then None else BadgeText(unreadCount)
    }

    /** `fetchInitial`, once `getUnreadNotifications` has returned `data`:
        only a non-empty result replaces the list and sets the counter. */
    method FetchInitial(data: seq<Notification>)
      modifies this`notifications, this`unreadCount
      ensures userId.Some? && |data| > 0 ==> notifications == data && unreadCount == |data|
      ensures userId.None? || |data| == 0 ==>
                notifications == old(notifications) && unreadCount == old(unreadCount)
    {
      if userId.None? {
        return;
      }
      if |data| > 0 {
        notifications := data;
        unreadCount := |data|;
      }
    }

    /** The realtime INSERT handler: the new notification goes first, the counter up by one. */
    method OnInsert(n: Notification)
      requires userId.Some?
      modifies this`notifications, this`unreadCount
      ensures notifications == [n] + old(notifications)
      ensures unreadCount == old(unreadCount) + 1
    {
      notifications := [n] + notifications;
      unreadCount := unreadCount + 1;
    }

    /** The bell button. */
    method Toggle()
      modifies this`isOpen
      ensures isOpen == !old(isOpen)
    {
      isOpen := !isOpen;
    }

    /** `handleNotificationClick`, once `markAsRead` has returned (its result
        is not inspected): an unread notification leaves the list and the
        counter goes down by one, never below zero; the dropdown closes either
        way. Returns the page to navigate to, if any. */
    method HandleNotificationClick(notif: Notification) returns (navigate: Option<string>)
      modifies this`notifications, this`unreadCount, this`isOpen
      ensures !notif.isRead ==> notifications == WithoutId(old(notifications), notif.id)
      ensures !notif.isRead ==> unreadCount == if old(unreadCount) > 0 then old(unreadCount) - 1 else 0
      ensures notif.isRead ==> notifications == old(notifications) && unreadCount == old(unreadCount)
      ensures !isOpen
      ensures navigate == FollowLink(notif.linkUrl)
    {
      if !notif.isRead {
        notifications := WithoutId(notifications, notif.id);
        unreadCount := if unreadCount > 0 then unreadCount - 1 else 0;
      }
      isOpen := false;
      navigate := FollowLink(notif.linkUrl);
    }

    /** `handleMarkAllRead`, once `markAllAsRead` has returned: everything is cleared. */
    method HandleMarkAllRead()
      modifies this`notifications, this`unreadCount, this`isOpen
      ensures notifications == [] && unreadCount == 0 && !isOpen
    {
      notifications := [];
      unreadCount := 0;
      isOpen := false;
    }
  }

  /** A realtime insert followed by a click on it takes the bell back where it
      was, when the id was not on the list before. */
  method InsertThenClick(bell: NotificationBell, n: Notification) returns (navigate: Option<string>)
    requires bell.userId.Some? && !n.isRead
    requires forall m :: m in bell.notifications ==> m.id != n.id
    modifies bell`notifications, bell`unreadCount, bell`isOpen
    ensures bell.notifications == old(bell.notifications)
    ensures bell.unreadCount == old(bell.unreadCount)
    ensures !bell.isOpen
  {
    bell.OnInsert(n);
    navigate := bell.HandleNotificationClick(n);
    WithoutAbsentId(old(bell.notifications), n.id);
    assert WithoutId([n] + old(bell.notifications), n.id) == WithoutId(old(bell.notifications), n.id) by {
      FilterConcat([n], old(bell.notifications), (m: Notification) => m.id != n.id);
    }
  }
}
