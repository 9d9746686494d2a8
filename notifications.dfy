/** The server side of notification read-state, app/notifications/actions.ts:
    the caller's unread notifications (newest first, at most twenty), and
    marking one or all of them read. Every update is scoped to the caller's
    own rows. */
module Notifications {
  import opened Common
  import opened Seqs
  import opened Database

  /** The `LIMIT` of the unread query. */
  const UnreadLimit: nat := 20

  predicate UnreadOf(u: UserId, n: Notification) {
    n.userId == u && !n.isRead
  }

  /** `WHERE user_id = u AND is_read = false`, in table order. */
  function Unread(notifications: seq<Notification>, u: UserId): (r: seq<Notification>)
    ensures forall n :: n in r <==> n in notifications && UnreadOf(u, n)
  {
    Filter(notifications, (n: Notification) => UnreadOf(u, n))
  }

  /** `ORDER BY created_at DESC` as an ascending key. */
  function Newest(n: Notification): int {
    -n.createdAt
  }

  /** The unread query: sort newest first, keep the first twenty. */
  function UnreadPage(notifications: seq<Notification>, u: UserId): seq<Notification> {
    Take(SortBy(Unread(notifications, u), Newest), UnreadLimit)
  }

  /** The page holds at most twenty rows, all of them the caller's unread
      notifications, newest first; a row that is left out is no newer than any
      row on the page, and is left out only when the page is full. */
  lemma UnreadPageIsTopTwenty(notifications: seq<Notification>, u: UserId)
    ensures var page := UnreadPage(notifications, u);
            && |page| <= UnreadLimit
            && (forall n :: n in page ==> n in notifications && UnreadOf(u, n))
            && (forall i, j :: 0 <= i < j < |page| ==> page[i].createdAt >= page[j].createdAt)
            && (forall n :: n in notifications && UnreadOf(u, n) && n !in page ==>
                  |page| == UnreadLimit && forall m :: m in page ==> m.createdAt >= n.createdAt)
  {
    var sorted := SortBy(Unread(notifications, u), Newest);
    var page := UnreadPage(notifications, u);
    assert page == sorted[..|page|];
    forall n | n in page ensures n in notifications && UnreadOf(u, n) {
      assert n in sorted;
    }
    forall i, j | 0 <= i < j < |page| ensures page[i].createdAt >= page[j].createdAt {
      assert Newest(sorted[i]) <= Newest(sorted[j]);
    }
    forall n | n in notifications && UnreadOf(u, n) && n !in page
      ensures |page| == UnreadLimit && forall m :: m in page ==> m.createdAt >= n.createdAt
    {
      assert n in sorted;
      var k :| 0 <= k < |sorted| && sorted[k] == n;
      assert k >= |page|;
      forall m | m in page ensures m.createdAt >= n.createdAt {
        var i :| 0 <= i < |page| && page[i] == m;
        assert Newest(sorted[i]) <= Newest(sorted[k]);
      }
    }
  }

  /** `getUnreadNotifications`: nothing without a caller or when the query fails. */
  method GetUnreadNotifications(db: Database, caller: Option<UserId>, failed: bool)
    returns (r: seq<Notification>)
    ensures caller.None? || failed ==> r == []
    ensures caller.Some? && !failed ==> r == UnreadPage(db.notifications, caller.value)
    ensures |r| <= UnreadLimit
    ensures forall n :: n in r ==> n in db.notifications && caller.Some? && UnreadOf(caller.value, n)
  {
    if caller.None? || failed {
      return [];
    }
    UnreadPageIsTopTwenty(db.notifications, caller.value);
    r := UnreadPage(db.notifications, caller.value);
  }

  /** The table after `UPDATE ... SET is_read = true WHERE id = id AND user_id = u`. */
  function MarkedRead(notifications: seq<Notification>, u: UserId, id: nat): (r: seq<Notification>)
    ensures |r| == |notifications|
    ensures forall i :: 0 <= i < |r| ==> r[i].(isRead := notifications[i].isRead) == notifications[i]
    ensures forall i :: 0 <= i < |r| && notifications[i].id == id && notifications[i].userId == u ==> r[i].isRead
    ensures forall i :: 0 <= i < |r| && !(notifications[i].id == id && notifications[i].userId == u) ==>
              r[i] == notifications[i]
  {
    seq(|notifications|, i requires 0 <= i < |notifications| =>
      var n := notifications[i];
      if n.id == id && n.userId == u then n.(isRead := true) else n)
  }

  /** The table after `UPDATE ... SET is_read = true WHERE user_id = u AND is_read = false`. */
  function MarkedAllRead(notifications: seq<Notification>, u: UserId): (r: seq<Notification>)
    ensures |r| == |notifications|
    ensures forall i :: 0 <= i < |r| ==> r[i].(isRead := notifications[i].isRead) == notifications[i]
    ensures forall i :: 0 <= i < |r| && notifications[i].userId != u ==> r[i] == notifications[i]
  {
    seq(|notifications|, i requires 0 <= i < |notifications| =>
      var n := notifications[i];
      if UnreadOf(u, n) then n.(isRead := true) else n)
  }

  /** After marking all read the caller has no unread notification left. */
  lemma {:induction false} NoUnreadAfterMarkAll(notifications: seq<Notification>, u: UserId)
    ensures Unread(MarkedAllRead(notifications, u), u) == []
  {
    if notifications != [] {
      var r := MarkedAllRead(notifications, u);
      assert r[1..] == MarkedAllRead(notifications[1..], u);
      NoUnreadAfterMarkAll(notifications[1..], u);
    }
  }

  /** Marking one notification read takes exactly that row off the caller's unread list. */
  lemma {:induction false} UnreadAfterMarkAsRead(notifications: seq<Notification>, u: UserId, id: nat)
    ensures Unread(MarkedRead(notifications, u, id), u) == Filter(Unread(notifications, u), (n: Notification) => n.id != id)
  {
    if notifications != [] {
      var r := MarkedRead(notifications, u, id);
      assert r[1..] == MarkedRead(notifications[1..], u, id);
      UnreadAfterMarkAsRead(notifications[1..], u, id);
    }
  }

  /** Marking the same notification twice has the effect of marking it once. */
  lemma MarkAsReadIdempotent(notifications: seq<Notification>, u: UserId, id: nat)
    ensures MarkedRead(MarkedRead(notifications, u, id), u, id) == MarkedRead(notifications, u, id)
  {
  }

  /** Marking everything twice has the effect of marking it once. */
  lemma MarkAllReadIdempotent(notifications: seq<Notification>, u: UserId)
    ensures MarkedAllRead(MarkedAllRead(notifications, u), u) == MarkedAllRead(notifications, u)
  {
  }

  /** Rewriting `is_read` keeps every id where it was, so the primary key still holds. */
  lemma SameIdsKeepUnique(before: seq<Notification>, after: seq<Notification>)
    requires UniqueBy(before, NotificationKey)
    requires |after| == |before|
    requires forall i :: 0 <= i < |after| ==> after[i].id == before[i].id
    ensures UniqueBy(after, NotificationKey)
  {
  }

  /** `markAsRead`: set `is_read` on the caller's row with that id only. */
  method MarkAsRead(db: Database, caller: Option<UserId>, id: nat, fault: Option<StoreError>)
    returns (reply: Reply)
    requires db.Valid()
    modifies db`notifications
    ensures db.Valid()
    ensures caller.None? ==> reply == ErrorReply("Not authenticated")
    ensures caller.Some? && fault.Some? ==> reply == ErrorReply("Failed to mark as read")
    ensures caller.Some? && fault.None? ==> reply == Success
    ensures db.notifications == if caller.Some? && fault.None? then MarkedRead(old(db.notifications), caller.value, id)
                                else old(db.notifications)
  {
    if caller.None? {
      return ErrorReply("Not authenticated");
    }
    if fault.Some? {
      return ErrorReply("Failed to mark as read");
    }
    SameIdsKeepUnique(db.notifications, MarkedRead(db.notifications, caller.value, id));
    db.notifications := MarkedRead(db.notifications, caller.value, id);
    reply := Success;
  }

  /** `markAllAsRead`: set `is_read` on all of the caller's unread rows. */
  method MarkAllAsRead(db: Database, caller: Option<UserId>, fault: Option<StoreError>)
    returns (reply: Reply)
    requires db.Valid()
    modifies db`notifications
    ensures db.Valid()
    ensures caller.None? ==> reply == ErrorReply("Not authenticated")
    ensures caller.Some? && fault.Some? ==> reply == ErrorReply("Failed to mark all as read")
    ensures caller.Some? && fault.None? ==> reply == Success
    ensures db.notifications == if caller.Some? && fault.None? then MarkedAllRead(old(db.notifications), caller.value)
                                else old(db.notifications)
  {
    if caller.None? {
      return ErrorReply("Not authenticated");
    }
    if fault.Some? {
      return ErrorReply("Failed to mark all as read");
    }
    SameIdsKeepUnique(db.notifications, MarkedAllRead(db.notifications, caller.value));
    db.notifications := MarkedAllRead(db.notifications, caller.value);
    reply := Success;
  }
}
