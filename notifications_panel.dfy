/**
 * The notifications panel of the dashboard (src/components/dashboard/NotificationsPanel.tsx).
 * Its state is the list of notifications and the active type filter; the three
 * handlers change that state and report to the parent's callback, and the
 * filtered list, the unread count and the badge variants are derived from it.
 */
module NotificationsPanel {
  import opened Text
  import opened Lists
  import opened Wrappers

  datatype NotificationType = Alert | Info | Reminder

  datatype Notification = Notification(
    id: string,
    title: string,
    message: string,
    time: string,
    kind: NotificationType,
    read: bool)

  /** `prev.map(...)` in `handleMarkAsRead`: every notification with the id becomes read, nothing else changes. */
  function MarkRead(notifications: seq<Notification>, id: string): (r: seq<Notification>)
    ensures |r| == |notifications|
    ensures forall i :: 0 <= i < |r| ==>
      r[i] == notifications[i].(read := notifications[i].read || notifications[i].id == id)
  {
    seq(|notifications|, i requires 0 <= i < |notifications| =>
      if notifications[i].id == id then notifications[i].(read := true) else notifications[i])
  }

  lemma MarkReadIdempotent(notifications: seq<Notification>, id: string)
    ensures MarkRead(MarkRead(notifications, id), id) == MarkRead(notifications, id)
  {
  }

  /** After marking, no notification with that id is unread. */
  lemma MarkReadClearsId(notifications: seq<Notification>, id: string)
    ensures forall n :: n in MarkRead(notifications, id) && n.id == id ==> n.read
  {
  }

  /** Counted in the unread total; also the condition for a row's mark-read button. */
  predicate IsUnread(n: Notification) {
    !n.read
  }

  /** `unreadCount`, over the whole list whatever the filter. */
  function UnreadCount(notifications: seq<Notification>): (r: nat)
    ensures r == |Positions(notifications, IsUnread)|
    ensures r <= |notifications|
    ensures r == 0 <==> forall n :: n in notifications ==> n.read
  {
    var unread := Filter(notifications, IsUnread);
    FilterLengthCountsPositions(notifications, IsUnread);
    assert unread != [] ==> unread[0] in unread;
    |unread|
  }

  /**
   * Marking as read lowers the unread count by exactly the number of unread
   * notifications with that id, so the count never goes up.
   */
  lemma {:induction false} MarkReadUnreadCount(notifications: seq<Notification>, id: string)
    ensures UnreadCount(MarkRead(notifications, id))
         == UnreadCount(notifications) - |Filter(notifications, (n: Notification) => !n.read && n.id == id)|
    ensures UnreadCount(MarkRead(notifications, id)) <= UnreadCount(notifications)
    decreases |notifications|
  {
    if notifications != [] {
      MarkReadUnreadCount(notifications[1..], id);
      MarkReadFirst(notifications, id);
      FilterLengthFirst(notifications, IsUnread);
      FilterLengthFirst(notifications, (n: Notification) => !n.read && n.id == id);
    }
  }

  /** The first notification stays unread after marking exactly when it was unread with another id. */
  lemma MarkReadFirst(notifications: seq<Notification>, id: string)
    requires notifications != []
    ensures UnreadCount(MarkRead(notifications, id))
         == (if !notifications[0].read && notifications[0].id != id then 1 else 0)
          + UnreadCount(MarkRead(notifications[1..], id))
  {
    var marked := MarkRead(notifications, id);
    assert marked[1..] == MarkRead(notifications[1..], id);
    FilterLengthFirst(marked, IsUnread);
  }

  /** `filteredNotifications`: the notifications of the active type, or all of them. */
  function Visible(notifications: seq<Notification>, activeFilter: Option<NotificationType>): (r: seq<Notification>)
    ensures activeFilter.None? ==> r == notifications
    ensures activeFilter.Some? ==> IsSubsequence(r, notifications)
    ensures activeFilter.Some? ==> forall n :: n in r <==> n in notifications && n.kind == activeFilter.value
    ensures activeFilter.Some? ==> forall n :: n in notifications && n.kind == activeFilter.value ==>
      multiset(r)[n] == multiset(notifications)[n]
  {
    match activeFilter
    case None => notifications
    case Some(t) => Filter(notifications, (n: Notification) => n.kind == t)
  }

  /** The filter after a click on a type button (or the clear button, `type` = null). */
  function NextFilter(activeFilter: Option<NotificationType>, requested: Option<NotificationType>): (r: Option<NotificationType>)
    ensures r.None? <==> requested.None? || requested == activeFilter
    ensures r.Some? ==> r == requested
  {
    if requested == activeFilter then None else requested
  }

  /**
   * Clicking the same button twice returns to the starting filter exactly when
   * no filter was active or that very type was active; otherwise it ends with no filter.
   */
  lemma ToggleTwice(activeFilter: Option<NotificationType>, requested: Option<NotificationType>)
    ensures NextFilter(NextFilter(activeFilter, requested), requested)
         == if activeFilter == requested then activeFilter else None
    ensures NextFilter(NextFilter(activeFilter, requested), requested) == activeFilter
        <==> activeFilter.None? || activeFilter == requested
  {
  }

  /** The badge variant of a notification type (`getTypeColor`). */
  datatype Variant = Destructive | Default | Secondary

  function TypeVariant(kind: NotificationType): (r: Variant)
    ensures r == Destructive <==> kind == Alert
    ensures r == Secondary <==> kind == Reminder
  {
    match kind
    case Alert => Destructive
    case Info => Default
    case Reminder => Secondary
  }

  /** The header badge "k new" is shown iff some notification is unread. */
  function ShowsUnreadBadge(notifications: seq<Notification>): (r: bool)
    ensures r <==> exists n :: n in notifications && IsUnread(n)
  {
    UnreadCount(notifications) > 0
  }

  /**
   * The badge counts the whole list while the mark-read buttons sit on the
   * visible rows only: under a type filter the badge can show with no button.
   */
  lemma BadgeWithoutVisibleButton()
    ensures exists notifications, t ::
      ShowsUnreadBadge(notifications) && forall n :: n in Visible(notifications, Some(t)) ==> !IsUnread(n)
  {
    var info := Notification("1", "t", "m", "x", Info, false);
    assert IsUnread(info);
    assert ShowsUnreadBadge([info]);
    assert forall n :: n in Visible([info], Some(Alert)) ==> !IsUnread(n);
  }

  class Panel {
    var notifications: seq<Notification>
    var activeFilter: Option<NotificationType>

    /** Initial state: the given notifications, no filter. */
    constructor (initial: seq<Notification>)
      ensures notifications == initial && activeFilter == None
    {
      notifications := initial;
      activeFilter := None;
    }

    /** `handleMarkAsRead`; returns the id passed to `onMarkAsRead`. */
    method MarkAsRead(id: string) returns (reported: string)
      modifies this
      ensures notifications == MarkRead(old(notifications), id)
      ensures activeFilter == old(activeFilter)
      ensures reported == id
      ensures UnreadCount(notifications) <= UnreadCount(old(notifications))
      ensures forall n :: n in notifications && n.id == id ==> !IsUnread(n)
    {
      MarkReadUnreadCount(notifications, id);
      notifications := MarkRead(notifications, id);
      reported := id;
    }

    /** `handleClearAll` (the parent's `onClearAll` takes no argument). */
    method ClearAll()
      modifies this
      ensures notifications == []
      ensures activeFilter == old(activeFilter)
      ensures UnreadCount(notifications) == 0 && !ShowsUnreadBadge(notifications)
      ensures Visible(notifications, activeFilter) == []
    {
      notifications := [];
    }

    /** `handleFilterChange`; returns the value passed to `onFilterChange`. */
    method FilterChange(requested: Option<NotificationType>) returns (reported: Option<NotificationType>)
      modifies this
      ensures activeFilter == NextFilter(old(activeFilter), requested)
      ensures notifications == old(notifications)
      ensures reported == activeFilter
    {
      activeFilter := NextFilter(activeFilter, requested);
      reported := activeFilter;
    }
  }
}
