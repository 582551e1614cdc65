/** The notification bell (`src/components/NotificationBell.jsx`): notifications kept in
    storage, the unread badge, and what a click on a notification does. */
module NotificationBell {
  import opened Js

  /** A stored notification; a missing `read` flag counts as unread. */
  datatype Notification = Notification(id: string, kind: string, ticketId: string, title: string,
                                       message: string, read: bool)

  predicate IsUnread(n: Notification) { !n.read }

  /** `notifications.filter(n => !n.read).length`. */
  function UnreadCount(ns: seq<Notification>): (n: nat)
    ensures n <= |ns|
    ensures n == 0 <==> forall i :: 0 <= i < |ns| ==> ns[i].read
  {
    var unread := Filter(ns, IsUnread);
    assert forall i :: 0 <= i < |ns| && !ns[i].read ==> ns[i] in unread;
    assert unread != [] ==> unread[0] in unread;
    Count(ns, IsUnread)
  }

  /** `notifications.map(n => n.id === id ? {...n, read: true} : n)`. */
  function MarkRead(ns: seq<Notification>, id: string): (r: seq<Notification>)
    ensures |r| == |ns|
    ensures forall i :: 0 <= i < |ns| ==> r[i] == if ns[i].id == id then ns[i].(read := true) else ns[i]
  {
    if ns == [] then []
    else [if ns[0].id == id then ns[0].(read := true) else ns[0]] + MarkRead(ns[1..], id)
  }

  /** Every notification carrying the clicked id is read afterwards; the others, the length
      and the order are as before. */
  lemma MarkReadEffect(ns: seq<Notification>, id: string)
    ensures var r := MarkRead(ns, id);
      && (forall i :: 0 <= i < |r| && r[i].id == id ==> r[i].read)
      && (forall i :: 0 <= i < |r| && ns[i].id != id ==> r[i] == ns[i])
      && (forall i :: 0 <= i < |r| ==> r[i].id == ns[i].id && r[i].kind == ns[i].kind)
  {
  }

  /** A second click on the same notification changes nothing. */
  lemma MarkReadIdempotent(ns: seq<Notification>, id: string)
    ensures MarkRead(MarkRead(ns, id), id) == MarkRead(ns, id)
  {
  }

  predicate UnreadWithId(id: string, n: Notification) { n.id == id && !n.read }

  /** The badge drops by the number of unread notifications carrying the clicked id. */
  lemma {:induction false} MarkReadUnreadCount(ns: seq<Notification>, id: string)
    ensures UnreadCount(MarkRead(ns, id)) == UnreadCount(ns) - Count(ns, (n: Notification) => UnreadWithId(id, n))
  {
    if ns != [] {
      MarkReadUnreadCount(ns[1..], id);
      var r := MarkRead(ns, id);
      assert r[1..] == MarkRead(ns[1..], id);
    }
  }

  /** So the badge never grows, and clicking an unread notification lowers it. */
  lemma UnreadCountNeverIncreases(ns: seq<Notification>, clicked: Notification)
    ensures UnreadCount(MarkRead(ns, clicked.id)) <= UnreadCount(ns)
    ensures clicked in ns && !clicked.read ==> UnreadCount(MarkRead(ns, clicked.id)) < UnreadCount(ns)
  {
    var p := (n: Notification) => UnreadWithId(clicked.id, n);
    MarkReadUnreadCount(ns, clicked.id);
    if clicked in ns && !clicked.read {
      assert clicked in Filter(ns, p);
    }
  }

  /** Where a click leads: the ticket page for ticket notifications, nowhere otherwise. */
  function Destination(n: Notification): (r: Option<string>)
    ensures r.Some? <==> n.kind == "ticket"
    ensures r.Some? ==> r.value == "/tickets/" + n.ticketId
  {
    if n.kind == "ticket" then Some("/tickets/" + n.ticketId) else None
  }

  /** The component, with the stored copy of the list. */
  class Bell {
    var notifications: seq<Notification>
    var unreadCount: nat
    var showNotifications: bool
    /** The `notifications` entry of storage. */
    var stored: seq<Notification>

    /** The badge always counts the unread notifications of the list. */
    ghost predicate Valid()
      reads this
    {
      unreadCount == UnreadCount(notifications)
    }

    constructor(stored: seq<Notification>)
      ensures Valid()
      ensures notifications == [] && !showNotifications && this.stored == stored
    {
      notifications := [];
      unreadCount := 0;
      showNotifications := false;
      this.stored := stored;
    }

    /** `loadNotifications`: the list is the stored one. */
    method Load()
      modifies this
      ensures Valid()
      ensures notifications == stored && stored == old(stored) && showNotifications == old(showNotifications)
    {
      notifications := stored;
      unreadCount := UnreadCount(stored);
    }

    /** The bell button opens or closes the panel. */
    method ToggleOpen()
      requires Valid()
      modifies this
      ensures Valid()
      ensures showNotifications == !old(showNotifications)
      ensures notifications == old(notifications) && stored == old(stored)
    {
      showNotifications := !showNotifications;
    }

    /** `handleNotificationClick`: mark read, store, recount, maybe navigate, close. */
    method Click(notification: Notification) returns (navigateTo: Option<string>)
      requires Valid()
      modifies this
      ensures Valid()
      ensures notifications == MarkRead(old(notifications), notification.id)
      ensures stored == notifications
      ensures navigateTo == Destination(notification)
      ensures !showNotifications
    {
      var updated := MarkRead(notifications, notification.id);
      stored := updated;
      notifications := updated;
      unreadCount := UnreadCount(updated);
      navigateTo := if notification.kind == "ticket" then Some("/tickets/" + notification.ticketId) else None;
      showNotifications := false;
    }
  }
}
