/**
 * The notification store (context/NotificationContext.tsx): the list of
 * notifications and the unread counter, updated by the mark-as-read calls,
 * by pushes from the real-time channel and by the logout reset.
 */
module NotificationContext {
  import opened Wrappers

  /** A notification; only its id and read mark take part in the logic. */
  datatype Notification = Notification(id: string, title: string, message: string, readAt: Option<string>)

  /** The list after marking `id` read at time `at`. */
  function MarkRead(ns: seq<Notification>, id: string, at: string): (r: seq<Notification>)
    ensures |r| == |ns|
    ensures forall i :: 0 <= i < |ns| && ns[i].id == id ==> r[i] == ns[i].(readAt := Some(at))
    ensures forall i :: 0 <= i < |ns| && ns[i].id != id ==> r[i] == ns[i]
  {
    if |ns| == 0 then []
    else [if ns[0].id == id then ns[0].(readAt := Some(at)) else ns[0]] + MarkRead(ns[1..], id, at)
  }

  /** The list after marking everything read at time `at`. */
  function MarkAllRead(ns: seq<Notification>, at: string): (r: seq<Notification>)
    ensures |r| == |ns|
    ensures forall i :: 0 <= i < |ns| ==> r[i] == ns[i].(readAt := Some(at))
  {
    if |ns| == 0 then [] else [ns[0].(readAt := Some(at))] + MarkAllRead(ns[1..], at)
  }

  predicate AllRead(ns: seq<Notification>)
  {
    forall i :: 0 <= i < |ns| ==> ns[i].readAt.Some?
  }

  /**
   * Marking one id read never makes a read notification unread: afterwards a
   * notification is read exactly when it was read before or carries the id.
   */
  lemma {:induction false} MarkReadKeepsRead(ns: seq<Notification>, id: string, at: string)
    ensures forall i :: 0 <= i < |ns| ==>
      (MarkRead(ns, id, at)[i].readAt.Some? <==> ns[i].readAt.Some? || ns[i].id == id)
    ensures AllRead(ns) ==> AllRead(MarkRead(ns, id, at))
  {
    var r := MarkRead(ns, id, at);
    forall i | 0 <= i < |ns|
      ensures r[i].readAt.Some? <==> ns[i].readAt.Some? || ns[i].id == id
    {
      if ns[i].id == id {
        assert r[i] == ns[i].(readAt := Some(at));
      } else {
        assert r[i] == ns[i];
      }
    }
  }

  /** Marking everything read leaves nothing for a later single mark to change but the timestamp. */
  lemma MarkAllThenOneIsAllRead(ns: seq<Notification>, id: string, at: string, later: string)
    ensures AllRead(MarkAllRead(ns, at))
    ensures AllRead(MarkRead(MarkAllRead(ns, at), id, later))
  {
  }

  /** `Math.max(0, prev - 1)` */
  function Decrement(count: int): (r: int)
    ensures r >= 0
    ensures count >= 1 ==> r == count - 1
    ensures count <= 1 ==> r == 0
  {
    if count - 1 > 0 then count - 1 else 0
  }

  class NotificationStore {
    var notifications: seq<Notification>
    var unreadCount: int
    var isLoading: bool

    predicate Valid()
      reads this
    {
      unreadCount >= 0
    }

    constructor()
      ensures Valid()
      ensures notifications == [] && unreadCount == 0 && !isLoading
    {
      notifications := [];
      unreadCount := 0;
      isLoading := false;
    }

    /**
     * `markAsRead`: `ok` is whether the server accepted the call and `at` the
     * time stamp written into `read_at`.
     */
    method MarkAsRead(id: string, ok: bool, at: string)
      requires Valid()
      modifies this
      ensures Valid()
      ensures ok ==> notifications == MarkRead(old(notifications), id, at)
      ensures ok ==> unreadCount == Decrement(old(unreadCount))
      ensures !ok ==> notifications == old(notifications) && unreadCount == old(unreadCount)
      ensures isLoading == old(isLoading)
    {
      if ok {
        notifications := MarkRead(notifications, id, at);
        unreadCount := Decrement(unreadCount);
      }
    }

    /** `markAllAsRead` */
    method MarkAllAsRead(ok: bool, at: string)
      requires Valid()
      modifies this
      ensures Valid()
      ensures ok ==> notifications == MarkAllRead(old(notifications), at) && unreadCount == 0
      ensures ok ==> AllRead(notifications)
      ensures !ok ==> notifications == old(notifications) && unreadCount == old(unreadCount)
      ensures isLoading == old(isLoading)
    {
      if ok {
        notifications := MarkAllRead(notifications, at);
        unreadCount := 0;
      }
    }

    /** A pushed notification: the counter goes up by one before the list is fetched again. */
    method OnPush()
      requires Valid()
      modifies this
      ensures Valid()
      ensures unreadCount == old(unreadCount) + 1
      ensures notifications == old(notifications) && isLoading == old(isLoading)
    {
      unreadCount := unreadCount + 1;
    }

    /** The effect on a change of user; with no user the store is emptied. */
    method OnUserChange(hasUser: bool)
      requires Valid()
      modifies this
      ensures Valid()
      ensures !hasUser ==> notifications == [] && unreadCount == 0
      ensures hasUser ==> notifications == old(notifications) && unreadCount == old(unreadCount)
      ensures isLoading == old(isLoading)
    {
      if !hasUser {
        notifications := [];
        unreadCount := 0;
      }
    }

    /**
     * `fetchNotifications`: `page` is the list request's reply (`None` when it
     * failed; its `data` field, `None` when missing) and `count` the counter
     * request's reply, made only after the list arrived.
     */
    method FetchNotifications(hasUser: bool, page: Option<Option<seq<Notification>>>, count: Option<nat>)
      requires Valid()
      modifies this
      ensures Valid()
      ensures !isLoading || (!hasUser && isLoading == old(isLoading))
      ensures !hasUser || page.None? ==> notifications == old(notifications) && unreadCount == old(unreadCount)
      ensures hasUser && page.Some? ==> notifications == page.value.GetOr([])
      ensures hasUser && page.Some? && count.Some? ==> unreadCount == count.value
      ensures hasUser && page.Some? && count.None? ==> unreadCount == old(unreadCount)
    {
      if !hasUser {
        return;
      }
      isLoading := true;
      if page.Some? {
        notifications := page.value.GetOr([]);
        if count.Some? {
          unreadCount := count.value;
        }
      }
      isLoading := false;
    }
  }
}
