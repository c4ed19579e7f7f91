/**
 * The notification sink: `notify` appends a message addressed to one user,
 * and the two views `mark_read` and `mark_all_read` flip read flags.
 * A notification's primary key is its position in the store.
 */
module Notifications {
  import opened Wrappers
  import opened Accounts

  datatype Notification<M> = Notification(user: UserId, message: M, link: string, isRead: bool)

  /** What one `notify(user, message, link)` call adds to the store: nothing for a missing user. */
  function Appended<M>(user: Option<UserId>, message: M, link: string): (added: seq<Notification<M>>)
    ensures user.None? ==> added == []
    ensures user.Some? ==> added == [Notification(user.value, message, link, false)]
  {
    if user.None? then [] else [Notification(user.value, message, link, false)]
  }

  /** The store after `mark_all_read` for user `u`. */
  function AllReadFor<M>(ns: seq<Notification<M>>, u: UserId): (r: seq<Notification<M>>)
    ensures |r| == |ns|
    ensures forall i :: 0 <= i < |ns| && ns[i].user == u ==> r[i] == ns[i].(isRead := true)
    ensures forall i :: 0 <= i < |ns| && ns[i].user != u ==> r[i] == ns[i]
  {
    seq(|ns|, i requires 0 <= i < |ns| => if ns[i].user == u then ns[i].(isRead := true) else ns[i])
  }

  /** Marking everything read a second time changes nothing. */
  lemma AllReadForIdempotent<M>(ns: seq<Notification<M>>, u: UserId)
    ensures AllReadFor(AllReadFor(ns, u), u) == AllReadFor(ns, u)
  {
    var once := AllReadFor(ns, u);
    var twice := AllReadFor(once, u);
    forall i | 0 <= i < |ns| ensures twice[i] == once[i] {
      if ns[i].user == u { assert once[i].user == u; }
    }
  }

  /** Where `mark_read` sends the browser. */
  datatype ReadOutcome = NotFound | RedirectToLink(link: string) | RedirectToList

  class Inbox<M> {
    var notifications: seq<Notification<M>>

    constructor ()
      ensures notifications == []
    {
      notifications := [];
    }

    /** `notify(user, message, link="")`; a missing user is silently ignored. */
    method Notify(user: Option<UserId>, message: M, link: string := "")
      modifies this
      ensures notifications == old(notifications) + Appended(user, message, link)
    {
      if user.None? {
        return;
      }
      notifications := notifications + [Notification(user.value, message, link, false)];
    }

    /**
     * `mark_read(request, pk)`: only a notification of the requester is found;
     * it becomes read, and the requester is sent to its link if it has one.
     */
    method MarkRead(requester: UserId, pk: nat) returns (r: ReadOutcome)
      modifies this
      ensures r.NotFound? <==> pk >= |old(notifications)| || old(notifications)[pk].user != requester
      ensures r.NotFound? ==> notifications == old(notifications)
      ensures !r.NotFound? ==> notifications == old(notifications)[pk := old(notifications)[pk].(isRead := true)]
      ensures r.RedirectToLink? <==> !r.NotFound? && old(notifications)[pk].link != ""
      ensures r.RedirectToLink? ==> r.link == old(notifications)[pk].link
    {
      if pk >= |notifications| || notifications[pk].user != requester {
        return NotFound;
      }
      var n := notifications[pk];
      notifications := notifications[pk := n.(isRead := true)];
      if n.link != "" {
        return RedirectToLink(n.link);
      }
      return RedirectToList;
    }

    /** `mark_all_read(request)`: every notification of the requester becomes read. */
    method MarkAllRead(requester: UserId)
      modifies this
      ensures notifications == AllReadFor(old(notifications), requester)
    {
      notifications := AllReadFor(notifications, requester);
    }
  }
}
