/** The notification inbox of the settings page: notifications arrive
    newest first when their kind is switched on, can be marked read, closed
    one by one or cleared, and are paged three at a time with a page list
    that elides far pages. */
module NotificationSettings {
  import opened Seqs
  import opened Paging

  const ItemsPerPage: nat := 3

  /** An inbox entry; `id` is the `Date.now() + Math.random()` it was
      created with, `kind` its `type`. */
  datatype Notification = Notification(id: int, kind: string, title: string, message: string, read: bool)

  /** The switches that decide what is shown (the desktop and sound
      switches act on browser APIs only). */
  datatype Settings = Settings(inAppNotifications: bool, newReportsEnabled: bool, pendingOrdersEnabled: bool)

  const DefaultSettings := Settings(true, true, true)

  /** `shouldProcess`: a new report or a pending order whose switch is on;
      any other type never is. */
  predicate ShouldProcess(n: Notification, s: Settings)
  {
    (n.kind == "new_report" && s.newReportsEnabled) || (n.kind == "pending_order" && s.pendingOrdersEnabled)
  }

  function IsUnread(n: Notification): bool
  {
    !n.read
  }

  /** `unreadCount` */
  function UnreadCount(ns: seq<Notification>): nat
  {
    Count(ns, IsUnread)
  }

  /** `prev.map(n => n.id === id ? { ...n, read: true } : n)` */
  function MarkedRead(ns: seq<Notification>, id: int): (out: seq<Notification>)
    ensures |out| == |ns|
  {
    seq(|ns|, i requires 0 <= i < |ns| => if ns[i].id == id then ns[i].(read := true) else ns[i])
  }

  lemma {:induction false} UnreadNotMore(ns: seq<Notification>, id: int)
    ensures UnreadCount(MarkedRead(ns, id)) <= UnreadCount(ns)
  {
    if ns != [] {
      var pre := ns[..|ns| - 1];
      UnreadNotMore(pre, id);
      assert MarkedRead(ns, id)[..|pre|] == MarkedRead(pre, id);
    }
  }

  /** Marking read changes only the `read` flag of the matching entries:
      length, order and everything else stay; the unread count cannot
      grow, and afterwards no entry with that id is unread. */
  lemma MarkedReadSpec(ns: seq<Notification>, id: int)
    ensures var out := MarkedRead(ns, id);
      && (forall i :: 0 <= i < |ns| ==> out[i] == ns[i].(read := ns[i].read || ns[i].id == id))
      && (forall i :: 0 <= i < |out| && out[i].id == id ==> out[i].read)
      && UnreadCount(out) <= UnreadCount(ns)
      && MarkedRead(out, id) == out
  {
    UnreadNotMore(ns, id);
  }

  function IdIsNot(id: int): Notification -> bool
  {
    (n: Notification) => n.id != id
  }

  /** `prev.filter(n => n.id !== id)` */
  function Closed(ns: seq<Notification>, id: int): seq<Notification>
  {
    Filter(ns, IdIsNot(id))
  }

  /** Closing drops every entry with that id and keeps every copy of the
      others, in order. */
  lemma ClosedSpec(ns: seq<Notification>, id: int)
    ensures var out := Closed(ns, id);
      && Subseq(out, ns)
      && (forall n :: n in out <==> n in ns && n.id != id)
      && forall n :: multiset(out)[n] == if n.id != id then multiset(ns)[n] else 0
  {
    FilterSubseq(ns, IdIsNot(id));
    FilterMultiset(ns, IdIsNot(id));
    forall n
      ensures n in Closed(ns, id) <==> n in ns && n.id != id
    {
      FilterMembership(ns, IdIsNot(id), n);
    }
  }

  function TotalPages(ns: seq<Notification>): nat
  {
    PageCount(|ns|, ItemsPerPage)
  }

  /** The page after a close: the new last page when the current one is
      past it, page 1 when the list is empty, otherwise unchanged. */
  function PageAfterClose(currentPage: int, remaining: nat): int
  {
    var total := PageCount(remaining, ItemsPerPage);
    if currentPage > total && total > 0 then total
    else if remaining == 0 then 1
    else currentPage
  }

  /** From a page in range the page after a close is in range again. */
  lemma PageAfterCloseInRange(currentPage: int, remaining: nat)
    requires currentPage >= 1
    ensures var p := PageAfterClose(currentPage, remaining);
      1 <= p && (p <= PageCount(remaining, ItemsPerPage) || (remaining == 0 && p == 1))
  {
    PageCountSpec(remaining, ItemsPerPage);
  }

  /* ---------- the page list ---------- */

  datatype PageItem = Number(n: int) | Ellipsis

  /** Numbers grow from left to right. */
  predicate Increasing(items: seq<PageItem>)
  {
    forall i, j :: 0 <= i < j < |items| && items[i].Number? && items[j].Number? ==> items[i].n < items[j].n
  }

  /** Neighbouring numbers are consecutive pages, and an ellipsis stands
      between two numbers with at least one page skipped. */
  predicate GapsMarked(items: seq<PageItem>)
  {
    forall i :: 0 <= i < |items| - 1 ==>
      if items[i].Number? && items[i + 1].Number? then items[i + 1].n == items[i].n + 1
      else if items[i].Ellipsis? then 0 < i && items[i - 1].Number? && items[i + 1].Number? && items[i + 1].n > items[i - 1].n + 1
      else items[i + 1].Ellipsis?
  }

  /** The list for more than five pages: six or seven entries from page 1
      to the last page, increasing, with an ellipsis exactly where pages
      are skipped, and holding the current page. */
  predicate Elided(items: seq<PageItem>, totalPages: int, currentPage: int)
  {
    && 6 <= |items| <= 7
    && items[0] == Number(1) && items[|items| - 1] == Number(totalPages)
    && Increasing(items) && GapsMarked(items)
    && (forall i :: 0 <= i < |items| && items[i].Number? ==> 1 <= items[i].n <= totalPages)
    && (1 <= currentPage <= totalPages ==> Number(currentPage) in items)
  }

  lemma FirstPagesShape(totalPages: int)
    requires totalPages > 5
    ensures var items := [Number(1), Number(2), Number(3), Number(4), Ellipsis, Number(totalPages)];
      && Increasing(items) && GapsMarked(items)
      && forall i :: 0 <= i < |items| && items[i].Number? ==> 1 <= items[i].n <= totalPages
  {
  }

  lemma FirstPagesWindow(totalPages: int, currentPage: int)
    requires totalPages > 5 && currentPage <= 3
    ensures Elided([Number(1), Number(2), Number(3), Number(4), Ellipsis, Number(totalPages)], totalPages, currentPage)
  {
    var items := [Number(1), Number(2), Number(3), Number(4), Ellipsis, Number(totalPages)];
    FirstPagesShape(totalPages);
    if 1 <= currentPage {
      assert items[currentPage - 1] == Number(currentPage);
    }
  }

  lemma LastPagesWindow(totalPages: int, currentPage: int)
    requires totalPages > 5 && currentPage >= totalPages - 2
    ensures Elided([Number(1), Ellipsis, Number(totalPages - 3), Number(totalPages - 2), Number(totalPages - 1), Number(totalPages)],
                   totalPages, currentPage)
  {
    var items := [Number(1), Ellipsis, Number(totalPages - 3), Number(totalPages - 2), Number(totalPages - 1), Number(totalPages)];
    if 1 <= currentPage <= totalPages {
      assert items[currentPage - totalPages + 5] == Number(currentPage);
    }
  }

  lemma MiddleWindow(totalPages: int, currentPage: int)
    requires totalPages > 5 && 3 < currentPage < totalPages - 2
    ensures Elided([Number(1), Ellipsis, Number(currentPage - 1), Number(currentPage), Number(currentPage + 1), Ellipsis, Number(totalPages)],
                   totalPages, currentPage)
  {
    var items := [Number(1), Ellipsis, Number(currentPage - 1), Number(currentPage), Number(currentPage + 1), Ellipsis, Number(totalPages)];
    assert items[3] == Number(currentPage);
  }

  /** `getPageNumbers`: every page up to five pages, otherwise the first,
      the last and the pages around the current one, with ellipses for the
      pages left out. Changes nothing. */
  method PageNumbers(totalPages: int, currentPage: int) returns (items: seq<PageItem>)
    ensures totalPages <= 5 ==> |items| == (if totalPages > 0 then totalPages else 0)
                                && forall i :: 0 <= i < |items| ==> items[i] == Number(i + 1)
    ensures totalPages > 5 ==> Elided(items, totalPages, currentPage)
  {
    items := [];
    if totalPages <= 5 {
      var i := 1;
      while i <= totalPages
        invariant 1 <= i <= (if totalPages >= 1 then totalPages + 1 else 1)
        invariant |items| == i - 1
        invariant forall k :: 0 <= k < |items| ==> items[k] == Number(k + 1)
      {
        items := items + [Number(i)];
        i := i + 1;
      }
    } else if currentPage <= 3 {
      FirstPagesWindow(totalPages, currentPage);
      items := [Number(1), Number(2), Number(3), Number(4), Ellipsis, Number(totalPages)];
    } else if currentPage >= totalPages - 2 {
      LastPagesWindow(totalPages, currentPage);
      items := [Number(1), Ellipsis, Number(totalPages - 3), Number(totalPages - 2), Number(totalPages - 1), Number(totalPages)];
    } else {
      MiddleWindow(totalPages, currentPage);
      items := [Number(1), Ellipsis, Number(currentPage - 1), Number(currentPage), Number(currentPage + 1), Ellipsis, Number(totalPages)];
    }
  }

  /* ---------- the component's state ---------- */

  class NotificationCenter {
    var notifications: seq<Notification>
    var currentPage: int
    var settings: Settings

    /** The page is 1, or a page that exists. */
    ghost predicate Valid()
      reads this
    {
      1 <= currentPage && (currentPage <= TotalPages(notifications) || currentPage == 1)
    }

    /** `saved` is the settings read from the cookie, merged over the
        defaults. */
    constructor(saved: Settings)
      ensures Valid()
      ensures notifications == [] && currentPage == 1 && settings == saved
    {
      notifications := [];
      currentPage := 1;
      settings := saved;
    }

    /** `processNotification` */
    method ProcessNotification(n: Notification)
      requires Valid()
      modifies this
      ensures Valid() && settings == old(settings)
      ensures !ShouldProcess(n, settings) ==> notifications == old(notifications) && currentPage == old(currentPage)
      ensures ShouldProcess(n, settings) ==>
        && notifications == (if settings.inAppNotifications then [n] + old(notifications) else old(notifications))
        && currentPage == 1
    {
      if !ShouldProcess(n, settings) {
        return;
      }
      if settings.inAppNotifications {
        notifications := [n] + notifications;
      }
      currentPage := 1;
    }

    /** `handleCloseNotification` */
    method HandleCloseNotification(id: int)
      requires Valid()
      modifies this
      ensures Valid() && settings == old(settings)
      ensures notifications == Closed(old(notifications), id)
      ensures currentPage == PageAfterClose(old(currentPage), |notifications|)
    {
      notifications := Closed(notifications, id);
      PageAfterCloseInRange(currentPage, |notifications|);
      currentPage := PageAfterClose(currentPage, |notifications|);
    }

    /** `handleMarkAsRead` */
    method HandleMarkAsRead(id: int)
      requires Valid()
      modifies this
      ensures Valid() && settings == old(settings) && currentPage == old(currentPage)
      ensures notifications == MarkedRead(old(notifications), id)
    {
      notifications := MarkedRead(notifications, id);
    }

    /** `clearAllNotifications` */
    method ClearAll()
      modifies this
      ensures Valid() && settings == old(settings)
      ensures notifications == [] && currentPage == 1
    {
      notifications := [];
      currentPage := 1;
    }

    /** `goToPreviousPage` */
    method GoToPreviousPage()
      requires Valid()
      modifies this
      ensures Valid() && notifications == old(notifications) && settings == old(settings)
      ensures currentPage == if old(currentPage) > 1 then old(currentPage) - 1 else old(currentPage)
    {
      if currentPage > 1 {
        currentPage := currentPage - 1;
      }
    }

    /** `goToNextPage` */
    method GoToNextPage()
      requires Valid()
      modifies this
      ensures Valid() && notifications == old(notifications) && settings == old(settings)
      ensures currentPage == if old(currentPage) < TotalPages(notifications) then old(currentPage) + 1 else old(currentPage)
    {
      if currentPage < TotalPages(notifications) {
        currentPage := currentPage + 1;
      }
    }

    /** `goToPage`: only pages that exist. */
    method GoToPage(pageNumber: int)
      requires Valid()
      modifies this
      ensures Valid() && notifications == old(notifications) && settings == old(settings)
      ensures currentPage == if 1 <= pageNumber <= TotalPages(notifications) then pageNumber else old(currentPage)
    {
      if pageNumber >= 1 && pageNumber <= TotalPages(notifications) {
        currentPage := pageNumber;
      }
    }

    /** `currentNotifications` */
    function CurrentNotifications(): seq<Notification>
      reads this
    {
      PageOf(notifications, currentPage, ItemsPerPage)
    }

    method GetPageNumbers() returns (items: seq<PageItem>)
      requires Valid()
      ensures TotalPages(notifications) <= 5 ==> |items| == TotalPages(notifications)
      ensures TotalPages(notifications) <= 5 ==> forall i :: 0 <= i < |items| ==> items[i] == Number(i + 1)
      ensures TotalPages(notifications) > 5 ==> Elided(items, TotalPages(notifications), currentPage)
      ensures TotalPages(notifications) > 5 ==> Number(currentPage) in items
    {
      items := PageNumbers(TotalPages(notifications), currentPage);
    }
  }

  /** A new unread notification adds one to the unread count. */
  lemma UnreadAfterPrepend(n: Notification, ns: seq<Notification>)
    ensures UnreadCount([n] + ns) == UnreadCount(ns) + (if n.read then 0 else 1)
  {
    FilterConcat([n], ns, IsUnread);
    assert [n][..0] == [];
  }

  /** The visible entries: at most three, from `(currentPage - 1) * 3`, and
      none only when the list is empty or the page is past the end. */
  lemma CurrentNotificationsSpec(ns: seq<Notification>, page: int)
    requires page >= 1
    ensures var shown := PageOf(ns, page, ItemsPerPage);
      && |shown| <= ItemsPerPage
      && (forall i :: 0 <= i < |shown| ==> PageStart(page, ItemsPerPage) + i < |ns|
                                           && shown[i] == ns[PageStart(page, ItemsPerPage) + i])
      && (shown != [] <==> page <= TotalPages(ns))
  {
    PageOfSpec(ns, page, ItemsPerPage);
  }
}
