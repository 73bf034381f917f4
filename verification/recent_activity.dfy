/** The alert history page (src/pages/RecentActivity.jsx): the timestamp sort,
    the paged view, marking an alert as reviewed (which also persists its id
    so the live alert never raises it again), and the cache-busting download
    link. */
module RecentActivity {
  import opened Common
  import opened AlertFilter
  import opened Pagination

  /** An alert row of the history page. `timestamp` is the instant the
      `Date` built from the row's timestamp denotes, in milliseconds. */
  datatype ActivityAlert = ActivityAlert(id: AlertId, cameraName: string, timestamp: int,
                                         videoClip: Option<string>)

  // ---------------------------------------------------------------------------
  // Sorting
  // ---------------------------------------------------------------------------

  /** `a` may stand before `b`: newest first for the "newest" order, oldest
      first for any other order value. */
  predicate Precedes(a: ActivityAlert, b: ActivityAlert, newest: bool) {
    SortKey(a, newest) <= SortKey(b, newest)
  }

  /** The ascending key of the chosen direction. */
  function SortKey(a: ActivityAlert, newest: bool): int {
    if newest then -a.timestamp else a.timestamp
  }

  predicate SortedBy(s: seq<ActivityAlert>, newest: bool) {
    forall i, j :: 0 <= i < j < |s| ==> Precedes(s[i], s[j], newest)
  }

  /** Places `x` in a sorted list, before every element it may precede. */
  function Insert(x: ActivityAlert, s: seq<ActivityAlert>, newest: bool): (r: seq<ActivityAlert>)
    requires SortedBy(s, newest)
    ensures SortedBy(r, newest)
    ensures multiset(r) == multiset(s) + multiset{x}
    ensures forall k :: 0 <= k < |r| ==> r[k] == x || r[k] in s
  {
    if s == [] then [x]
    else if Precedes(x, s[0], newest) then
      ConsSorted(x, s, newest);
      [x] + s
    else
      var rest := Insert(x, s[1..], newest);
      InsertBehindHead(x, s, rest, newest);
      [s[0]] + rest
  }

  /** When `x` does not precede the head, the head followed by `x` inserted
      into the tail is `x` inserted into the whole list. */
  lemma InsertBehindHead(x: ActivityAlert, s: seq<ActivityAlert>, rest: seq<ActivityAlert>, newest: bool)
    requires SortedBy(s, newest) && s != []
    requires !Precedes(x, s[0], newest)
    requires SortedBy(rest, newest)
    requires multiset(rest) == multiset(s[1..]) + multiset{x}
    requires forall k :: 0 <= k < |rest| ==> rest[k] == x || rest[k] in s[1..]
    ensures var r := [s[0]] + rest;
            && SortedBy(r, newest)
            && multiset(r) == multiset(s) + multiset{x}
            && forall k :: 0 <= k < |r| ==> r[k] == x || r[k] in s
  {
    var r := [s[0]] + rest;
    HeadPrecedesInsert(x, s, rest, newest);
    ConsSorted(s[0], rest, newest);
    assert s == [s[0]] + s[1..];
    forall k | 0 < k < |r| && r[k] != x ensures r[k] in s {
      assert r[k] == rest[k - 1];
    }
  }

  /** An element preceding every element of a sorted list may head it. */
  lemma ConsSorted(h: ActivityAlert, t: seq<ActivityAlert>, newest: bool)
    requires SortedBy(t, newest)
    requires forall k :: 0 <= k < |t| ==> Precedes(h, t[k], newest)
    ensures SortedBy([h] + t, newest)
  {
    var r := [h] + t;
    forall i, j | 0 <= i < j < |r| ensures Precedes(r[i], r[j], newest) {
      assert r[j] == t[j - 1];
      if i > 0 { assert r[i] == t[i - 1]; }
    }
  }

  /** The head of a sorted list precedes everything `x` may be inserted
      among after it, when `x` does not precede the head. */
  lemma HeadPrecedesInsert(x: ActivityAlert, s: seq<ActivityAlert>, rest: seq<ActivityAlert>, newest: bool)
    requires SortedBy(s, newest) && s != []
    requires !Precedes(x, s[0], newest)
    requires forall k :: 0 <= k < |rest| ==> rest[k] == x || rest[k] in s[1..]
    ensures forall k :: 0 <= k < |rest| ==> Precedes(s[0], rest[k], newest)
  {
    forall k | 0 <= k < |rest| ensures Precedes(s[0], rest[k], newest) {
      if rest[k] != x {
        var j :| 0 <= j < |s[1..]| && s[1..][j] == rest[k];
        assert s[1..][j] == s[j + 1];
      }
    }
  }

  /** The sort of `applyFilters`: a sorted copy, holding exactly the same
      alerts. The comparator subtracts the two dates, so newest-first means
      descending timestamps. */
  function Sort(s: seq<ActivityAlert>, newest: bool): (r: seq<ActivityAlert>)
    ensures SortedBy(r, newest)
    ensures multiset(r) == multiset(s)
    ensures |r| == |s|
  {
    if s == [] then []
    else
      assert s == [s[0]] + s[1..];
      Insert(s[0], Sort(s[1..], newest), newest)
  }

  /** `applyFilters`: only the sort; the order is newest-first exactly when
      the selected order is "newest". */
  function ApplyFilters(alerts: seq<ActivityAlert>, sortOrder: string): (r: seq<ActivityAlert>)
    ensures SortedBy(r, sortOrder == "newest")
    ensures multiset(r) == multiset(alerts)
  {
    Sort(alerts, sortOrder == "newest")
  }

  // ---------------------------------------------------------------------------
  // The page state
  // ---------------------------------------------------------------------------

  /** What the page holds: the fetched alerts, the sorted copy on display, the
      sort order, the page view, the alert picked for review and whether the
      confirmation modal is open. */
  datatype Activity = Activity(alerts: seq<ActivityAlert>, shown: seq<ActivityAlert>,
                               sortOrder: string, view: PageView,
                               selected: Option<ActivityAlert>, confirmOpen: bool)

  /** The page as first rendered: nothing loaded, newest first, page 1 of 10. */
  const InitialActivity := Activity([], [], "newest", InitialView, None, false)

  /** The display list is always the fetched list in the selected order. */
  predicate Consistent(st: Activity) {
    SortedBy(st.shown, st.sortOrder == "newest") && multiset(st.shown) == multiset(st.alerts)
  }

  /** The history endpoint's answer. */
  datatype FetchReply = FetchFailed | Fetched(status: string, alerts: seq<ActivityAlert>)

  /** `fetchAlerts`: without a token nothing is fetched; a "success" reply
      replaces both lists; anything else keeps them. */
  function Fetch(st: Activity, hasToken: bool, reply: FetchReply): (r: Activity)
    requires Consistent(st)
    ensures Consistent(r)
    ensures r.sortOrder == st.sortOrder && r.view == st.view && r.selected == st.selected
    ensures (hasToken && reply.Fetched? && reply.status == "success") ==> r.alerts == reply.alerts
    ensures !(hasToken && reply.Fetched? && reply.status == "success") ==> r == st
  {
    if hasToken && reply.Fetched? && reply.status == "success" then
      st.(alerts := reply.alerts, shown := ApplyFilters(reply.alerts, st.sortOrder))
    else st
  }

  /** Choosing a sort order re-sorts the fetched alerts. */
  function SetSortOrder(st: Activity, order: string): (r: Activity)
    requires Consistent(st)
    ensures Consistent(r) && r.sortOrder == order && r.alerts == st.alerts
  {
    st.(sortOrder := order, shown := ApplyFilters(st.alerts, order))
  }

  /** The rows on the current page: `shown.slice(page*n - n, page*n)`. */
  function CurrentItems(st: Activity): (r: seq<ActivityAlert>)
    requires st.view.perPage > 0
    ensures |r| <= st.view.perPage
    ensures forall i :: 0 <= i < |r| ==> r[i] in st.shown
  {
    PageSlice(st.shown, st.view.page, st.view.perPage)
  }

  /** `handleItemsPerPageChange` on this page. */
  function ItemsPerPageChange(st: Activity, n: int): (r: Activity)
    ensures r.view.page == 1 && r.view.perPage == n
    ensures r.shown == st.shown && r.alerts == st.alerts
  {
    st.(view := ChangePageSize(st.view, n))
  }

  /** `handleConfirmReview`: remember the alert and open the confirmation. */
  function ConfirmReview(st: Activity, a: ActivityAlert): (r: Activity)
    ensures r.selected == Some(a) && r.confirmOpen
    ensures r.alerts == st.alerts && r.shown == st.shown
  {
    st.(selected := Some(a), confirmOpen := true)
  }

  // ---------------------------------------------------------------------------
  // Mark as reviewed
  // ---------------------------------------------------------------------------

  /** The mark-as-reviewed endpoint's answer. */
  datatype ReviewReply = ReviewFailed | ReviewReplied(status: string)

  /** Appending the reviewed id to the persisted list; a list that cannot be
      read or extended is left as it was and the error is swallowed. */
  function AppendStored(st: StoredIds, id: AlertId): (r: StoredIds)
    ensures st.Unreadable? ==> r == st
    ensures st.Missing? ==> r == Ids([id])
    ensures st.Ids? ==> r.Ids? && |r.ids| == |st.ids| + 1 && r.ids[..|st.ids|] == st.ids && r.ids[|st.ids|] == id
  {
    match st
    case Missing => Ids([id])
    case Ids(ids) => Ids(ids + [id])
    case Unreadable => Unreadable
  }

  /** The page and the persisted list after a step. */
  datatype Reviewed = Reviewed(page: Activity, stored: StoredIds)

  /** The review succeeded: an alert was picked, a token exists and the reply
      said "success". */
  predicate ReviewSucceeds(st: Activity, hasToken: bool, reply: ReviewReply) {
    st.selected.Some? && hasToken && reply.ReviewReplied? && reply.status == "success"
  }

  /** `handleMarkAsReviewed`. With no alert picked, or no token, nothing
      happens. Otherwise the confirmation closes whatever the outcome, and on
      success every alert with the picked id leaves the page (the rest keep
      their order and are re-sorted for display) and the id is appended to the
      persisted list. */
  function MarkAsReviewed(st: Activity, hasToken: bool, reply: ReviewReply, stored: StoredIds): (r: Reviewed)
    requires Consistent(st)
    ensures Consistent(r.page)
    ensures (st.selected.None? || !hasToken) ==> r == Reviewed(st, stored)
    ensures (st.selected.Some? && hasToken) ==> !r.page.confirmOpen
    ensures !ReviewSucceeds(st, hasToken, reply) ==>
              r.stored == stored && r.page.alerts == st.alerts && r.page.shown == st.shown
    ensures ReviewSucceeds(st, hasToken, reply) ==>
              var id := st.selected.value.id;
              && (forall i :: 0 <= i < |r.page.alerts| ==> r.page.alerts[i].id != id)
              && (forall i :: 0 <= i < |st.alerts| && st.alerts[i].id != id ==> st.alerts[i] in r.page.alerts)
              && (forall a :: multiset(r.page.alerts)[a] == if a.id != id then multiset(st.alerts)[a] else 0)
              && Subsequence(r.page.alerts, st.alerts)
              && r.stored == AppendStored(stored, id)
    ensures r.page.sortOrder == st.sortOrder && r.page.view == st.view && r.page.selected == st.selected
  {
    if st.selected.None? || !hasToken then Reviewed(st, stored)
    else if ReviewSucceeds(st, hasToken, reply) then
      var id := st.selected.value.id;
      FilterCountsAll(st.alerts, (a: ActivityAlert) => a.id != id);
      var updated := Filter(st.alerts, (a: ActivityAlert) => a.id != id);
      Reviewed(st.(alerts := updated, shown := ApplyFilters(updated, st.sortOrder), confirmOpen := false),
               AppendStored(stored, id))
    else Reviewed(st.(confirmOpen := false), stored)
  }

  /** Reviewing an alert silences it for the live alert: after a successful
      review with a readable persisted list, the novelty check rejects that id
      whatever the in-memory state and the time. */
  lemma ReviewedAlertIsNotRenotified(st: Activity, hasToken: bool, reply: ReviewReply, stored: StoredIds,
                                     f: FilterState, now: int)
    requires Consistent(st) && ReviewSucceeds(st, hasToken, reply) && !stored.Unreadable?
    requires Distinct(f.processed)
    ensures var r := MarkAsReviewed(st, hasToken, reply, stored);
            && PersistedHit(r.stored, st.selected.value.id)
            && !ShouldProcess(f, r.stored, st.selected.value.id, now).accept
  {
    var id := st.selected.value.id;
    var r := MarkAsReviewed(st, hasToken, reply, stored);
    if stored.Ids? {
      assert r.stored.ids[|stored.ids|] == id;
    }
  }

  // ---------------------------------------------------------------------------
  // Download link
  // ---------------------------------------------------------------------------

  /** `handleDownload`'s link: nothing without a clip URL (an empty URL is
      falsy); otherwise the anchor's `href` with a `t=<stamp>` cache-buster,
      joined with `?` when it has no `?` yet and with `&` when it has.
      `resolved` is what the anchor's `href` reads back after the clip URL is
      assigned: the browser resolves it against the page and serialises it,
      so the test and the extension act on that string, not on the raw clip.
      `stamp` is `Date.now()` in decimal. */
  function DownloadHref(clip: Option<string>, resolved: string, stamp: string): (r: Option<string>)
    ensures r.Some? <==> clip.Some? && clip.value != ""
    ensures r.Some? ==> |r.value| == |resolved| + 3 + |stamp| && r.value[..|resolved|] == resolved
    ensures r.Some? ==> r.value[|resolved|] == (if '?' in resolved then '&' else '?')
    ensures r.Some? ==> r.value[|resolved| + 1..] == "t=" + stamp
  {
    if clip.None? || clip.value == "" then None
    else if IndexOfChar(resolved, '?') == -1 then Some(resolved + ("?t=" + stamp))
    else Some(resolved + ("&t=" + stamp))
  }

  /** The first `c` of `a + b` is the first `c` of `a` when `a` has one, and
      otherwise the first `c` of `b`, shifted past `a`. */
  lemma {:induction false} IndexOfCharAppend(a: string, b: string, c: char)
    ensures c in a ==> IndexOfChar(a + b, c) == IndexOfChar(a, c)
    ensures c !in a && c in b ==> IndexOfChar(a + b, c) == |a| + IndexOfChar(b, c)
    decreases |a|
  {
    if a != [] && a[0] != c {
      assert (a + b)[1..] == a[1..] + b;
      IndexOfCharAppend(a[1..], b, c);
    } else if a == [] {
      assert a + b == b;
    }
  }

  /** The cache-buster never opens a second query string: the link's first
      `?` is the resolved URL's own first `?`, or the one added right after
      it when it had none. */
  lemma CacheBusterKeepsOneQuery(clip: string, resolved: string, stamp: string)
    requires clip != ""
    requires forall i :: 0 <= i < |stamp| ==> IsDigit(stamp[i])
    ensures var r := DownloadHref(Some(clip), resolved, stamp).value;
            IndexOfChar(r, '?') == (if '?' in resolved then IndexOfChar(resolved, '?') else |resolved|)
  {
    if '?' in resolved {
      IndexOfCharAppend(resolved, "&t=" + stamp, '?');
    } else {
      assert ("?t=" + stamp)[0] == '?';
      IndexOfCharAppend(resolved, "?t=" + stamp, '?');
    }
  }
}
