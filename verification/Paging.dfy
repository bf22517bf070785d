// Paging over two tables: each table is cut to the page on its own and the two
// cuts are sorted together (MessageService.js getInbox and getSent).
module Paging {
  import opened Sorting
  import opened MessageRepository
  import opened Views

  /** The first n elements, or all. */
  function Take<T>(xs: seq<T>, n: nat): seq<T>
  {
    Page(xs, n, 0)
  }

  function MergedPage<T>(key: T -> int, a: seq<T>, b: seq<T>, limit: nat, offset: nat): seq<T>
  {
    Sort(key, Page(a, limit, offset) + Page(b, limit, offset))
  }

  /** What a client holds after fetching the first n pages one after another. */
  function FirstPages<T>(key: T -> int, a: seq<T>, b: seq<T>, limit: nat, n: nat): seq<T>
  {
    if n == 0 then [] else FirstPages(key, a, b, limit, n - 1) + MergedPage(key, a, b, limit, (n - 1) * limit)
  }

  lemma SortedPage<T>(key: T -> int, xs: seq<T>, limit: nat, offset: nat)
    requires Sorted(key, xs)
    ensures Sorted(key, Page(xs, limit, offset))
  {
  }

  lemma {:induction false} MergePrefix<T>(key: T -> int, a: seq<T>, b: seq<T>, m: nat, n: nat, limit: nat)
    requires limit <= m && limit <= n
    ensures Take(Merge(key, Take(a, m), Take(b, n)), limit) == Take(Merge(key, a, b), limit)
    decreases limit
  {
    if limit > 0 && a != [] && b != [] {
      TakeCons(a, m);
      TakeCons(b, n);
      if key(a[0]) <= key(b[0]) {
        MergePrefix(key, a[1..], b, m - 1, n, limit - 1);
        TakeOfCons(a[0], Merge(key, a[1..], b), limit);
        TakeOfCons(a[0], Merge(key, Take(a[1..], m - 1), Take(b, n)), limit);
      } else {
        MergePrefix(key, a, b[1..], m, n - 1, limit - 1);
        TakeOfCons(b[0], Merge(key, a, b[1..]), limit);
        TakeOfCons(b[0], Merge(key, Take(a, m), Take(b[1..], n - 1)), limit);
      }
    }
  }

  lemma TakeCons<T>(xs: seq<T>, n: nat)
    requires xs != [] && n > 0
    ensures Take(xs, n) != [] && Take(xs, n)[0] == xs[0] && Take(xs, n)[1..] == Take(xs[1..], n - 1)
  {
  }

  lemma TakeOfCons<T>(x: T, xs: seq<T>, n: nat)
    requires n > 0
    ensures Take([x] + xs, n) == [x] + Take(xs, n - 1)
  {
  }

  lemma TakeGrows<T>(xs: seq<T>, offset: nat, limit: nat)
    ensures Take(xs, offset + limit) == Take(xs, offset) + Page(xs, limit, offset)
  {
  }

  lemma PageAdds<T>(key: T -> int, a: seq<T>, b: seq<T>, limit: nat, offset: nat)
    ensures multiset(Take(a, offset + limit)) + multiset(Take(b, offset + limit))
         == multiset(Take(a, offset)) + multiset(Take(b, offset)) + multiset(MergedPage(key, a, b, limit, offset))
  {
    hide Take, Page, Sort;
    TakeGrows(a, offset, limit);
    TakeGrows(b, offset, limit);
    SortSorts(key, Page(a, limit, offset) + Page(b, limit, offset));
  }

  /** The first n pages hold the first n * limit rows of each table, each once. */
  lemma {:induction false} FirstPagesHold<T>(key: T -> int, a: seq<T>, b: seq<T>, limit: nat, n: nat)
    ensures multiset(FirstPages(key, a, b, limit, n)) == multiset(Take(a, n * limit)) + multiset(Take(b, n * limit))
  {
    hide MergedPage;
    if n == 0 {
      assert Take(a, 0) == [] && Take(b, 0) == [];
    } else {
      hide Take;
      var offset := (n - 1) * limit;
      assert n * limit == offset + limit;
      FirstPagesHold(key, a, b, limit, n - 1);
      PageAdds(key, a, b, limit, offset);
      assert FirstPages(key, a, b, limit, n)
          == FirstPages(key, a, b, limit, n - 1) + MergedPage(key, a, b, limit, offset);
    }
  }

  /** The first n * limit of the whole stream are the first n * limit of what cutting each table first leaves. */
  lemma {:induction false} PrefixOfStream<T>(key: T -> int, a: seq<T>, b: seq<T>, limit: nat)
    requires Sorted(key, a) && Sorted(key, b)
    ensures Take(MergedPage(key, a, b, limit, 0), limit) == Take(Sort(key, a + b), limit)
  {
    SortedPage(key, a, limit, 0);
    SortedPage(key, b, limit, 0);
    SortConcat(key, a, b);
    SortConcat(key, Page(a, limit, 0), Page(b, limit, 0));
    MergePrefix(key, a, b, limit, limit, limit);
  }

  lemma SubsetOfTake<T>(xs: seq<T>, n: nat)
    ensures multiset(Take(xs, n)) <= multiset(xs)
  {
    assert xs == Take(xs, n) + xs[|Take(xs, n)|..];
  }

  lemma {:induction false} PagesReachPrefix<T>(key: T -> int, a: seq<T>, b: seq<T>, limit: nat, n: nat)
    requires Sorted(key, a) && Sorted(key, b)
    ensures multiset(Take(Sort(key, a + b), n * limit)) <= multiset(FirstPages(key, a, b, limit, n))
  {
    PrefixOfStream(key, a, b, n * limit);
    FirstPagesHold(key, a, b, limit, n);
    SortSorts(key, Take(a, n * limit) + Take(b, n * limit));
    SubsetOfTake(MergedPage(key, a, b, n * limit, 0), n * limit);
  }

  // ----- the two views -----

  lemma ListsAreSorted(s: Store, user: string)
    ensures Sorted(Newest, Received(s, user)) && Sorted(Newest, SharedWith(s, user))
    ensures Sorted(Newest, SentBy(s, user)) && Sorted(Newest, SharedBy(s, user))
  {
    SortSorts(Newest,
              Mapped(ToEntry(), Select((m: MessageRow) => m.recipient == user && m.deletedAt.None?, s.messages)));
    SortSorts(Newest, Mapped(Join(s), Select((r: ShareRow) => r.sharedWith == user && Active(s, r), s.shares)));
    SortSorts(Newest, Mapped(ToEntry(), Select((m: MessageRow) => m.sender == user && m.deletedAt.None?, s.messages)));
    SortSorts(Newest, Mapped(Join(s), Select((r: ShareRow) => r.sharedBy == user && Active(s, r), s.shares)));
  }

  /** The first page shows the newest: its first `limit` lines are the first `limit` of the whole stream,
      although each table was cut before the merge. */
  lemma FirstPageIsTheNewest(s: Store, user: string, limit: nat)
    ensures Take(GetInbox(s, user, limit, 0), limit) == Take(Inbox(s, user), limit)
    ensures Take(GetSent(s, user, limit, 0), limit) == Take(Sent(s, user), limit)
  {
    hide Received, SharedWith, SentBy, SharedBy, Sort, Page;
    ListsAreSorted(s, user);
    PrefixOfStream(Newest, Received(s, user), SharedWith(s, user), limit);
    PrefixOfStream(Newest, SentBy(s, user), SharedBy(s, user), limit);
  }

  /** Nothing of the whole view that is left out of these lines is newer than any of them. */
  ghost predicate LeavesOutNoNewer(view: seq<Entry>, lines: seq<Entry>)
  {
    && multiset(lines) <= multiset(view)
    && forall e, shown :: e in multiset(view) - multiset(lines) && shown in lines ==> NoNewer(e, shown)
  }

  lemma PrefixLeavesOutNoNewer(view: seq<Entry>, n: nat)
    requires n <= |view| && NewestFirst(view)
    ensures LeavesOutNoNewer(view, view[..n])
  {
    hide NoNewer;
    assert view == view[..n] + view[n..];
    forall e, shown | e in multiset(view) - multiset(view[..n]) && shown in view[..n] ensures NoNewer(e, shown) {
      assert e in multiset(view[n..]);
      var i :| 0 <= i < n && view[i] == shown;
      var j :| n <= j < |view| && view[j] == e;
    }
  }

  /** Of the whole view no line left out of the first `limit` lines of the first page is newer than one among them, and
      none is left out while there is room. */
  lemma {:induction false} FirstPageLeavesOutNoNewer(s: Store, user: string, limit: nat)
    ensures var page, view := GetInbox(s, user, limit, 0), Inbox(s, user);
            if limit < |view| then |page| >= limit && LeavesOutNoNewer(view, page[..limit]) else page == view
    ensures var page, view := GetSent(s, user, limit, 0), Sent(s, user);
            if limit < |view| then |page| >= limit && LeavesOutNoNewer(view, page[..limit]) else page == view
  {
    FirstPageIsTheNewest(s, user, limit);
    ViewsAreNewestFirst(s, user, limit, 0);
    PageIsNoLonger(s, user, limit);
    hide *;
    PageOfView(GetInbox(s, user, limit, 0), Inbox(s, user), limit);
    PageOfView(GetSent(s, user, limit, 0), Sent(s, user), limit);
  }

  lemma {:induction false} PageOfView(page: seq<Entry>, view: seq<Entry>, limit: nat)
    requires Take(page, limit) == Take(view, limit) && |page| <= |view| && NewestFirst(view)
    ensures if limit < |view| then |page| >= limit && LeavesOutNoNewer(view, page[..limit]) else page == view
  {
    hide LeavesOutNoNewer, NewestFirst;
    if limit < |view| {
      PrefixLeavesOutNoNewer(view, limit);
      assert |Take(page, limit)| == limit;
    } else {
      assert Take(view, limit) == view && Take(page, limit) == page;
    }
  }

  lemma PageIsNoLonger(s: Store, user: string, limit: nat)
    ensures |GetInbox(s, user, limit, 0)| <= |Inbox(s, user)| && |GetSent(s, user, limit, 0)| <= |Sent(s, user)|
  {
    hide Received, SharedWith, SentBy, SharedBy, Sort;
    SortSorts(Newest, Received(s, user) + SharedWith(s, user));
    SortSorts(Newest, SentBy(s, user) + SharedBy(s, user));
    SortSorts(Newest, Page(Received(s, user), limit, 0) + Page(SharedWith(s, user), limit, 0));
    SortSorts(Newest, Page(SentBy(s, user), limit, 0) + Page(SharedBy(s, user), limit, 0));
  }

  function InboxPages(s: Store, user: string, limit: nat, n: nat): seq<Entry>
  {
    if n == 0 then [] else InboxPages(s, user, limit, n - 1) + GetInbox(s, user, limit, (n - 1) * limit)
  }

  function SentPages(s: Store, user: string, limit: nat, n: nat): seq<Entry>
  {
    if n == 0 then [] else SentPages(s, user, limit, n - 1) + GetSent(s, user, limit, (n - 1) * limit)
  }

  lemma {:induction false} PagesAreFirstPages(s: Store, user: string, limit: nat, n: nat)
    ensures InboxPages(s, user, limit, n) == FirstPages(Newest, Received(s, user), SharedWith(s, user), limit, n)
    ensures SentPages(s, user, limit, n) == FirstPages(Newest, SentBy(s, user), SharedBy(s, user), limit, n)
  {
    hide Received, SharedWith, SentBy, SharedBy, Sort, Page;
    if n > 0 {
      PagesAreFirstPages(s, user, limit, n - 1);
    }
  }

  lemma TakeAll<T>(xs: seq<T>, n: nat)
    requires |xs| <= n
    ensures Take(xs, n) == xs
  {
  }

  lemma {:induction false} PagesHoldAll<T>(key: T -> int, a: seq<T>, b: seq<T>, limit: nat, n: nat)
    requires |a| <= n * limit && |b| <= n * limit
    ensures multiset(FirstPages(key, a, b, limit, n)) == multiset(Sort(key, a + b))
  {
    FirstPagesHold(key, a, b, limit, n);
    TakeAll(a, n * limit);
    TakeAll(b, n * limit);
    SortSorts(key, a + b);
  }

  /** Over an unchanging store, pages at offsets 0, limit, 2 * limit, ... list the inbox exactly once in all,
      and after n of them nothing among the newest n * limit lines is still missing. */
  lemma {:induction false} InboxPagesListEachOnce(s: Store, user: string, limit: nat, n: nat)
    ensures |Received(s, user)| <= n * limit && |SharedWith(s, user)| <= n * limit ==>
              multiset(InboxPages(s, user, limit, n)) == multiset(Inbox(s, user))
    ensures multiset(Take(Inbox(s, user), n * limit)) <= multiset(InboxPages(s, user, limit, n))
  {
    hide Received, SharedWith, Sort, Take;
    ListsAreSorted(s, user);
    PagesAreFirstPages(s, user, limit, n);
    PagesReachPrefix(Newest, Received(s, user), SharedWith(s, user), limit, n);
    if |Received(s, user)| <= n * limit && |SharedWith(s, user)| <= n * limit {
      PagesHoldAll(Newest, Received(s, user), SharedWith(s, user), limit, n);
    }
  }

  lemma {:induction false} SentPagesListEachOnce(s: Store, user: string, limit: nat, n: nat)
    ensures |SentBy(s, user)| <= n * limit && |SharedBy(s, user)| <= n * limit ==>
              multiset(SentPages(s, user, limit, n)) == multiset(Sent(s, user))
    ensures multiset(Take(Sent(s, user), n * limit)) <= multiset(SentPages(s, user, limit, n))
  {
    hide SentBy, SharedBy, Sort, Take;
    ListsAreSorted(s, user);
    PagesAreFirstPages(s, user, limit, n);
    PagesReachPrefix(Newest, SentBy(s, user), SharedBy(s, user), limit, n);
    if |SentBy(s, user)| <= n * limit && |SharedBy(s, user)| <= n * limit {
      PagesHoldAll(Newest, SentBy(s, user), SharedBy(s, user), limit, n);
    }
  }
}
