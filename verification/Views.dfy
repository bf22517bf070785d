// The derived views of MessageService.js: inbox, sent list and who may read what.
module Views {
  import opened Wrappers
  import opened Sorting
  import opened Grouping
  import opened MessageRepository
  import opened MessageServer

  /** A line of an inbox or a sent list: a message, or a share with the chain status of its original. */
  datatype Entry = Direct(message: MessageRow) | Shared(share: ShareRow, status: ChainStatus)

  function CreatedAt(e: Entry): int
  {
    match e case Direct(m) => m.createdAt case Shared(r, _) => r.createdAt
  }

  /** ORDER BY created_at DESC, and (a, b) => b.createdAt - a.createdAt. */
  function Newest(e: Entry): int
  {
    -CreatedAt(e)
  }

  function StatusIn(rows: seq<MessageRow>, id: string): ChainStatus
  {
    if rows == [] then Pending else if rows[0].id == id then rows[0].status else StatusIn(rows[1..], id)
  }

  function Join(s: Store): ShareRow -> Entry
  {
    (r: ShareRow) => Shared(r, StatusIn(s.messages, r.messageId))
  }

  function ToEntry(): MessageRow -> Entry
  {
    (m: MessageRow) => Direct(m)
  }

  function Active(s: Store, r: ShareRow): bool
  {
    r.revokedAt.None? && Live(s, r.messageId)
  }

  // The four queries without their LIMIT, newest first.

  function Received(s: Store, user: string): seq<Entry>
  {
    Sort(Newest, Mapped(ToEntry(), Select((m: MessageRow) => m.recipient == user && m.deletedAt.None?, s.messages)))
  }

  function SharedWith(s: Store, user: string): seq<Entry>
  {
    Sort(Newest, Mapped(Join(s), Select((r: ShareRow) => r.sharedWith == user && Active(s, r), s.shares)))
  }

  function SentBy(s: Store, user: string): seq<Entry>
  {
    Sort(Newest, Mapped(ToEntry(), Select((m: MessageRow) => m.sender == user && m.deletedAt.None?, s.messages)))
  }

  function SharedBy(s: Store, user: string): seq<Entry>
  {
    Sort(Newest, Mapped(Join(s), Select((r: ShareRow) => r.sharedBy == user && Active(s, r), s.shares)))
  }

  function GetInbox(s: Store, user: string, limit: nat, offset: nat): seq<Entry>
  {
    Sort(Newest, Page(Received(s, user), limit, offset) + Page(SharedWith(s, user), limit, offset))
  }

  function GetSent(s: Store, user: string, limit: nat, offset: nat): seq<Entry>
  {
    Sort(Newest, Page(SentBy(s, user), limit, offset) + Page(SharedBy(s, user), limit, offset))
  }

  /** The unpaged views. */
  function Inbox(s: Store, user: string): seq<Entry>
  {
    Sort(Newest, Received(s, user) + SharedWith(s, user))
  }

  function Sent(s: Store, user: string): seq<Entry>
  {
    Sort(Newest, SentBy(s, user) + SharedBy(s, user))
  }

  // ----- counting -----

  function Times<T(==)>(xs: seq<T>, x: T): nat
  {
    multiset(xs)[x]
  }

  lemma TimesSnoc<T>(xs: seq<T>, last: T, x: T)
    ensures Times(xs + [last], x) == Times(xs, x) + if last == x then 1 else 0
  {
  }

  lemma SplitLast<T>(xs: seq<T>)
    requires xs != []
    ensures xs == xs[..|xs| - 1] + [xs[|xs| - 1]]
  {
  }

  lemma {:induction false} SelectCounts<T>(p: T -> bool, rows: seq<T>, x: T)
    ensures Times(Select(p, rows), x) == if p(x) then Times(rows, x) else 0
  {
    if rows != [] {
      hide Times;
      var init, last := rows[..|rows| - 1], rows[|rows| - 1];
      SelectCounts(p, init, x);
      SplitLast(rows);
      TimesSnoc(init, last, x);
      TimesSnoc(Select(p, init), last, x);
    }
  }

  lemma {:induction false} MappedCounts<T>(f: T -> Entry, rows: seq<T>, x: T)
    requires forall y :: y in rows && f(y) == f(x) ==> y == x
    ensures Times(Mapped(f, rows), f(x)) == Times(rows, x)
  {
    if rows != [] {
      hide Times;
      var init, last := rows[..|rows| - 1], rows[|rows| - 1];
      MappedCounts(f, init, x);
      SplitLast(rows);
      TimesSnoc(init, last, x);
      TimesSnoc(Mapped(f, init), f(last), f(x));
    }
  }

  lemma {:induction false} MappedLacks<T>(f: T -> Entry, rows: seq<T>, e: Entry)
    requires forall y :: y in rows ==> f(y) != e
    ensures Times(Mapped(f, rows), e) == 0
  {
    if rows != [] {
      hide Times;
      var init, last := rows[..|rows| - 1], rows[|rows| - 1];
      MappedLacks(f, init, e);
      TimesSnoc(Mapped(f, init), f(last), e);
    }
  }

  lemma MergedCounts(a: seq<Entry>, b: seq<Entry>, e: Entry)
    ensures Times(Sort(Newest, Sort(Newest, a) + Sort(Newest, b)), e) == Times(a, e) + Times(b, e)
  {
    SortSorts(Newest, a);
    SortSorts(Newest, b);
    SortSorts(Newest, Sort(Newest, a) + Sort(Newest, b));
  }

  /** A list made of the selected messages and the selected shares holds each of them once, and nothing twice. */
  lemma {:induction false} ViewCounts(s: Store, p: MessageRow -> bool, q: ShareRow -> bool, e: Entry)
    ensures var view := Sort(Newest, Sort(Newest, Mapped(ToEntry(), Select(p, s.messages)))
                                   + Sort(Newest, Mapped(Join(s), Select(q, s.shares))));
            && (e.Direct? ==> Times(view, e) == if p(e.message) then Times(s.messages, e.message) else 0)
            && (e.Shared? && e == Join(s)(e.share) ==>
                  Times(view, e) == if q(e.share) then Times(s.shares, e.share) else 0)
            && (e.Shared? && e != Join(s)(e.share) ==> Times(view, e) == 0)
  {
    var ms, rs := Select(p, s.messages), Select(q, s.shares);
    MergedCounts(Mapped(ToEntry(), ms), Mapped(Join(s), rs), e);
    if e.Direct? {
      MappedCounts(ToEntry(), ms, e.message);
      SelectCounts(p, s.messages, e.message);
      MappedLacks(Join(s), rs, e);
    } else {
      MappedLacks(ToEntry(), ms, e);
      if e == Join(s)(e.share) {
        MappedCounts(Join(s), rs, e.share);
        SelectCounts(q, s.shares, e.share);
      } else {
        MappedLacks(Join(s), rs, e);
      }
    }
  }

  lemma InboxCounts(s: Store, user: string, e: Entry)
    ensures e.Direct? ==>
              Times(Inbox(s, user), e) ==
                (if e.message.recipient == user && e.message.deletedAt.None? then Times(s.messages, e.message) else 0)
    ensures e.Shared? ==>
              Times(Inbox(s, user), e) ==
                (if e == Join(s)(e.share) && e.share.sharedWith == user && Active(s, e.share)
                 then Times(s.shares, e.share) else 0)
  {
    ViewCounts(s, (m: MessageRow) => m.recipient == user && m.deletedAt.None?,
               (r: ShareRow) => r.sharedWith == user && Active(s, r), e);
  }

  lemma SentCounts(s: Store, user: string, e: Entry)
    ensures e.Direct? ==>
              Times(Sent(s, user), e) ==
                (if e.message.sender == user && e.message.deletedAt.None? then Times(s.messages, e.message) else 0)
    ensures e.Shared? ==>
              Times(Sent(s, user), e) ==
                (if e == Join(s)(e.share) && e.share.sharedBy == user && Active(s, e.share)
                 then Times(s.shares, e.share) else 0)
  {
    ViewCounts(s, (m: MessageRow) => m.sender == user && m.deletedAt.None?,
               (r: ShareRow) => r.sharedBy == user && Active(s, r), e);
  }

  lemma StoredOnce(s: Store)
    requires Unique(s)
    ensures forall i :: 0 <= i < |s.messages| ==> Times(s.messages, s.messages[i]) == 1
    ensures forall i :: 0 <= i < |s.shares| ==> Times(s.shares, s.shares[i]) == 1
  {
    forall i | 0 <= i < |s.messages| ensures Times(s.messages, s.messages[i]) == 1 {
      NoRepeatsCounts(s.messages, s.messages[i]);
    }
    forall i | 0 <= i < |s.shares| ensures Times(s.shares, s.shares[i]) == 1 {
      NoRepeatsCounts(s.shares, s.shares[i]);
    }
  }

  // ----- the views agree and conserve -----

  /** Later lines are no newer than earlier ones. */
  ghost predicate NewestFirst(lines: seq<Entry>)
  {
    forall i, j :: 0 <= i < j < |lines| ==> NoNewer(lines[j], lines[i])
  }

  /** The message or share a was not made after b. */
  predicate NoNewer(a: Entry, b: Entry)
  {
    match (a, b)
    case (Direct(m), Direct(n)) => m.createdAt <= n.createdAt
    case (Direct(m), Shared(n, _)) => m.createdAt <= n.createdAt
    case (Shared(m, _), Direct(n)) => m.createdAt <= n.createdAt
    case (Shared(m, _), Shared(n, _)) => m.createdAt <= n.createdAt
  }

  lemma {:induction false} SortedIsNewestFirst(lines: seq<Entry>)
    ensures Sorted(Newest, lines) <==> NewestFirst(lines)
  {
    forall a: Entry, b: Entry ensures Newest(b) <= Newest(a) <==> NoNewer(a, b) {
    }
    hide NoNewer, Newest;
    if Sorted(Newest, lines) {
      forall i, j | 0 <= i < j < |lines| ensures NoNewer(lines[j], lines[i]) {
        assert Newest(lines[i]) <= Newest(lines[j]);
      }
    }
    if NewestFirst(lines) {
      forall i, j | 0 <= i < j < |lines| ensures Newest(lines[i]) <= Newest(lines[j]) {
        assert NoNewer(lines[j], lines[i]);
      }
    }
  }

  /** Every page and every whole view lists its lines newest first. */
  lemma ViewsAreNewestFirst(s: Store, user: string, limit: nat, offset: nat)
    ensures NewestFirst(GetInbox(s, user, limit, offset)) && NewestFirst(GetSent(s, user, limit, offset))
    ensures NewestFirst(Inbox(s, user)) && NewestFirst(Sent(s, user))
  {
    hide Received, SharedWith, SentBy, SharedBy, Page, Newest, NewestFirst, Sorted;
    SortSorts(Newest, Page(Received(s, user), limit, offset) + Page(SharedWith(s, user), limit, offset));
    SortSorts(Newest, Page(SentBy(s, user), limit, offset) + Page(SharedBy(s, user), limit, offset));
    SortSorts(Newest, Received(s, user) + SharedWith(s, user));
    SortSorts(Newest, SentBy(s, user) + SharedBy(s, user));
    SortedIsNewestFirst(GetInbox(s, user, limit, offset));
    SortedIsNewestFirst(GetSent(s, user, limit, offset));
    SortedIsNewestFirst(Inbox(s, user));
    SortedIsNewestFirst(Sent(s, user));
  }

  /** In every run, a message is once in its recipient's inbox and once in its sender's sent list until it is
      deleted, and in no other inbox or sent list, ever. */
  lemma {:induction false} EachMessageIsSeenOnce(v0: Server, acts: seq<Action>, i: nat, user: string)
    requires Starts(v0) && ValidRun(v0, acts) && i < |After(v0, acts).store.messages|
    ensures var s := After(v0, acts).store;
            var m := s.messages[i];
            && Times(Inbox(s, user), Direct(m)) == (if m.deletedAt.None? && m.recipient == user then 1 else 0)
            && Times(Sent(s, user), Direct(m)) == (if m.deletedAt.None? && m.sender == user then 1 else 0)
  {
    hide Starts, Inbox, Sent;
    RunKeepsUnique(v0, acts);
    var s := After(v0, acts).store;
    StoredOnce(s);
    InboxCounts(s, user, Direct(s.messages[i]));
    SentCounts(s, user, Direct(s.messages[i]));
  }

  /** A share is once in the inbox of whom it was made to and once in the sent list of who made it, as long as
      it is not revoked and its message not deleted, and in no other list, ever. */
  lemma {:induction false} EachShareIsSeenOnce(v0: Server, acts: seq<Action>, i: nat, user: string)
    requires Starts(v0) && ValidRun(v0, acts) && i < |After(v0, acts).store.shares|
    ensures var s := After(v0, acts).store;
            var r := s.shares[i];
            && Times(Inbox(s, user), Join(s)(r)) == (if Active(s, r) && r.sharedWith == user then 1 else 0)
            && Times(Sent(s, user), Join(s)(r)) == (if Active(s, r) && r.sharedBy == user then 1 else 0)
  {
    hide Starts, Inbox, Sent, Active;
    RunKeepsUnique(v0, acts);
    var s := After(v0, acts).store;
    StoredOnce(s);
    InboxCounts(s, user, Join(s)(s.shares[i]));
    SentCounts(s, user, Join(s)(s.shares[i]));
  }

  lemma {:induction false} StatusOfRow(rows: seq<MessageRow>, k: nat)
    requires k < |rows| && forall i :: 0 <= i < k ==> rows[i].id != rows[k].id
    ensures StatusIn(rows, rows[k].id) == rows[k].status
  {
    if k > 0 {
      StatusOfRow(rows[1..], k - 1);
    }
  }

  /** And it is there with the chain status its message has now, and with no other. */
  lemma {:induction false} SharesShowTheStatus(v0: Server, acts: seq<Action>, i: nat, k: nat, user: string,
                                               status: ChainStatus)
    requires Starts(v0) && ValidRun(v0, acts)
    requires i < |After(v0, acts).store.shares| && k < |After(v0, acts).store.messages|
    requires After(v0, acts).store.messages[k].id == After(v0, acts).store.shares[i].messageId
    ensures var s := After(v0, acts).store;
            var m, r := s.messages[k], s.shares[i];
            var shown := r.revokedAt.None? && m.deletedAt.None? && status == m.status;
            && Times(Inbox(s, user), Shared(r, status)) == (if shown && r.sharedWith == user then 1 else 0)
            && Times(Sent(s, user), Shared(r, status)) == (if shown && r.sharedBy == user then 1 else 0)
  {
    hide Starts, Inbox, Sent;
    RunKeepsUnique(v0, acts);
    var s := After(v0, acts).store;
    StoredOnce(s);
    StatusOfRow(s.messages, k);
    OnlyOneLive(s, s.messages[k]);
    InboxCounts(s, user, Shared(s.shares[i], status));
    SentCounts(s, user, Shared(s.shares[i], status));
  }

  lemma InboxMembers(s: Store, user: string, e: Entry)
    ensures e in Inbox(s, user) <==>
      (match e
       case Direct(m) => m in s.messages && m.recipient == user && m.deletedAt.None?
       case Shared(r, _) => e == Join(s)(r) && r in s.shares && r.sharedWith == user && Active(s, r))
    ensures e.Direct? ==>
              (e in Sent(s, user) <==> e.message in s.messages && e.message.sender == user && e.message.deletedAt.None?)
  {
    InboxCounts(s, user, e);
    SentCounts(s, user, e);
    hide Inbox, Sent, Active, Join;
    assert e in Inbox(s, user) <==> Times(Inbox(s, user), e) > 0;
    assert e in Sent(s, user) <==> Times(Sent(s, user), e) > 0;
    match e {
      case Direct(m) => assert m in s.messages <==> Times(s.messages, m) > 0;
      case Shared(r, _) => assert r in s.shares <==> Times(s.shares, r) > 0;
    }
  }

  ghost predicate ListedFor(s: Store, messageId: string, user: string)
  {
    || (exists m :: m in s.messages && m.id == messageId && (Direct(m) in Inbox(s, user) || Direct(m) in Sent(s, user)))
    || (exists r :: r in s.shares && r.messageId == messageId && Join(s)(r) in Inbox(s, user))
  }

  /** getMessage admits a user exactly when their own lists show the message or a share of it received. */
  lemma AccessIsWhatTheListsShow(v0: Server, acts: seq<Action>, messageId: string, user: string)
    requires Starts(v0) && ValidRun(v0, acts)
    ensures var s := After(v0, acts).store;
            && (GetMessage(s, messageId, user).Ok? <==> ListedFor(s, messageId, user))
            && (GetMessage(s, messageId, user) == Err(NotFound) <==> !Live(s, messageId))
  {
    hide Starts;
    RunKeepsUnique(v0, acts);
    AccessIsListed(After(v0, acts).store, messageId, user);
  }

  lemma AccessIsListed(s: Store, messageId: string, user: string)
    requires Unique(s)
    ensures GetMessage(s, messageId, user).Ok? <==> ListedFor(s, messageId, user)
    ensures GetMessage(s, messageId, user) == Err(NotFound) <==> !Live(s, messageId)
  {
    hide Inbox, Sent;
    FindInExactly(s.messages, messageId);
    forall m ensures Direct(m) in Inbox(s, user) || Direct(m) in Sent(s, user) <==>
                       m in s.messages && Party(m, user) && m.deletedAt.None? {
      InboxMembers(s, user, Direct(m));
    }
    forall r ensures Join(s)(r) in Inbox(s, user) <==> r in s.shares && r.sharedWith == user && Active(s, r) {
      InboxMembers(s, user, Join(s)(r));
    }
    ListedMeans(s, messageId, user);
    hide ListedFor;
    if FindById(s, messageId).Some? {
      OnlyOneLive(s, FindById(s, messageId).value);
    }
  }

  /** ListedFor with the lists unfolded. */
  lemma ListedMeans(s: Store, messageId: string, user: string)
    requires forall m :: Direct(m) in Inbox(s, user) || Direct(m) in Sent(s, user) <==>
                           m in s.messages && Party(m, user) && m.deletedAt.None?
    requires forall r :: Join(s)(r) in Inbox(s, user) <==> r in s.shares && r.sharedWith == user && Active(s, r)
    ensures ListedFor(s, messageId, user) <==>
              (exists m :: m in s.messages && m.id == messageId && Party(m, user) && m.deletedAt.None?)
              || (HasShare(s, messageId, user) && Live(s, messageId))
  {
    hide Inbox, Sent, Join, Party;
    if ListedFor(s, messageId, user) {
      if m :| m in s.messages && m.id == messageId && (Direct(m) in Inbox(s, user) || Direct(m) in Sent(s, user)) {
      } else {
        var r :| r in s.shares && r.messageId == messageId && Join(s)(r) in Inbox(s, user);
      }
    }
    if HasShare(s, messageId, user) && Live(s, messageId) {
      var r :| r in s.shares && r.messageId == messageId && r.revokedAt.None? && r.sharedWith == user;
      assert Join(s)(r) in Inbox(s, user);
    }
  }

  lemma OnlyOneLive(s: Store, m: MessageRow)
    requires Unique(s) && m in s.messages
    ensures forall m' :: m' in s.messages && m'.id == m.id ==> m' == m
  {
  }

  // ----- revocation -----

  lemma {:induction false} MappedMembers<T(!new), U>(f: T -> U, rows: seq<T>, y: U)
    ensures y in Mapped(f, rows) <==> exists x :: x in rows && f(x) == y
  {
    if rows != [] {
      MappedMembers(f, rows[..|rows| - 1], y);
      assert rows == rows[..|rows| - 1] + [rows[|rows| - 1]];
    }
  }

  /** Revoking takes the message from that user, unless they are a party to it, and from nobody else: a
      person they forwarded it to keeps it. */
  lemma RevocationTakesExactlyOne(s: Store, messageId: string, sharedWith: string, now: int, id: string, user: string)
    ensures var s' := RevokeShare(s, messageId, sharedWith, now);
            GetMessage(s', id, user) ==
              if id == messageId && user == sharedWith
                 && GetMessage(s, id, user).Ok? && !Party(GetMessage(s, id, user).value, user)
              then Err(Forbidden) else GetMessage(s, id, user)
    ensures var s' := RevokeShare(s, messageId, sharedWith, now);
            && s'.messages == s.messages && |s'.shares| == |s.shares|
            && (forall i :: 0 <= i < |s.shares| ==>
                  s'.shares[i] == if s.shares[i].messageId == messageId && s.shares[i].sharedWith == sharedWith
                                  then s.shares[i].(revokedAt := Some(now)) else s.shares[i])
  {
    hide FindById, Party;
    var s' := RevokeShare(s, messageId, sharedWith, now);
    var f := (r: ShareRow) => if IsShareTo(r, messageId, sharedWith) then r.(revokedAt := Some(now)) else r;
    assert s'.messages == s.messages;
    if HasShare(s', id, user) {
      var r :| r in s'.shares && r.messageId == id && r.revokedAt.None? && r.sharedWith == user;
      MappedMembers(f, s.shares, r);
    }
    if HasShare(s, id, user) && !(id == messageId && user == sharedWith) {
      var r :| r in s.shares && r.messageId == id && r.revokedAt.None? && r.sharedWith == user;
      assert f(r) == r;
      MappedMembers(f, s.shares, r);
    }
    FindSame(s, s', id);
  }

  lemma FindSame(s: Store, s': Store, id: string)
    requires s.messages == s'.messages
    ensures FindById(s, id) == FindById(s', id)
  {
  }

  // ----- deletion -----

  lemma SoftDeleted(s: Store, id: string, user: string, now: int, m: MessageRow)
    ensures var s' := SoftDelete(s, id, user, now);
            m.deletedAt.None? ==> (m in s'.messages <==> m in s.messages && !MayDelete(m, id, user))
  {
    var f := (x: MessageRow) => if MayDelete(x, id, user) then x.(deletedAt := Some(now)) else x;
    MappedMembers(f, s.messages, m);
    if m in s.messages && !MayDelete(m, id, user) {
      assert f(m) == m;
    }
  }

  lemma DeletedRows(s: Store, id: string, user: string, now: int)
    ensures var s' := SoftDelete(s, id, user, now);
            && s'.shares == s.shares && |s'.messages| == |s.messages|
            && (forall i :: 0 <= i < |s.messages| ==>
                  var m := s.messages[i];
                  s'.messages[i] == if m.id == id && m.deletedAt.None? && (m.sender == user || m.recipient == user)
                                    then m.(deletedAt := Some(now)) else m)
  {
  }

  /** Deleting takes the message from everybody, shares included, when a party to it asks while it is there, and
      does nothing at all otherwise. */
  lemma DeletionTakesExactlyOne(s: Store, id: string, user: string, now: int, other: string)
    requires Unique(s)
    ensures var s' := SoftDelete(s, id, user, now);
            && Live(s', other)
               == (Live(s, other) && !(other == id && FindById(s, id).Some? && Party(FindById(s, id).value, user)))
            && (Live(s', other) ==> FindById(s', other) == FindById(s, other))
            && s'.shares == s.shares && |s'.messages| == |s.messages|
            && (forall i :: 0 <= i < |s.messages| ==>
                  var m := s.messages[i];
                  s'.messages[i] == if m.id == id && m.deletedAt.None? && (m.sender == user || m.recipient == user)
                                    then m.(deletedAt := Some(now)) else m)
  {
    var s' := SoftDelete(s, id, user, now);
    DeletedRows(s, id, user, now);
    UpdatesKeep(s, id, user, Pending, now);
    hide SoftDelete, Mapped;
    forall m: MessageRow
      ensures m.deletedAt.None? ==> (m in s'.messages <==> m in s.messages && !MayDelete(m, id, user))
    {
      SoftDeleted(s, id, user, now, m);
    }
    FindInExactly(s.messages, id);
    FindInExactly(s.messages, other);
    FindInExactly(s'.messages, other);
    hide FindById;
    if Live(s, other) {
      OnlyOneLive(s, FindById(s, other).value);
    }
  }

  /** Withdrawing a forward takes that share from its two lists when its maker asks, and no other share from any. */
  lemma WithdrawalTakesExactlyOne(s: Store, id: string, user: string, now: int, i: nat)
    requires i < |s.shares|
    ensures var s' := SoftDeleteShare(s, id, user, now);
            && Active(s', s'.shares[i])
               == (Active(s, s.shares[i]) && !(s.shares[i].id == id && s.shares[i].sharedBy == user))
            && s'.messages == s.messages
            && s'.shares[i] == (if s.shares[i].id == id && s.shares[i].sharedBy == user && s.shares[i].revokedAt.None?
                                then s.shares[i].(revokedAt := Some(now)) else s.shares[i])
  {
  }
}
