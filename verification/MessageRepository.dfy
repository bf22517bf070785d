// backend/src/repositories/MessageRepository.js: the messages, message_shares and
// blockchain_records tables, and each statement as a function of the stored rows.
module MessageRepository {
  import opened Wrappers
  import opened Encoding
  import opened Messaging
  import opened Grouping

  datatype ChainStatus = Pending | Recorded | Failed

  datatype MessageRow = MessageRow(id: string, sender: string, recipient: string, env: Envelope,
                                   status: ChainStatus, createdAt: int, deletedAt: Option<int>)

  datatype ShareRow = ShareRow(id: string, messageId: string, sharedBy: string, sharedWith: string, env: Envelope,
                               createdAt: int, revokedAt: Option<int>)

  datatype ChainRow = ChainRow(id: string, messageId: string, txHash: nat, digest: Bytes, createdAt: int)

  datatype Store = Store(messages: seq<MessageRow>, shares: seq<ShareRow>, chain: seq<ChainRow>)

  datatype StoreError = Conflict | Unavailable

  const NO_ROWS := Store([], [], [])

  // ----- statements that change rows -----

  predicate MessageClash(m: MessageRow, row: MessageRow)
  {
    m.id == row.id || (m.recipient == row.recipient && m.env.nonce == row.env.nonce)
  }

  predicate ShareClash(r: ShareRow, row: ShareRow)
  {
    r.id == row.id || (r.sharedWith == row.sharedWith && r.env.nonce == row.env.nonce)
  }

  predicate ChainClash(c: ChainRow, row: ChainRow)
  {
    c.id == row.id || c.txHash == row.txHash
  }

  /** INSERT INTO messages, under the primary key and uniq_recipient_nonce. */
  function Create(s: Store, row: MessageRow): Result<Store, StoreError>
  {
    if exists m :: m in s.messages && MessageClash(m, row) then Err(Conflict)
    else Ok(s.(messages := s.messages + [row]))
  }

  /** INSERT INTO message_shares, under the primary key and uniq_sharedwith_nonce. */
  function CreateShare(s: Store, row: ShareRow): Result<Store, StoreError>
  {
    if exists r :: r in s.shares && ShareClash(r, row) then Err(Conflict)
    else Ok(s.(shares := s.shares + [row]))
  }

  function Mapped<T, U>(f: T -> U, rows: seq<T>): (r: seq<U>)
    ensures |r| == |rows| && forall i :: 0 <= i < |r| ==> r[i] == f(rows[i])
  {
    if rows == [] then [] else Mapped(f, rows[..|rows| - 1]) + [f(rows[|rows| - 1])]
  }

  predicate MayDelete(m: MessageRow, id: string, user: string)
  {
    m.id == id && (m.sender == user || m.recipient == user) && m.deletedAt.None?
  }

  function SoftDelete(s: Store, id: string, user: string, now: int): Store
  {
    s.(messages := Mapped((m: MessageRow) => if MayDelete(m, id, user) then m.(deletedAt := Some(now)) else m,
                          s.messages))
  }

  /** No test of revoked_at: revoking again writes the time again. */
  function RevokeShare(s: Store, messageId: string, sharedWith: string, now: int): Store
  {
    s.(shares := Mapped((r: ShareRow) => if IsShareTo(r, messageId, sharedWith) then r.(revokedAt := Some(now)) else r,
                        s.shares))
  }

  predicate IsShareTo(r: ShareRow, messageId: string, sharedWith: string)
  {
    r.messageId == messageId && r.sharedWith == sharedWith
  }

  predicate MayWithdraw(r: ShareRow, id: string, user: string)
  {
    r.id == id && r.sharedBy == user && r.revokedAt.None?
  }

  function SoftDeleteShare(s: Store, id: string, user: string, now: int): Store
  {
    s.(shares := Mapped((r: ShareRow) => if MayWithdraw(r, id, user) then r.(revokedAt := Some(now)) else r, s.shares))
  }

  function SetStatus(s: Store, id: string, status: ChainStatus): Store
  {
    s.(messages := Mapped((m: MessageRow) => if m.id == id then m.(status := status) else m, s.messages))
  }

  /** The transaction of recordChainEntry: the chain row and the status together, or neither. */
  function RecordChainEntry(s: Store, row: ChainRow): Result<Store, StoreError>
  {
    if exists c :: c in s.chain && ChainClash(c, row) then Err(Conflict)
    else Ok(SetStatus(s, row.messageId, Recorded).(chain := s.chain + [row]))
  }

  /** Where the transaction of recordChainEntry fails, if it does. */
  datatype EntryFate = Landed | InsertFailed | UpdateFailed | CommitFailed | AnswerLost

  /** Its effect: everything or nothing. */
  function Entry(s: Store, row: ChainRow, fate: EntryFate): Store
  {
    if fate != Landed && fate != AnswerLost then s
    else match RecordChainEntry(s, row) case Ok(s') => s' case Err(_) => s
  }

  // ----- queries -----

  function Select<T>(p: T -> bool, rows: seq<T>): seq<T>
  {
    Bucket(p, rows, true)
  }

  function FindIn(rows: seq<MessageRow>, id: string): Option<MessageRow>
  {
    if rows == [] then None
    else if rows[0].id == id && rows[0].deletedAt.None? then Some(rows[0])
    else FindIn(rows[1..], id)
  }

  /** Deleted messages are not found. */
  function FindById(s: Store, id: string): Option<MessageRow>
  {
    FindIn(s.messages, id)
  }

  predicate Live(s: Store, id: string)
  {
    exists m :: m in s.messages && m.id == id && m.deletedAt.None?
  }

  /** LIMIT lim OFFSET off. */
  function Page<T>(rows: seq<T>, limit: nat, offset: nat): seq<T>
  {
    var from := if offset <= |rows| then offset else |rows|;
    var to := if from + limit <= |rows| then from + limit else |rows|;
    rows[from..to]
  }

  function ChainRowsOf(s: Store, messageId: string): seq<ChainRow>
  {
    Bucket((c: ChainRow) => c.messageId, s.chain, messageId)
  }

  lemma {:induction false} FindInExactly(rows: seq<MessageRow>, id: string)
    ensures var found := FindIn(rows, id);
            && (found.Some? ==> found.value in rows && found.value.id == id && found.value.deletedAt.None?)
            && (found.None? ==> forall m :: m in rows ==> m.id != id || m.deletedAt.Some?)
  {
    if rows != [] {
      FindInExactly(rows[1..], id);
    }
  }

  // ----- what no statement ever does -----

  ghost predicate SameMessage(m: MessageRow, m': MessageRow)
  {
    && m' == m.(status := m'.status, deletedAt := m'.deletedAt)
    && (m.deletedAt.Some? ==> m'.deletedAt == m.deletedAt)
  }

  ghost predicate SameShare(r: ShareRow, r': ShareRow)
  {
    && r' == r.(revokedAt := r'.revokedAt)
    && (r.revokedAt.Some? ==> r'.revokedAt.Some?)
  }

  /** Rows are only added, keep their contents, and stay deleted or revoked once they are. */
  ghost predicate Extends(s: Store, s': Store)
  {
    && |s.messages| <= |s'.messages|
    && (forall i :: 0 <= i < |s.messages| ==> SameMessage(s.messages[i], s'.messages[i]))
    && |s.shares| <= |s'.shares| && (forall i :: 0 <= i < |s.shares| ==> SameShare(s.shares[i], s'.shares[i]))
    && s.chain <= s'.chain
  }

  lemma ExtendsTransitive(s: Store, t: Store, u: Store)
    requires Extends(s, t) && Extends(t, u)
    ensures Extends(s, u)
  {
    forall i | 0 <= i < |s.messages| ensures SameMessage(s.messages[i], u.messages[i]) {
      assert SameMessage(s.messages[i], t.messages[i]) && SameMessage(t.messages[i], u.messages[i]);
    }
    forall i | 0 <= i < |s.shares| ensures SameShare(s.shares[i], u.shares[i]) {
      assert SameShare(s.shares[i], t.shares[i]) && SameShare(t.shares[i], u.shares[i]);
    }
  }

  /** The uniqueness the keys of the three tables maintain. */
  ghost predicate Unique(s: Store)
  {
    && (forall i, j :: 0 <= i < j < |s.messages| ==> !MessageClash(s.messages[i], s.messages[j]))
    && (forall i, j :: 0 <= i < j < |s.shares| ==> !ShareClash(s.shares[i], s.shares[j]))
    && (forall i, j :: 0 <= i < j < |s.chain| ==> !ChainClash(s.chain[i], s.chain[j]))
  }

  lemma CreateKeeps(s: Store, row: MessageRow)
    requires Create(s, row).Ok? && Unique(s)
    ensures var s' := Create(s, row).value; Extends(s, s') && Unique(s')
  {
    var s' := Create(s, row).value;
    forall i, j | 0 <= i < j < |s'.messages| ensures !MessageClash(s'.messages[i], s'.messages[j]) {
      assert s'.messages[i] in s.messages;
    }
  }

  lemma CreateShareKeeps(s: Store, row: ShareRow)
    requires CreateShare(s, row).Ok? && Unique(s)
    ensures var s' := CreateShare(s, row).value; Extends(s, s') && Unique(s')
  {
    var s' := CreateShare(s, row).value;
    forall i, j | 0 <= i < j < |s'.shares| ensures !ShareClash(s'.shares[i], s'.shares[j]) {
      assert s'.shares[i] in s.shares;
    }
  }

  /** An update that keeps the keyed columns keeps them unique. */
  lemma UpdateKeeps(s: Store, s': Store)
    requires Unique(s) && Extends(s, s') && |s'.messages| == |s.messages| && |s'.shares| == |s.shares|
    requires s'.chain == s.chain
    ensures Unique(s')
  {
    forall i, j | 0 <= i < j < |s'.messages| ensures !MessageClash(s'.messages[i], s'.messages[j]) {
      assert SameMessage(s.messages[i], s'.messages[i]) && SameMessage(s.messages[j], s'.messages[j]);
    }
    forall i, j | 0 <= i < j < |s'.shares| ensures !ShareClash(s'.shares[i], s'.shares[j]) {
      assert SameShare(s.shares[i], s'.shares[i]) && SameShare(s.shares[j], s'.shares[j]);
    }
  }

  lemma MessageUpdatesExtend(s: Store, id: string, user: string, status: ChainStatus, now: int)
    ensures Extends(s, SoftDelete(s, id, user, now)) && |SoftDelete(s, id, user, now).messages| == |s.messages|
    ensures Extends(s, SetStatus(s, id, status)) && |SetStatus(s, id, status).messages| == |s.messages|
  {
  }

  lemma ShareUpdatesExtend(s: Store, id: string, user: string, now: int)
    ensures Extends(s, RevokeShare(s, id, user, now)) && |RevokeShare(s, id, user, now).shares| == |s.shares|
    ensures Extends(s, SoftDeleteShare(s, id, user, now)) && |SoftDeleteShare(s, id, user, now).shares| == |s.shares|
  {
  }

  lemma {:induction false} UpdatesKeep(s: Store, id: string, user: string, status: ChainStatus, now: int)
    requires Unique(s)
    ensures Extends(s, SoftDelete(s, id, user, now)) && Unique(SoftDelete(s, id, user, now))
    ensures Extends(s, RevokeShare(s, id, user, now)) && Unique(RevokeShare(s, id, user, now))
    ensures Extends(s, SoftDeleteShare(s, id, user, now)) && Unique(SoftDeleteShare(s, id, user, now))
    ensures Extends(s, SetStatus(s, id, status)) && Unique(SetStatus(s, id, status))
  {
    hide Unique, Extends, Mapped;
    MessageUpdatesExtend(s, id, user, status, now);
    ShareUpdatesExtend(s, id, user, now);
    UpdateKeeps(s, SoftDelete(s, id, user, now));
    UpdateKeeps(s, RevokeShare(s, id, user, now));
    UpdateKeeps(s, SoftDeleteShare(s, id, user, now));
    UpdateKeeps(s, SetStatus(s, id, status));
  }

  lemma RecordKeeps(s: Store, row: ChainRow)
    requires RecordChainEntry(s, row).Ok? && Unique(s)
    ensures var s' := RecordChainEntry(s, row).value; Extends(s, s') && Unique(s')
  {
    var s' := RecordChainEntry(s, row).value;
    UpdatesKeep(s, row.messageId, "", Recorded, 0);
    assert s'.messages == SetStatus(s, row.messageId, Recorded).messages;
    forall i, j | 0 <= i < j < |s'.chain| ensures !ChainClash(s'.chain[i], s'.chain[j]) {
      assert s'.chain[i] in s.chain;
    }
  }

  /** The repository over its tables. Each await of a write may fail without effect. */
  class MessageRepository {
    var messages: seq<MessageRow>
    var shares: seq<ShareRow>
    var chain: seq<ChainRow>

    constructor ()
      ensures State() == NO_ROWS
    {
      messages, shares, chain := [], [], [];
    }

    function State(): Store
      reads this
    {
      Store(messages, shares, chain)
    }

    method CreateMessage(id: string, sender: string, recipient: string, env: Envelope, now: int)
      returns (r: Result<string, StoreError>)
      modifies this
      ensures var row := MessageRow(id, sender, recipient, env, Pending, now, None);
              match Create(old(State()), row)
              case Ok(s) => r == Ok(id) && State() == s
              case Err(e) => r == Err(e) && State() == old(State())
      ensures r.Err? <==> exists m :: m in old(messages)
                                      && (m.id == id || (m.recipient == recipient && m.env.nonce == env.nonce))
    {
      var row := MessageRow(id, sender, recipient, env, Pending, now, None);
      if exists m :: m in messages && MessageClash(m, row) {
        return Err(Conflict);
      }
      messages := messages + [row];
      r := Ok(id);
    }

    method AddShare(row: ShareRow) returns (r: Result<string, StoreError>)
      modifies this
      ensures match CreateShare(old(State()), row)
              case Ok(s) => r == Ok(row.id) && State() == s
              case Err(e) => r == Err(e) && State() == old(State())
      ensures r.Err? <==> exists x :: x in old(shares)
                                      && (x.id == row.id
                                          || (x.sharedWith == row.sharedWith && x.env.nonce == row.env.nonce))
    {
      if exists x :: x in shares && ShareClash(x, row) {
        return Err(Conflict);
      }
      shares := shares + [row];
      r := Ok(row.id);
    }

    method DeleteMessage(id: string, user: string, now: int) returns (affected: nat)
      modifies this
      ensures State() == SoftDelete(old(State()), id, user, now)
      ensures affected > 0 <==> exists m :: m in old(messages) && m.id == id && m.deletedAt.None?
                                            && (m.sender == user || m.recipient == user)
    {
      affected := |Select((m: MessageRow) => MayDelete(m, id, user), messages)|;
      SelectEmpty((m: MessageRow) => MayDelete(m, id, user), messages);
      messages := Mapped((m: MessageRow) => if MayDelete(m, id, user) then m.(deletedAt := Some(now)) else m, messages);
    }

    method Revoke(messageId: string, sharedWith: string, now: int)
      modifies this
      ensures State() == RevokeShare(old(State()), messageId, sharedWith, now)
    {
      shares := RevokeShare(State(), messageId, sharedWith, now).shares;
    }

    method DeleteShare(id: string, user: string, now: int) returns (affected: nat)
      modifies this
      ensures State() == SoftDeleteShare(old(State()), id, user, now)
      ensures affected > 0 <==> exists r :: r in old(shares) && r.id == id && r.sharedBy == user && r.revokedAt.None?
    {
      affected := |Select((r: ShareRow) => MayWithdraw(r, id, user), shares)|;
      SelectEmpty((r: ShareRow) => MayWithdraw(r, id, user), shares);
      shares := SoftDeleteShare(State(), id, user, now).shares;
    }

    method MarkChainFailed(id: string)
      modifies this
      ensures State() == SetStatus(old(State()), id, Failed)
    {
      messages := SetStatus(State(), id, Failed).messages;
    }

    /** Insert, update, commit: a failure of any of them rolls back what came before, unless the commit took
        effect and only its answer was lost, which looks the same to the caller. */
    method RecordEntry(row: ChainRow, fate: EntryFate) returns (r: Result<nat, StoreError>)
      modifies this
      ensures r.Ok? <==> fate == Landed && RecordChainEntry(old(State()), row).Ok?
      ensures r.Ok? ==> r.value == row.txHash
      ensures State() == Entry(old(State()), row, fate)
    {
      var before := State();
      if fate == InsertFailed {
        return Err(Unavailable);
      }
      if exists c :: c in chain && ChainClash(c, row) {
        return Err(Conflict);
      }
      chain := chain + [row];
      if fate != UpdateFailed {
        messages := SetStatus(before, row.messageId, Recorded).messages;
        match fate {
          case Landed => return Ok(row.txHash);
          case AnswerLost => return Err(Unavailable);
          case _ =>
        }
      }
      messages, chain := before.messages, before.chain;
      r := Err(Unavailable);
    }
  }

  lemma SelectMembers<T>(p: T -> bool, rows: seq<T>, x: T)
    ensures x in Select(p, rows) <==> x in rows && p(x)
  {
    BucketMembers(p, rows, true, x);
  }

  lemma SelectEmpty<T(!new)>(p: T -> bool, rows: seq<T>)
    ensures |Select(p, rows)| > 0 <==> exists x :: x in rows && p(x)
  {
    forall x ensures x in Select(p, rows) <==> x in rows && p(x) {
      SelectMembers(p, rows, x);
    }
    if |Select(p, rows)| > 0 {
      var x := Select(p, rows)[0];
      assert x in Select(p, rows);
    }
  }
}
