// contracts/src/MessageDigest.sol: the contract's storage, its guarded functions
// and the records nobody can overwrite.
module MessageDigest {
  import opened Wrappers
  import opened Encoding

  type Address = nat

  datatype Record = Record(digest: Bytes, timestamp: nat, recorder: Address)

  datatype Revert = NotOwner | NotRecorder | AlreadyRecorded(messageId: Bytes)

  datatype LogEvent =
    | HashRecorded(digest: Bytes, timestamp: nat, recorder: Address)
    | RecorderUpdated(account: Address, allowed: bool)

  /** A mapping holds the zero value wherever nothing was written. */
  datatype Ledger = Ledger(owner: Address, recorders: set<Address>, records: map<Bytes, Record>, events: seq<LogEvent>)

  function ZeroRecord(): Record
  {
    Record(seq(32, _ => 0), 0, 0)
  }

  function Deploy(sender: Address): Ledger
  {
    Ledger(sender, {sender}, map[], [])
  }

  function SetRecorder(l: Ledger, sender: Address, account: Address, allowed: bool): Result<Ledger, Revert>
  {
    if sender != l.owner then Err(NotOwner)
    else Ok(l.(recorders := if allowed then l.recorders + {account} else l.recorders - {account},
               events := l.events + [RecorderUpdated(account, allowed)]))
  }

  function GetRecord(l: Ledger, messageId: Bytes): Record
  {
    if messageId in l.records then l.records[messageId] else ZeroRecord()
  }

  function RecordHash(l: Ledger, sender: Address, now: nat, digest: Bytes, messageId: Bytes): Result<Ledger, Revert>
  {
    if sender !in l.recorders then Err(NotRecorder)
    else if GetRecord(l, messageId).timestamp != 0 then Err(AlreadyRecorded(messageId))
    else Ok(l.(records := l.records[messageId := Record(digest, now, sender)],
               events := l.events + [HashRecorded(digest, now, sender)]))
  }

  /** Whatever anybody calls, at any positive block time: a record once made reads the same ever after,
      and only an account the owner has allowed can have made it. */
  ghost predicate Keeps(l: Ledger, l': Ledger)
  {
    && l'.owner == l.owner
    && l.events <= l'.events
    && (forall k :: GetRecord(l, k).timestamp != 0 ==> GetRecord(l', k) == GetRecord(l, k))
  }

  lemma CallsKeep(l: Ledger, sender: Address, now: nat, a: Bytes, k: Bytes, account: Address, allowed: bool)
    ensures SetRecorder(l, sender, account, allowed).Ok? ==>
              var l' := SetRecorder(l, sender, account, allowed).value;
              && Keeps(l, l') && sender == l.owner && l'.records == l.records
              && (account in l'.recorders <==> allowed)
              && (forall x :: x != account ==> (x in l'.recorders <==> x in l.recorders))
              && l'.events == l.events + [RecorderUpdated(account, allowed)]
    ensures SetRecorder(l, sender, account, allowed).Err? ==> sender != l.owner
    ensures RecordHash(l, sender, now, a, k).Ok? ==>
              var l' := RecordHash(l, sender, now, a, k).value;
              && Keeps(l, l') && sender in l.recorders && GetRecord(l', k) == Record(a, now, sender)
              && (forall x :: x != k ==> GetRecord(l', x) == GetRecord(l, x)) && l'.recorders == l.recorders
              && l'.events == l.events + [HashRecorded(a, now, sender)]
  {
  }

  datatype Call =
    | SetCall(sender: Address, account: Address, allowed: bool)
    | RecordCall(sender: Address, now: nat, digest: Bytes, messageId: Bytes)

  /** A reverted call leaves no trace. */
  function Called(l: Ledger, c: Call): Ledger
  {
    match c
    case SetCall(sender, account, allowed) =>
      (match SetRecorder(l, sender, account, allowed) case Ok(l') => l' case Err(_) => l)
    case RecordCall(sender, now, digest, messageId) =>
      (match RecordHash(l, sender, now, digest, messageId) case Ok(l') => l' case Err(_) => l)
  }

  function AfterCalls(l: Ledger, calls: seq<Call>): Ledger
  {
    if calls == [] then l else Called(AfterCalls(l, calls[..|calls| - 1]), calls[|calls| - 1])
  }

  lemma KeepsTransitive(l: Ledger, m: Ledger, n: Ledger)
    requires Keeps(l, m) && Keeps(m, n)
    ensures Keeps(l, n)
  {
    hide GetRecord;
    forall k | GetRecord(l, k).timestamp != 0 ensures GetRecord(n, k) == GetRecord(l, k) {
      assert GetRecord(m, k) == GetRecord(l, k);
    }
  }

  lemma CallKeeps(l: Ledger, c: Call)
    ensures Keeps(l, Called(l, c))
  {
    match c {
      case SetCall(sender, account, allowed) => CallsKeep(l, sender, 0, [], [], account, allowed);
      case RecordCall(sender, now, digest, messageId) => CallsKeep(l, sender, now, digest, messageId, 0, true);
    }
  }

  lemma {:induction false} RunKeeps(l: Ledger, calls: seq<Call>)
    ensures Keeps(l, AfterCalls(l, calls))
  {
    if calls != [] {
      hide Called, Keeps;
      RunKeeps(l, calls[..|calls| - 1]);
      CallKeeps(AfterCalls(l, calls[..|calls| - 1]), calls[|calls| - 1]);
      KeepsTransitive(l, AfterCalls(l, calls[..|calls| - 1]), AfterCalls(l, calls));
    }
  }

  predicate Names(c: Call, owner: Address, account: Address)
  {
    c.SetCall? && c.sender == owner && c.account == account
  }

  /** What the owner's last call naming the account said. */
  function LastWord(calls: seq<Call>, owner: Address, account: Address): (r: Option<bool>)
    ensures r.None? ==> forall c :: c in calls ==> !Names(c, owner, account)
    ensures r.Some? ==> exists k :: 0 <= k < |calls| && calls[k] == SetCall(owner, account, r.value)
                                    && forall j :: k < j < |calls| ==> !Names(calls[j], owner, account)
  {
    if calls == [] then None
    else if Names(calls[|calls| - 1], owner, account) then Some(calls[|calls| - 1].allowed)
    else LastWord(calls[..|calls| - 1], owner, account)
  }

  /** After any calls by anybody, the owner is the deployer, and an account is a recorder exactly when the owner's last
      call naming it allowed it, or there was none and it is the deployer; anybody else's record call is refused. */
  lemma {:induction false} RecordersAreTheAllowed(deployer: Address, calls: seq<Call>, account: Address, now: nat,
                                                  a: Bytes, k: Bytes)
    ensures var l := AfterCalls(Deploy(deployer), calls);
            var allowed := match LastWord(calls, deployer, account) case Some(b) => b case None => account == deployer;
            && l.owner == deployer && (account in l.recorders <==> allowed)
            && (RecordHash(l, account, now, a, k) == Err(NotRecorder) <==> !allowed)
  {
    if calls != [] {
      RecordersAreTheAllowed(deployer, calls[..|calls| - 1], account, now, a, k);
      hide GetRecord;
    }
  }

  /** Once a message id is recorded, then after any calls whatever by anybody its record reads the same, and a second
      anchoring of it reverts, whoever submits it and whatever the digest. */
  lemma {:induction false} RecordsOnce(l: Ledger, l1: Ledger, s1: Address, t1: nat, a: Bytes, k: Bytes,
                                       calls: seq<Call>, s2: Address, t2: nat, b: Bytes)
    requires RecordHash(l, s1, t1, a, k) == Ok(l1) && t1 > 0
    ensures var now := AfterCalls(l1, calls);
            && GetRecord(now, k) == Record(a, t1, s1)
            && RecordHash(now, s2, t2, b, k) == Err(if s2 in now.recorders then AlreadyRecorded(k) else NotRecorder)
  {
    RunKeeps(l1, calls);
    hide AfterCalls;
    assert GetRecord(l1, k) == Record(a, t1, s1);
  }

  class MessageDigest {
    const owner: Address
    var recorders: set<Address>
    var records: map<Bytes, Record>
    var events: seq<LogEvent>

    constructor (sender: Address)
      ensures State() == Deploy(sender)
    {
      owner, recorders, records, events := sender, {sender}, map[], [];
    }

    function State(): Ledger
      reads this
    {
      Ledger(owner, recorders, records, events)
    }

    method Allow(sender: Address, account: Address, allowed: bool) returns (r: Result<bool, Revert>)
      modifies this
      ensures match SetRecorder(old(State()), sender, account, allowed)
              case Ok(l) => r == Ok(true) && State() == l
              case Err(e) => r == Err(e) && State() == old(State())
      ensures Keeps(old(State()), State()) && (r.Ok? <==> sender == owner)
      ensures r.Ok? ==> (account in recorders <==> allowed)
      ensures forall x :: x != account || r.Err? ==> (x in recorders <==> x in old(recorders))
    {
      if sender != owner {
        return Err(NotOwner);
      }
      recorders := if allowed then recorders + {account} else recorders - {account};
      events := events + [RecorderUpdated(account, allowed)];
      r := Ok(true);
    }

    method Write(sender: Address, now: nat, digest: Bytes, messageId: Bytes) returns (r: Result<bool, Revert>)
      modifies this
      ensures match RecordHash(old(State()), sender, now, digest, messageId)
              case Ok(l) => r == Ok(true) && State() == l
              case Err(e) => r == Err(e) && State() == old(State())
      ensures Keeps(old(State()), State())
    {
      if sender !in recorders {
        return Err(NotRecorder);
      }
      if messageId in records && records[messageId].timestamp != 0 {
        return Err(AlreadyRecorded(messageId));
      }
      records := records[messageId := Record(digest, now, sender)];
      events := events + [HashRecorded(digest, now, sender)];
      r := Ok(true);
    }
  }
}
