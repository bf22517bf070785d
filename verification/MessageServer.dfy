// backend/src/services/MessageService.js and BlockchainService.js: requests in
// flight over the message tables and the contract, one await at a time.
module MessageServer {
  import opened Wrappers
  import opened Encoding
  import opened Messaging
  import opened MessageRepository
  import opened MessageDigest

  // ----- what a request decides from the tables -----

  datatype ServiceError = NotFound | Forbidden

  predicate Party(m: MessageRow, user: string)
  {
    m.sender == user || m.recipient == user
  }

  /** An active share of the message to the user: shares.some(...) over findSharedWith. */
  predicate HasShare(s: Store, messageId: string, user: string)
  {
    exists r :: r in s.shares && r.messageId == messageId && r.revokedAt.None? && r.sharedWith == user
  }

  function GetMessage(s: Store, messageId: string, user: string): Result<MessageRow, ServiceError>
  {
    match FindById(s, messageId)
    case None => Err(NotFound)
    case Some(m) => if Party(m, user) || HasShare(s, messageId, user) then Ok(m) else Err(Forbidden)
  }

  // ----- requests in flight -----

  datatype Forward = Forward(messageId: string, forwarder: string, recipient: string, env: Envelope)

  /** A forward after its first query (allowed only for a party) or after both. */
  datatype Forwarding = Forwarding(request: Forward, allowed: bool)

  /** A revocation past its check. */
  datatype Revocation = Revocation(messageId: string, sharedWith: string, caller: string)

  datatype Phase =
    | Stored                                // create returned
    | Abandoned                             // create committed but its answer was lost, or no blockchain is configured
    | Sent(tx: nat)                         // recordHash returned a transaction
    | Confirmed(tx: nat)                    // its wait() returned a receipt
    | Anchored                              // recordChainEntry returned
    | Catching(lost: bool)                  // in the catch block; lost: the entry was committed unheard
    | GivenUp(lost: bool, marked: bool)     // after markChainFailed, which may itself have failed

  datatype Sending = Sending(digest: Bytes, phase: Phase)

  datatype TxStatus = Waiting | Included | Reverted

  datatype Tx = Tx(digest: Bytes, key: Bytes, status: TxStatus)

  /** keyOf is ethers.id, the hash that makes a 32-byte key of a message id; txs are the wallet's transactions. */
  datatype Server = Server(store: Store, ledger: Ledger, txs: seq<Tx>, wallet: Address, keyOf: string -> Bytes,
                           sends: map<string, Sending>, forwards: map<nat, Forwarding>, revokes: map<nat, Revocation>)

  datatype Action =
    | Send(id: string, sender: string, recipient: string, env: Envelope, now: int, heard: bool)
    | ForwardStart(r: nat, request: Forward)                       // findById
    | ForwardShares(r: nat)                                        // findSharedWith
    | ForwardInsert(r: nat, shareId: string, now: int)             // createShare
    | RevokeStart(r: nat, messageId: string, caller: string, sharedWith: string)
    | RevokeNow(r: nat, now: int)
    | DeleteMessage(id: string, caller: string, now: int)
    | DeleteForward(id: string, caller: string, now: int)
    | Unconfigured(id: string)
    | Submit(id: string, reached: bool, heard: bool)               // contract.recordHash(...)
    | Await(id: string, heard: bool)                               // tx.wait()
    | RecordEntry(id: string, rowId: string, now: int, committed: bool, heard: bool)
    | MarkFailed(id: string, applied: bool)
    | Mine(tx: nat, blockTime: nat)                                // the network runs one of the wallet's transactions
    | OtherWrite(account: Address, blockTime: nat, digest: Bytes, key: Bytes)
    | OwnerCall(account: Address, recorder: Address, allow: bool)

  predicate InPhase(v: Server, id: string, phase: Phase)
  {
    id in v.sends && v.sends[id].phase == phase
  }

  predicate Enabled(v: Server, a: Action)
  {
    match a
    case ForwardShares(r) => r in v.forwards
    case ForwardInsert(r, _, _) => r in v.forwards && v.forwards[r].allowed
    case RevokeNow(r, _) => r in v.revokes
    case ForwardStart(r, _) => r !in v.forwards
    case RevokeStart(r, _, _, _) => r !in v.revokes
    case Unconfigured(id) => InPhase(v, id, Stored)
    case Submit(id, _, _) => InPhase(v, id, Stored)
    case Await(id, heard) =>
      id in v.sends && v.sends[id].phase.Sent? && v.sends[id].phase.tx < |v.txs|
      && (heard ==> v.txs[v.sends[id].phase.tx].status == Included)
    case RecordEntry(id, _, _, _, _) => id in v.sends && v.sends[id].phase.Confirmed?
    case MarkFailed(id, _) => id in v.sends && v.sends[id].phase.Catching?
    case Mine(tx, now) => tx < |v.txs| && v.txs[tx].status == Waiting && now > 0
    case OtherWrite(_, now, _, _) => now > 0
    case _ => true
  }

  function Become(v: Server, id: string, phase: Phase): Server
    requires id in v.sends
  {
    v.(sends := v.sends[id := v.sends[id].(phase := phase)])
  }

  function StepSend(v: Server, id: string, sender: string, recipient: string, env: Envelope, now: int,
                    heard: bool): Server
  {
    match Create(v.store, MessageRow(id, sender, recipient, env, Pending, now, None))
    case Err(_) => v
    case Ok(s) => v.(store := s, sends := v.sends[id := Sending(env.digest, if heard then Stored else Abandoned)])
  }

  function StepForwardStart(v: Server, r: nat, request: Forward): Server
  {
    match FindById(v.store, request.messageId)
    case None => v
    case Some(m) => v.(forwards := v.forwards[r := Forwarding(request, Party(m, request.forwarder))])
  }

  function StepForwardShares(v: Server, r: nat): Server
    requires r in v.forwards
  {
    var f := v.forwards[r];
    if HasShare(v.store, f.request.messageId, f.request.forwarder) then
      v.(forwards := v.forwards[r := f.(allowed := true)])
    else v.(forwards := v.forwards - {r})
  }

  function StepForwardInsert(v: Server, r: nat, shareId: string, now: int): Server
    requires r in v.forwards
  {
    var q := v.forwards[r].request;
    var v' := v.(forwards := v.forwards - {r});
    match CreateShare(v.store, ShareRow(shareId, q.messageId, q.forwarder, q.recipient, q.env, now, None))
    case Err(_) => v'
    case Ok(s) => v'.(store := s)
  }

  function StepRevokeStart(v: Server, r: nat, messageId: string, caller: string, sharedWith: string): Server
  {
    match FindById(v.store, messageId)
    case None => v
    case Some(m) =>
      if m.sender != caller then v else v.(revokes := v.revokes[r := Revocation(messageId, sharedWith, caller)])
  }

  /** reached: the transaction got to the network; heard: the service learnt so. */
  function StepSubmit(v: Server, id: string, reached: bool, heard: bool): Server
    requires id in v.sends
  {
    var v' := if reached then v.(txs := v.txs + [Tx(v.sends[id].digest, v.keyOf(id), Waiting)]) else v;
    Become(v', id, if reached && heard then Sent(|v.txs|) else Catching(false))
  }

  function StepRecordEntry(v: Server, id: string, rowId: string, now: int, committed: bool, heard: bool): Server
    requires id in v.sends && v.sends[id].phase.Confirmed?
  {
    match RecordChainEntry(v.store, ChainRow(rowId, id, v.sends[id].phase.tx, v.sends[id].digest, now))
    case Err(_) => Become(v, id, Catching(false))
    case Ok(s) =>
      if !committed then Become(v, id, Catching(false))
      else Become(v.(store := s), id, if heard then Anchored else Catching(true))
  }

  function StepMine(v: Server, tx: nat, now: nat): Server
    requires tx < |v.txs|
  {
    match RecordHash(v.ledger, v.wallet, now, v.txs[tx].digest, v.txs[tx].key)
    case Err(_) => v.(txs := v.txs[tx := v.txs[tx].(status := Reverted)])
    case Ok(l) => v.(ledger := l, txs := v.txs[tx := v.txs[tx].(status := Included)])
  }

  function Written(v: Server, r: Result<Ledger, Revert>): Server
  {
    match r case Err(_) => v case Ok(l) => v.(ledger := l)
  }

  function Step(v: Server, a: Action): Server
    requires Enabled(v, a)
  {
    match a
    case Send(id, sender, recipient, env, now, heard) => StepSend(v, id, sender, recipient, env, now, heard)
    case ForwardStart(r, request) => StepForwardStart(v, r, request)
    case ForwardShares(r) => StepForwardShares(v, r)
    case ForwardInsert(r, shareId, now) => StepForwardInsert(v, r, shareId, now)
    case RevokeStart(r, messageId, caller, sharedWith) => StepRevokeStart(v, r, messageId, caller, sharedWith)
    case RevokeNow(r, now) =>
      v.(store := RevokeShare(v.store, v.revokes[r].messageId, v.revokes[r].sharedWith, now),
         revokes := v.revokes - {r})
    case DeleteMessage(id, caller, now) => v.(store := SoftDelete(v.store, id, caller, now))
    case DeleteForward(id, caller, now) => v.(store := SoftDeleteShare(v.store, id, caller, now))
    case Unconfigured(id) => Become(v, id, Abandoned)
    case Submit(id, reached, heard) => StepSubmit(v, id, reached, heard)
    case Await(id, heard) => Become(v, id, if heard then Confirmed(v.sends[id].phase.tx) else Catching(false))
    case RecordEntry(id, rowId, now, committed, heard) => StepRecordEntry(v, id, rowId, now, committed, heard)
    case MarkFailed(id, applied) =>
      var v' := Become(v, id, GivenUp(v.sends[id].phase.lost, applied));
      if applied then v'.(store := SetStatus(v.store, id, Failed)) else v'
    case Mine(tx, now) => StepMine(v, tx, now)
    case OtherWrite(sender, now, digest, key) => Written(v, RecordHash(v.ledger, sender, now, digest, key))
    case OwnerCall(sender, account, allow) => Written(v, SetRecorder(v.ledger, sender, account, allow))
  }

  // ----- runs -----

  /** An empty database, no request under way, and the contract in any state at all. */
  ghost predicate Starts(v0: Server)
  {
    v0.store == NO_ROWS && v0.txs == [] && v0.sends == map[] && v0.forwards == map[] && v0.revokes == map[]
  }

  ghost predicate ValidRun(v0: Server, acts: seq<Action>)
    decreases |acts|, 0
  {
    acts == [] || (ValidRun(v0, acts[..|acts| - 1]) && Enabled(After(v0, acts[..|acts| - 1]), acts[|acts| - 1]))
  }

  ghost function After(v0: Server, acts: seq<Action>): Server
    requires ValidRun(v0, acts)
    decreases |acts|, 1
  {
    if acts == [] then v0 else Step(After(v0, acts[..|acts| - 1]), acts[|acts| - 1])
  }

  // ----- rows are kept, keys stay unique, in every run -----

  lemma {:induction false} StepKeepsRows(v: Server, a: Action)
    requires Enabled(v, a) && Unique(v.store)
    ensures Extends(v.store, Step(v, a).store) && Unique(Step(v, a).store)
  {
    hide Unique, Extends, Create, CreateShare, RecordChainEntry, SoftDelete, SoftDeleteShare, RevokeShare, SetStatus;
    hide HasShare, FindById, SetRecorder, RecordHash;
    ExtendsItself(v.store);
    match a {
      case Send(id, sender, recipient, env, now, _) =>
        var row := MessageRow(id, sender, recipient, env, Pending, now, None);
        if Create(v.store, row).Ok? { CreateKeeps(v.store, row); }
      case ForwardInsert(r, shareId, now) =>
        var q := v.forwards[r].request;
        var row := ShareRow(shareId, q.messageId, q.forwarder, q.recipient, q.env, now, None);
        if CreateShare(v.store, row).Ok? { CreateShareKeeps(v.store, row); }
      case RevokeNow(r, now) => UpdatesKeep(v.store, v.revokes[r].messageId, v.revokes[r].sharedWith, Pending, now);
      case DeleteMessage(id, caller, now) => UpdatesKeep(v.store, id, caller, Pending, now);
      case DeleteForward(id, caller, now) => UpdatesKeep(v.store, id, caller, Pending, now);
      case RecordEntry(id, rowId, now, _, _) =>
        var row := ChainRow(rowId, id, v.sends[id].phase.tx, v.sends[id].digest, now);
        if RecordChainEntry(v.store, row).Ok? { RecordKeeps(v.store, row); }
      case MarkFailed(id, _) => UpdatesKeep(v.store, id, "", Failed, 0);
      case _ =>
    }
  }

  lemma ExtendsItself(s: Store)
    ensures Extends(s, s)
  {
  }

  lemma {:induction false} RunKeepsUnique(v0: Server, acts: seq<Action>)
    requires Starts(v0) && ValidRun(v0, acts)
    ensures Unique(After(v0, acts).store)
  {
    if acts != [] {
      hide Unique, Step, Enabled, Starts;
      RunKeepsUnique(v0, acts[..|acts| - 1]);
      StepKeepsRows(After(v0, acts[..|acts| - 1]), acts[|acts| - 1]);
    }
  }

  /** In every run no two messages share an id, or recipient and nonce; no two shares an id, or receiver and nonce; no
      two chain entries an id or a transaction. */
  lemma RowsAreUnique(v0: Server, acts: seq<Action>)
    requires Starts(v0) && ValidRun(v0, acts)
    ensures var s := After(v0, acts).store;
            && Unique(s)
            && (forall i, j :: 0 <= i < j < |s.messages| ==>
                  && s.messages[i].id != s.messages[j].id
                  && !(s.messages[i].recipient == s.messages[j].recipient
                       && s.messages[i].env.nonce == s.messages[j].env.nonce))
            && (forall i, j :: 0 <= i < j < |s.shares| ==>
                  && s.shares[i].id != s.shares[j].id
                  && !(s.shares[i].sharedWith == s.shares[j].sharedWith
                       && s.shares[i].env.nonce == s.shares[j].env.nonce))
            && (forall i, j :: 0 <= i < j < |s.chain| ==>
                  s.chain[i].id != s.chain[j].id && s.chain[i].txHash != s.chain[j].txHash)
  {
    hide Starts;
    RunKeepsUnique(v0, acts);
  }

  /** In every run, what getMessage answers: the one undeleted message with the id, as it is stored, to its sender, its
      recipient and whoever holds an unrevoked share of it; forbidden to anybody else; not found when there is no such
      message. */
  lemma {:induction false} GetMessageExactly(v0: Server, acts: seq<Action>, id: string, user: string, m: MessageRow)
    requires Starts(v0) && ValidRun(v0, acts)
    ensures var s := After(v0, acts).store;
            var admitted := m.sender == user || m.recipient == user
                            || exists r :: r in s.shares && r.messageId == id && r.sharedWith == user
                                           && r.revokedAt.None?;
            && (GetMessage(s, id, user) == Ok(m)
                <==> m in s.messages && m.id == id && m.deletedAt.None? && admitted)
            && (m in s.messages && m.id == id && m.deletedAt.None? && !admitted ==>
                  GetMessage(s, id, user) == Err(Forbidden))
            && (GetMessage(s, id, user) == Err(NotFound)
                <==> forall x :: x in s.messages && x.id == id ==> x.deletedAt.Some?)
  {
    hide Starts;
    RunKeepsUnique(v0, acts);
    var s := After(v0, acts).store;
    FindInExactly(s.messages, id);
    if m in s.messages && m.id == id && m.deletedAt.None? && FindById(s, id).Some? {
      OneRowPerId(s, m, FindById(s, id).value);
    }
  }

  lemma OneRowPerId(s: Store, m: MessageRow, n: MessageRow)
    requires Unique(s) && m in s.messages && n in s.messages && m.id == n.id
    ensures m == n
  {
  }

  // ----- rows say what was asked for -----

  /** The message was sent: a Send of the run has its id, parties, envelope and time. */
  ghost predicate WasSent(acts: seq<Action>, m: MessageRow)
  {
    exists k :: 0 <= k < |acts| && acts[k].Send? && acts[k].id == m.id && acts[k].sender == m.sender
                && acts[k].recipient == m.recipient && acts[k].env == m.env && acts[k].now == m.createdAt
  }

  /** The forward r was asked for. */
  ghost predicate WasAsked(acts: seq<Action>, r: nat, f: Forward)
  {
    exists k :: 0 <= k < |acts| && acts[k] == ForwardStart(r, f)
  }

  /** The share was made by a forward of the run, of that message by that user to that user. */
  ghost predicate WasForwarded(acts: seq<Action>, x: ShareRow)
  {
    exists k :: 0 <= k < |acts| && acts[k].ForwardInsert? && acts[k].shareId == x.id && acts[k].now == x.createdAt
                && WasAsked(acts, acts[k].r, Forward(x.messageId, x.sharedBy, x.sharedWith, x.env))
  }

  ghost predicate Asked(acts: seq<Action>, v: Server)
  {
    && (forall i :: 0 <= i < |v.store.messages| ==> WasSent(acts, v.store.messages[i]))
    && (forall i :: 0 <= i < |v.store.shares| ==> WasForwarded(acts, v.store.shares[i]))
    && (forall r :: r in v.forwards ==> WasAsked(acts, r, v.forwards[r].request))
  }

  lemma SentLater(acts: seq<Action>, later: seq<Action>, m: MessageRow, m': MessageRow)
    requires WasSent(acts, m) && SameMessage(m, m') && acts <= later
    ensures WasSent(later, m')
  {
    var k :| 0 <= k < |acts| && acts[k].Send? && acts[k].id == m.id && acts[k].sender == m.sender
             && acts[k].recipient == m.recipient && acts[k].env == m.env && acts[k].now == m.createdAt;
    assert later[k] == acts[k];
  }

  lemma AskedLater(acts: seq<Action>, later: seq<Action>, r: nat, f: Forward)
    requires WasAsked(acts, r, f) && acts <= later
    ensures WasAsked(later, r, f)
  {
    var k :| 0 <= k < |acts| && acts[k] == ForwardStart(r, f);
    assert later[k] == acts[k];
  }

  lemma ForwardedLater(acts: seq<Action>, later: seq<Action>, x: ShareRow, x': ShareRow)
    requires WasForwarded(acts, x) && SameShare(x, x') && acts <= later
    ensures WasForwarded(later, x')
  {
    hide WasAsked;
    var f := Forward(x.messageId, x.sharedBy, x.sharedWith, x.env);
    var k :| 0 <= k < |acts| && acts[k].ForwardInsert? && acts[k].shareId == x.id && acts[k].now == x.createdAt
             && WasAsked(acts, acts[k].r, f);
    AskedLater(acts, later, acts[k].r, f);
    assert later[k] == acts[k];
  }

  /** What one step adds to the tables and to the forwards under way; other rows keep what was asked for. */
  ghost predicate Adds(v: Server, a: Action, v': Server)
  {
    var s, s' := v.store, v'.store;
    && (forall i :: |s.messages| <= i < |s'.messages| ==> WasSent([a], s'.messages[i]))
    && (forall i :: |s.shares| <= i < |s'.shares| ==>
          && a.ForwardInsert? && a.r in v.forwards && a.shareId == s'.shares[i].id && a.now == s'.shares[i].createdAt
          && v.forwards[a.r].request == Forward(s'.shares[i].messageId, s'.shares[i].sharedBy,
                                                s'.shares[i].sharedWith, s'.shares[i].env))
    && (forall r :: r in v'.forwards ==>
          || (r in v.forwards && v'.forwards[r].request == v.forwards[r].request)
          || a == ForwardStart(r, v'.forwards[r].request))
  }

  lemma {:induction false} StepAdds(v: Server, a: Action)
    requires Enabled(v, a)
    ensures Adds(v, a, Step(v, a))
  {
    hide HasShare, FindById, SetRecorder, RecordHash, MessageClash, ShareClash, ChainClash, Mapped, MayDelete;
    hide MayWithdraw, IsShareTo;
    if a.Send? {
      assert [a][0] == a;
    }
  }

  lemma {:induction false} StepAsked(acts: seq<Action>, v: Server, a: Action, v': Server)
    requires Asked(acts, v) && Extends(v.store, v'.store) && Adds(v, a, v')
    ensures Asked(acts + [a], v')
  {
    hide WasSent, WasAsked, WasForwarded;
    var later := acts + [a];
    assert later[|acts|] == a;
    forall i | 0 <= i < |v'.store.messages| ensures WasSent(later, v'.store.messages[i]) {
      if i < |v.store.messages| {
        SentLater(acts, later, v.store.messages[i], v'.store.messages[i]);
      } else {
        SentNow(acts, a, v'.store.messages[i]);
      }
    }
    forall r | r in v'.forwards ensures WasAsked(later, r, v'.forwards[r].request) {
      if a == ForwardStart(r, v'.forwards[r].request) {
        AskedNow(acts, a, r, v'.forwards[r].request);
      } else {
        AskedLater(acts, later, r, v'.forwards[r].request);
      }
    }
    forall i | 0 <= i < |v'.store.shares| ensures WasForwarded(later, v'.store.shares[i]) {
      if i < |v.store.shares| {
        ForwardedLater(acts, later, v.store.shares[i], v'.store.shares[i]);
      } else {
        var x := v'.store.shares[i];
        assert a.ForwardInsert? && a.r in v.forwards;
        AskedLater(acts, later, a.r, v.forwards[a.r].request);
        ForwardedNow(acts, a, x);
      }
    }
  }

  lemma SentNow(acts: seq<Action>, a: Action, m: MessageRow)
    requires WasSent([a], m)
    ensures WasSent(acts + [a], m)
  {
    assert (acts + [a])[|acts|] == a;
  }

  lemma AskedNow(acts: seq<Action>, a: Action, r: nat, f: Forward)
    requires a == ForwardStart(r, f)
    ensures WasAsked(acts + [a], r, f)
  {
    assert (acts + [a])[|acts|] == a;
  }

  lemma ForwardedNow(acts: seq<Action>, a: Action, x: ShareRow)
    requires a.ForwardInsert? && a.shareId == x.id && a.now == x.createdAt
    requires WasAsked(acts + [a], a.r, Forward(x.messageId, x.sharedBy, x.sharedWith, x.env))
    ensures WasForwarded(acts + [a], x)
  {
    hide WasAsked;
    assert (acts + [a])[|acts|] == a;
  }

  lemma {:induction false} RunAsked(v0: Server, acts: seq<Action>)
    requires Starts(v0) && ValidRun(v0, acts)
    ensures Asked(acts, After(v0, acts))
  {
    if acts != [] {
      hide Unique, Extends, Step, Enabled, Asked, Adds, Starts;
      var init, a := acts[..|acts| - 1], acts[|acts| - 1];
      RunAsked(v0, init);
      RunKeepsUnique(v0, init);
      StepKeepsRows(After(v0, init), a);
      StepAdds(After(v0, init), a);
      StepAsked(init, After(v0, init), a, After(v0, acts));
      assert init + [a] == acts;
    }
  }

  /** In every run each stored message is one that was sent, with its id, parties, envelope and time, and each share one
      that was forwarded, of that message by that user to that user. */
  lemma {:induction false} RowsSayWhatWasAsked(v0: Server, acts: seq<Action>)
    requires Starts(v0) && ValidRun(v0, acts)
    ensures forall i :: 0 <= i < |After(v0, acts).store.messages| ==> WasSent(acts, After(v0, acts).store.messages[i])
    ensures forall i :: 0 <= i < |After(v0, acts).store.shares| ==> WasForwarded(acts, After(v0, acts).store.shares[i])
  {
    hide WasSent, WasForwarded, Starts;
    RunAsked(v0, acts);
  }

  /** A send is stored at once, unless its id, or its nonce for that recipient, is taken; then nothing changes. */
  lemma SendIsStored(v: Server, id: string, sender: string, recipient: string, env: Envelope, now: int, heard: bool)
    ensures var s, s' := v.store, Step(v, Send(id, sender, recipient, env, now, heard)).store;
            var taken := exists m :: m in s.messages
                                     && (m.id == id || (m.recipient == recipient && m.env.nonce == env.nonce));
            && s'.messages == (if taken then s.messages
                               else s.messages + [MessageRow(id, sender, recipient, env, Pending, now, None)])
            && s'.shares == s.shares && s'.chain == s.chain
  {
  }

  /** What is asked for and allowed happens: a message a party deletes is deleted, a forward its maker withdraws is
      revoked, and a revocation the sender asks for is kept under way with its message and user, and when carried out
      leaves that user no unrevoked share. */
  lemma {:induction false} TakingTakesEffect(v: Server, r: nat, id: string, user: string, caller: string, now: int)
    ensures forall m :: m in Step(v, DeleteMessage(id, caller, now)).store.messages ==>
              m.id == id && (m.sender == caller || m.recipient == caller) ==> m.deletedAt.Some?
    ensures forall x :: x in Step(v, DeleteForward(id, caller, now)).store.shares ==>
              x.id == id && x.sharedBy == caller ==> x.revokedAt.Some?
    ensures r !in v.revokes && FindById(v.store, id).Some? && FindById(v.store, id).value.sender == caller ==>
              Step(v, RevokeStart(r, id, caller, user)).revokes == v.revokes[r := Revocation(id, user, caller)]
    ensures r in v.revokes && v.revokes[r].messageId == id && v.revokes[r].sharedWith == user ==>
              forall x :: x in Step(v, RevokeNow(r, now)).store.shares ==>
                x.messageId == id && x.sharedWith == user ==> x.revokedAt.Some?
  {
    hide FindById;
  }

  /** Run through without interruption, the two queries and the insert of a forward store the share exactly when
      getMessage admits the forwarder and neither its id nor its nonce for that receiver is taken. */
  lemma ForwardIsItsSteps(v: Server, r: nat, q: Forward, shareId: string, now: int)
    requires r !in v.forwards
    ensures var v1 := Step(v, ForwardStart(r, q));
            var v2 := if r in v1.forwards && !v1.forwards[r].allowed then Step(v1, ForwardShares(r)) else v1;
            var v3 := if r in v2.forwards then Step(v2, ForwardInsert(r, shareId, now)) else v2;
            var taken := exists x :: x in v.store.shares
                                     && (x.id == shareId
                                         || (x.sharedWith == q.recipient && x.env.nonce == q.env.nonce));
            && v3.forwards == v.forwards
            && v3.store.messages == v.store.messages && v3.store.chain == v.store.chain
            && v3.store.shares
               == if GetMessage(v.store, q.messageId, q.forwarder).Err? || taken then v.store.shares
                  else v.store.shares
                       + [ShareRow(shareId, q.messageId, q.forwarder, q.recipient, q.env, now, None)]
  {
    hide FindById;
  }

  /** From any moment of a run to any later one: no row disappears, none changes its parties, its crypto
      fields or its time, no deletion is undone or rewritten and no revocation is undone. In particular
      nothing that happens to the chain write takes a delivered message away. */
  lemma {:induction false} NothingIsUndone(v0: Server, acts: seq<Action>, n: nat)
    requires Starts(v0) && ValidRun(v0, acts) && n <= |acts|
    ensures ValidRun(v0, acts[..n]) && Extends(After(v0, acts[..n]).store, After(v0, acts).store)
  {
    hide Unique, Extends, Step, Enabled, Starts;
    if n == |acts| {
      assert acts[..n] == acts;
      ExtendsItself(After(v0, acts).store);
    } else {
      var init := acts[..|acts| - 1];
      NothingIsUndone(v0, init, n);
      assert init[..n] == acts[..n];
      RunKeepsUnique(v0, init);
      StepKeepsRows(After(v0, init), acts[|acts| - 1]);
      ExtendsTransitive(After(v0, acts[..n]).store, After(v0, init).store, After(v0, acts).store);
    }
  }
}
