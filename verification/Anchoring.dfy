// chain_status, blockchain_records and the contract, kept in step by
// BlockchainService.js with a failure possible at every await.
module Anchoring {
  import opened Wrappers
  import opened Encoding
  import opened MessageRepository
  import opened MessageDigest
  import opened MessageServer
  import Messaging
  import Grouping

  /** The contract holds this digest for this message id, for good. */
  ghost predicate Attested(v: Server, id: string, digest: Bytes)
  {
    GetRecord(v.ledger, v.keyOf(id)).digest == digest && GetRecord(v.ledger, v.keyOf(id)).timestamp != 0
  }

  /** The entry was committed: heard of, or not. */
  predicate Entered(phase: Phase)
  {
    match phase
    case Anchored => true
    case Catching(lost) => lost
    case GivenUp(lost, _) => lost
    case _ => false
  }

  /** markChainFailed overwrote the status of an entry whose commit answer was lost. */
  predicate MarkedOver(phase: Phase)
  {
    phase == GivenUp(true, true)
  }

  function StatusOf(phase: Phase): ChainStatus
  {
    match phase
    case GivenUp(lost, marked) => if marked then Failed else if lost then Recorded else Pending
    case _ => if Entered(phase) then Recorded else Pending
  }

  ghost predicate TxOk(v: Server, i: nat)
  {
    i < |v.txs| && v.txs[i].status == Included ==>
      GetRecord(v.ledger, v.txs[i].key).digest == v.txs[i].digest && GetRecord(v.ledger, v.txs[i].key).timestamp != 0
  }

  /** What the chain rows of one message are, by the phase of its send. */
  ghost predicate SendOk(v: Server, id: string)
  {
    if id !in v.sends then ChainRowsOf(v.store, id) == []
    else
      var digest, phase := v.sends[id].digest, v.sends[id].phase;
      && |ChainRowsOf(v.store, id)| == (if Entered(phase) then 1 else 0)
      && (Entered(phase) ==> ChainRowsOf(v.store, id)[0].digest == digest && Attested(v, id, digest))
      && (phase.Sent? || phase.Confirmed? ==>
            phase.tx < |v.txs| && v.txs[phase.tx].digest == digest && v.txs[phase.tx].key == v.keyOf(id))
      && (phase.Confirmed? ==> v.txs[phase.tx].status == Included)
  }

  ghost predicate MessageOk(v: Server, i: nat)
  {
    i < |v.store.messages| ==>
      var m := v.store.messages[i];
      m.id in v.sends && m.env.digest == v.sends[m.id].digest && m.status == StatusOf(v.sends[m.id].phase)
  }

  ghost predicate Inv(v: Server)
  {
    && (forall i: nat :: TxOk(v, i))
    && (forall id :: SendOk(v, id))
    && (forall i: nat :: MessageOk(v, i))
    && (forall id :: id in v.sends ==> exists m :: m in v.store.messages && m.id == id)
  }

  // ----- each kind of step -----

  /** Only the ledger and the transactions change, and the ledger only as contracts change. */
  lemma LedgerStepKeeps(v: Server, v': Server)
    requires Inv(v) && Keeps(v.ledger, v'.ledger)
    requires v' == v.(ledger := v'.ledger, txs := v'.txs)
    requires |v.txs| <= |v'.txs|
    requires forall i :: 0 <= i < |v.txs| ==>
               v'.txs[i].digest == v.txs[i].digest && v'.txs[i].key == v.txs[i].key
               && (v.txs[i].status == Included ==> v'.txs[i].status == Included)
    requires forall i :: 0 <= i < |v'.txs| && v'.txs[i].status == Included ==>
               (i < |v.txs| && v.txs[i].status == Included) || TxOk(v', i)
    ensures Inv(v')
  {
    hide GetRecord;
    forall i: nat ensures TxOk(v', i) {
      assert TxOk(v, i);
    }
    forall id ensures SendOk(v', id) {
      assert SendOk(v, id);
    }
    forall i: nat ensures MessageOk(v', i) {
      assert MessageOk(v, i);
    }
  }

  lemma MineKeeps(v: Server, tx: nat, blockTime: nat)
    requires Inv(v) && Enabled(v, Mine(tx, blockTime))
    ensures Inv(StepMine(v, tx, blockTime))
  {
    var t := v.txs[tx];
    CallsKeep(v.ledger, v.wallet, blockTime, t.digest, t.key, 0, true);
    LedgerItself(v.ledger);
    hide RecordHash, GetRecord, Inv;
    LedgerStepKeeps(v, StepMine(v, tx, blockTime));
  }

  lemma LedgerItself(l: Ledger)
    ensures Keeps(l, l)
  {
  }

  lemma WrittenKeeps(v: Server, r: Result<Ledger, Revert>)
    requires Inv(v) && (r.Ok? ==> Keeps(v.ledger, r.value))
    ensures Inv(Written(v, r))
  {
    LedgerItself(v.ledger);
    hide GetRecord, Inv;
    LedgerStepKeeps(v, Written(v, r));
  }

  /** One send moves on without touching the tables, its status or its rows. */
  lemma PhaseKeeps(v: Server, v': Server, id: string)
    requires Inv(v) && id in v.sends && id in v'.sends
    requires v' == v.(txs := v'.txs, sends := v.sends[id := v.sends[id].(phase := v'.sends[id].phase)])
    requires v.txs <= v'.txs && forall i :: |v.txs| <= i < |v'.txs| ==> v'.txs[i].status == Waiting
    requires StatusOf(v'.sends[id].phase) == StatusOf(v.sends[id].phase)
    requires SendOk(v', id)
    ensures Inv(v')
  {
    hide GetRecord, StatusOf, ChainRowsOf, Entered;
    forall i: nat ensures TxOk(v', i) {
      assert TxOk(v, i);
    }
    forall other ensures SendOk(v', other) {
      assert SendOk(v, other);
    }
    forall i: nat ensures MessageOk(v', i) {
      assert MessageOk(v, i);
    }
  }

  lemma SubmitKeeps(v: Server, id: string, reached: bool, heard: bool)
    requires Inv(v) && Enabled(v, Submit(id, reached, heard))
    ensures Inv(StepSubmit(v, id, reached, heard))
  {
    hide GetRecord, ChainRowsOf;
    assert SendOk(v, id);
    hide Inv;
    PhaseKeeps(v, StepSubmit(v, id, reached, heard), id);
  }

  /** Rows change, but not their ids, digests and statuses, nor the chain rows. */
  lemma TableStepKeeps(v: Server, v': Server)
    requires Inv(v) && Extends(v.store, v'.store)
    requires v'.txs == v.txs && v'.sends == v.sends && v'.ledger == v.ledger && v'.keyOf == v.keyOf
    requires v'.store.chain == v.store.chain && |v'.store.messages| == |v.store.messages|
    requires forall i :: 0 <= i < |v.store.messages| ==> v'.store.messages[i].status == v.store.messages[i].status
    ensures Inv(v')
  {
    hide GetRecord, StatusOf, Entered;
    forall i: nat ensures TxOk(v', i) {
      assert TxOk(v, i);
    }
    forall id ensures SendOk(v', id) {
      assert SendOk(v, id);
    }
    forall i: nat ensures MessageOk(v', i) {
      assert MessageOk(v, i);
      assert i < |v.store.messages| ==> SameMessage(v.store.messages[i], v'.store.messages[i]);
    }
    forall id | id in v'.sends ensures exists m :: m in v'.store.messages && m.id == id {
      var m :| m in v.store.messages && m.id == id;
      var i :| 0 <= i < |v.store.messages| && v.store.messages[i] == m;
      assert SameMessage(v.store.messages[i], v'.store.messages[i]);
      assert v'.store.messages[i] in v'.store.messages;
    }
  }

  lemma SendKeeps(v: Server, v': Server, row: MessageRow, phase: Phase)
    requires Inv(v) && Create(v.store, row).Ok? && row.status == Pending && (phase == Stored || phase == Abandoned)
    requires v' == v.(store := Create(v.store, row).value, sends := v.sends[row.id := Sending(row.env.digest, phase)])
    ensures Inv(v')
  {
    hide GetRecord, ChainRowsOf;
    assert row.id !in v.sends;
    assert v'.store.chain == v.store.chain;
    forall i: nat ensures TxOk(v', i) {
      assert TxOk(v, i);
    }
    forall id ensures SendOk(v', id) {
      assert SendOk(v, id);
      SameChainRows(v.store, v'.store, id);
    }
    forall i: nat ensures MessageOk(v', i) {
      assert MessageOk(v, i);
    }
    assert row in v'.store.messages;
  }

  lemma SameChainRows(s: Store, s': Store, id: string)
    requires s'.chain == s.chain
    ensures ChainRowsOf(s', id) == ChainRowsOf(s, id)
  {
  }

  lemma NewChainRow(s: Store, s': Store, row: ChainRow, id: string)
    requires s'.chain == s.chain + [row]
    ensures ChainRowsOf(s', id) == if row.messageId == id then ChainRowsOf(s, id) + [row] else ChainRowsOf(s, id)
  {
    assert s'.chain[..|s'.chain| - 1] == s.chain;
  }

  lemma StatusSet(s: Store, id: string, status: ChainStatus, i: nat)
    ensures var s' := SetStatus(s, id, status);
            && s'.chain == s.chain && |s'.messages| == |s.messages|
            && (i < |s.messages| ==>
                  s'.messages[i] == if s.messages[i].id == id then s.messages[i].(status := status) else s.messages[i])
  {
  }

  /** The status of one message and the phase of its send move together. */
  lemma StatusKeeps(v: Server, v': Server, id: string, status: ChainStatus)
    requires Inv(v) && id in v.sends && id in v'.sends
    requires v'.store.messages == SetStatus(v.store, id, status).messages
    requires v' == v.(store := v'.store, sends := v.sends[id := v.sends[id].(phase := v'.sends[id].phase)])
    requires StatusOf(v'.sends[id].phase) == status
    requires forall other :: SendOk(v', other)
    ensures Inv(v')
  {
    hide GetRecord, ChainRowsOf, StatusOf, SetStatus, SendOk;
    forall i: nat ensures TxOk(v', i) {
      assert TxOk(v, i);
    }
    forall i: nat ensures MessageOk(v', i) {
      assert MessageOk(v, i);
      StatusSet(v.store, id, status, i);
    }
    forall x | x in v'.sends ensures exists m :: m in v'.store.messages && m.id == x {
      var m :| m in v.store.messages && m.id == x;
      var i: nat :| i < |v.store.messages| && v.store.messages[i] == m;
      StatusSet(v.store, id, status, i);
      assert v'.store.messages[i] in v'.store.messages;
    }
  }

  lemma EntrySendOk(v: Server, v': Server, id: string, row: ChainRow, other: string)
    requires Inv(v) && id in v.sends && id in v'.sends && v.sends[id].phase.Confirmed?
    requires row.messageId == id && row.digest == v.sends[id].digest
    requires v'.store.chain == v.store.chain + [row]
    requires v' == v.(store := v'.store, sends := v.sends[id := v.sends[id].(phase := v'.sends[id].phase)])
    requires v'.sends[id].phase == Anchored || v'.sends[id].phase == Catching(true)
    ensures SendOk(v', other)
  {
    hide GetRecord, ChainRowsOf;
    assert SendOk(v, other) && SendOk(v, id) && TxOk(v, v.sends[id].phase.tx);
    NewChainRow(v.store, v'.store, row, other);
  }

  lemma EnteredKeeps(v: Server, v': Server, id: string, row: ChainRow)
    requires Inv(v) && id in v.sends && id in v'.sends && v.sends[id].phase.Confirmed?
    requires row.messageId == id && row.digest == v.sends[id].digest
    requires v'.store.messages == SetStatus(v.store, id, Recorded).messages && v'.store.chain == v.store.chain + [row]
    requires v' == v.(store := v'.store, sends := v.sends[id := v.sends[id].(phase := v'.sends[id].phase)])
    requires v'.sends[id].phase == Anchored || v'.sends[id].phase == Catching(true)
    ensures Inv(v')
  {
    hide Inv, SetStatus, SendOk;
    forall other ensures SendOk(v', other) {
      EntrySendOk(v, v', id, row, other);
    }
    StatusKeeps(v, v', id, Recorded);
  }

  lemma RecordEntryKeeps(v: Server, id: string, rowId: string, now: int, committed: bool, heard: bool)
    requires Inv(v) && Enabled(v, RecordEntry(id, rowId, now, committed, heard))
    ensures Inv(StepRecordEntry(v, id, rowId, now, committed, heard))
  {
    hide GetRecord, ChainRowsOf, SetStatus;
    var row := ChainRow(rowId, id, v.sends[id].phase.tx, v.sends[id].digest, now);
    var v' := StepRecordEntry(v, id, rowId, now, committed, heard);
    assert SendOk(v, id);
    hide Inv;
    if RecordChainEntry(v.store, row).Ok? && committed {
      EnteredKeeps(v, v', id, row);
    } else {
      PhaseKeeps(v, v', id);
    }
  }

  lemma MarkFailedKeeps(v: Server, id: string, applied: bool)
    requires Inv(v) && Enabled(v, MarkFailed(id, applied))
    ensures Inv(Step(v, MarkFailed(id, applied)))
  {
    hide GetRecord, ChainRowsOf, SetStatus;
    var v' := Step(v, MarkFailed(id, applied));
    if applied {
      StatusSet(v.store, id, Failed, 0);
      forall other ensures SendOk(v', other) {
        assert SendOk(v, other);
        SameChainRows(v.store, v'.store, other);
      }
      hide Inv, SendOk;
      StatusKeeps(v, v', id, Failed);
    } else {
      assert SendOk(v, id);
      hide Inv;
      PhaseKeeps(v, v', id);
    }
  }

  /** Awaiting the receipt, or finding that no blockchain is configured. */
  lemma WaitKeeps(v: Server, a: Action)
    requires Inv(v) && Enabled(v, a) && (a.Await? || a.Unconfigured?)
    ensures Inv(Step(v, a))
  {
    hide GetRecord, ChainRowsOf;
    assert SendOk(v, a.id);
    hide Inv;
    PhaseKeeps(v, Step(v, a), a.id);
  }

  lemma TableUpdates(s: Store, id: string, user: string, now: int)
    requires Unique(s)
    ensures forall s' ::
              s' in {SoftDelete(s, id, user, now), RevokeShare(s, id, user, now),
                     SoftDeleteShare(s, id, user, now)} ==>
              && Extends(s, s') && s'.chain == s.chain && |s'.messages| == |s.messages|
              && forall i :: 0 <= i < |s.messages| ==> s'.messages[i].status == s.messages[i].status
  {
    hide Unique;
    UpdatesKeep(s, id, user, Pending, now);
  }

  lemma StepKeepsInv(v: Server, a: Action)
    requires Inv(v) && Enabled(v, a) && Unique(v.store)
    ensures Inv(Step(v, a))
  {
    hide Inv, Unique, Extends, Create, CreateShare, RecordChainEntry, SoftDelete, SoftDeleteShare, RevokeShare,
        SetStatus;
    hide HasShare, FindById, SetRecorder, RecordHash, Keeps, StepMine, StepSubmit, StepRecordEntry, Written;
    ExtendsItself(v.store);
    match a {
      case Send(id, sender, recipient, env, now, heard) =>
        var row := MessageRow(id, sender, recipient, env, Pending, now, None);
        if Create(v.store, row).Ok? {
          SendKeeps(v, Step(v, a), row, if heard then Stored else Abandoned);
        }
      case ForwardStart(_, _) => TableStepKeeps(v, Step(v, a));
      case ForwardShares(_) => TableStepKeeps(v, Step(v, a));
      case RevokeStart(_, _, _, _) => TableStepKeeps(v, Step(v, a));
      case ForwardInsert(r, shareId, now) => ForwardInsertKeeps(v, r, shareId, now);
      case RevokeNow(r, now) =>
        TableUpdates(v.store, v.revokes[r].messageId, v.revokes[r].sharedWith, now);
        TableStepKeeps(v, Step(v, a));
      case DeleteMessage(id, caller, now) => TableUpdates(v.store, id, caller, now); TableStepKeeps(v, Step(v, a));
      case DeleteForward(id, caller, now) => TableUpdates(v.store, id, caller, now); TableStepKeeps(v, Step(v, a));
      case Unconfigured(_) => WaitKeeps(v, a);
      case Await(_, _) => WaitKeeps(v, a);
      case Submit(id, reached, heard) => SubmitKeeps(v, id, reached, heard);
      case RecordEntry(id, rowId, now, committed, heard) => RecordEntryKeeps(v, id, rowId, now, committed, heard);
      case MarkFailed(id, applied) => MarkFailedKeeps(v, id, applied);
      case Mine(tx, blockTime) => MineKeeps(v, tx, blockTime);
      case OtherWrite(account, blockTime, digest, key) =>
        CallsKeep(v.ledger, account, blockTime, digest, key, 0, true);
        WrittenKeeps(v, RecordHash(v.ledger, account, blockTime, digest, key));
      case OwnerCall(account, recorder, allow) =>
        CallsKeep(v.ledger, account, 0, [], [], recorder, allow);
        WrittenKeeps(v, SetRecorder(v.ledger, account, recorder, allow));
    }
  }

  lemma ForwardInsertKeeps(v: Server, r: nat, shareId: string, now: int)
    requires Inv(v) && Enabled(v, ForwardInsert(r, shareId, now)) && Unique(v.store)
    ensures Inv(StepForwardInsert(v, r, shareId, now))
  {
    hide Inv, Unique;
    var q := v.forwards[r].request;
    var row := ShareRow(shareId, q.messageId, q.forwarder, q.recipient, q.env, now, None);
    ExtendsItself(v.store);
    if CreateShare(v.store, row).Ok? {
      CreateShareKeeps(v.store, row);
    }
    TableStepKeeps(v, StepForwardInsert(v, r, shareId, now));
  }

  lemma {:induction false} RunKeepsInv(v0: Server, acts: seq<Action>)
    requires Starts(v0) && ValidRun(v0, acts)
    ensures Inv(After(v0, acts))
  {
    if acts != [] {
      hide Inv, Step, Enabled, Unique, Starts;
      RunKeepsInv(v0, acts[..|acts| - 1]);
      RunKeepsUnique(v0, acts[..|acts| - 1]);
      StepKeepsInv(After(v0, acts[..|acts| - 1]), acts[|acts| - 1]);
    }
  }

  // ----- the results -----

  /** A message says `recorded` only with exactly one chain row, and then the row's digest, the message's and
      the one the contract holds under the message's key are the same. */
  lemma {:induction false} RecordedMeansAttested(v0: Server, acts: seq<Action>, i: nat)
    requires Starts(v0) && ValidRun(v0, acts) && i < |After(v0, acts).store.messages|
    ensures var v := After(v0, acts);
            var m := v.store.messages[i];
            m.status == Recorded ==>
              && |ChainRowsOf(v.store, m.id)| == 1
              && ChainRowsOf(v.store, m.id)[0].digest == m.env.digest
              && Attested(v, m.id, m.env.digest)
  {
    hide Starts;
    RunKeepsInv(v0, acts);
    var v := After(v0, acts);
    assert MessageOk(v, i) && SendOk(v, v.store.messages[i].id);
  }

  // What a run says about the one way out of step.

  /** The action commits the chain entry of this message and the service does not hear of it. */
  predicate EntryUnheard(v: Server, a: Action, id: string)
    requires Enabled(v, a)
  {
    && a.RecordEntry? && a.id == id && a.committed && !a.heard
    && RecordChainEntry(v.store, ChainRow(a.rowId, id, v.sends[id].phase.tx, v.sends[id].digest, a.now)).Ok?
  }

  /** Some committed entry of this message was not heard of. */
  ghost predicate Lost(v0: Server, acts: seq<Action>, id: string)
    requires ValidRun(v0, acts)
  {
    acts != [] &&
    (var init, a := acts[..|acts| - 1], acts[|acts| - 1];
     || Lost(v0, init, id)
     || EntryUnheard(After(v0, init), a, id))
  }

  /** And markChainFailed was applied after it. */
  ghost predicate LostThenMarked(v0: Server, acts: seq<Action>, id: string)
    requires ValidRun(v0, acts)
  {
    acts != [] &&
    (var init, a := acts[..|acts| - 1], acts[|acts| - 1];
     LostThenMarked(v0, init, id) || (a == MarkFailed(id, true) && Lost(v0, init, id)))
  }

  predicate LostPhase(phase: Phase)
  {
    phase == Catching(true) || (phase.GivenUp? && phase.lost)
  }

  /** The phase of a send keeps account of both. */
  ghost predicate PhaseTells(v: Server, id: string, lost: bool, marked: bool)
  {
    && (lost <==> id in v.sends && LostPhase(v.sends[id].phase))
    && (marked <==> id in v.sends && MarkedOver(v.sends[id].phase))
  }

  /** Only the six actions of a send move a phase. */
  lemma SendsStay(v: Server, a: Action)
    requires Enabled(v, a)
    requires !a.Send? && !a.Unconfigured? && !a.Submit? && !a.Await? && !a.RecordEntry? && !a.MarkFailed?
    ensures Step(v, a).sends == v.sends
  {
    hide RevokeShare, SoftDelete, SoftDeleteShare, SetRecorder, RecordHash, FindById, HasShare, CreateShare;
  }

  lemma NewSend(v: Server, a: Action)
    requires Inv(v) && a.Send?
    ensures var v' := Step(v, a);
            || v'.sends == v.sends
            || (a.id !in v.sends
                && v'.sends == v.sends[a.id := Sending(a.env.digest, if a.heard then Stored else Abandoned)])
  {
    hide SendOk, MessageOk, TxOk;
    if Create(v.store, MessageRow(a.id, a.sender, a.recipient, a.env, Pending, a.now, None)).Ok? {
      assert a.id !in v.sends;
    }
  }

  lemma StepTells(v: Server, a: Action, id: string, lost: bool, marked: bool)
    requires Inv(v) && Enabled(v, a) && PhaseTells(v, id, lost, marked)
    ensures PhaseTells(Step(v, a), id, lost || EntryUnheard(v, a, id),
                       marked || (a == MarkFailed(id, true) && lost))
  {
    hide Inv, RecordChainEntry, SetStatus, Create;
    if a.Send? {
      NewSend(v, a);
    } else if !a.Unconfigured? && !a.Submit? && !a.Await? && !a.RecordEntry? && !a.MarkFailed? {
      SendsStay(v, a);
    }
  }

  lemma {:induction false} RunTells(v0: Server, acts: seq<Action>, id: string)
    requires Starts(v0) && ValidRun(v0, acts)
    ensures PhaseTells(After(v0, acts), id, Lost(v0, acts, id), LostThenMarked(v0, acts, id))
  {
    if acts != [] {
      hide PhaseTells, Step, Enabled, Starts, Inv;
      RunTells(v0, acts[..|acts| - 1], id);
      RunKeepsInv(v0, acts[..|acts| - 1]);
      StepTells(After(v0, acts[..|acts| - 1]), acts[|acts| - 1], id, Lost(v0, acts[..|acts| - 1], id),
                LostThenMarked(v0, acts[..|acts| - 1], id));
    }
  }

  /** Having exactly one chain row and being `recorded` are the same thing exactly unless, earlier in the run, the entry
      was committed without the service hearing of it and markChainFailed was then applied. There is never a second
      row, and a row's digest is attested even then. */
  lemma {:induction false} RecordedIffOneRowUnlessMarkedOver(v0: Server, acts: seq<Action>, i: nat)
    requires Starts(v0) && ValidRun(v0, acts) && i < |After(v0, acts).store.messages|
    ensures var v := After(v0, acts);
            var m := v.store.messages[i];
            && |ChainRowsOf(v.store, m.id)| <= 1
            && (|ChainRowsOf(v.store, m.id)| == 1 ==>
                  ChainRowsOf(v.store, m.id)[0].digest == m.env.digest && Attested(v, m.id, m.env.digest))
            && ((m.status == Recorded <==> |ChainRowsOf(v.store, m.id)| == 1) <==> !LostThenMarked(v0, acts, m.id))
  {
    hide Starts, Lost, LostThenMarked;
    RunKeepsInv(v0, acts);
    var v := After(v0, acts);
    RunTells(v0, acts, v.store.messages[i].id);
    assert MessageOk(v, i) && SendOk(v, v.store.messages[i].id);
  }

  ghost predicate WasMarked(acts: seq<Action>, id: string)
  {
    exists k :: 0 <= k < |acts| && acts[k] == MarkFailed(id, true)
  }

  predicate IsMarked(v: Server, id: string)
  {
    id in v.sends && v.sends[id].phase.GivenUp? && v.sends[id].phase.marked
  }

  lemma StepMarks(v: Server, a: Action, id: string)
    requires Inv(v) && Enabled(v, a)
    ensures IsMarked(Step(v, a), id) <==> IsMarked(v, id) || a == MarkFailed(id, true)
  {
    hide Inv, RecordChainEntry, SetStatus, Create;
    if a.Send? {
      NewSend(v, a);
    } else if !a.Unconfigured? && !a.Submit? && !a.Await? && !a.RecordEntry? && !a.MarkFailed? {
      SendsStay(v, a);
    }
  }

  lemma {:induction false} RunMarks(v0: Server, acts: seq<Action>, id: string)
    requires Starts(v0) && ValidRun(v0, acts)
    ensures IsMarked(After(v0, acts), id) <==> WasMarked(acts, id)
  {
    if acts != [] {
      hide IsMarked, Step, Enabled, Inv;
      var init, a := acts[..|acts| - 1], acts[|acts| - 1];
      RunMarks(v0, init, id);
      RunKeepsInv(v0, init);
      StepMarks(After(v0, init), a, id);
      assert acts == init + [a];
      hide Starts, ValidRun, After;
      assert WasMarked(init, id) || a == MarkFailed(id, true) <==> WasMarked(acts, id) by {
        if k :| 0 <= k < |init| && init[k] == MarkFailed(id, true) {
          assert acts[k] == init[k];
        }
        assert acts[|init|] == a;
      }
    }
  }

  /** What chain_status says in every run: failed, that markChainFailed was applied; recorded, that it was not and there
      is a chain row; pending, neither. */
  lemma {:induction false} StatusSaysWhatHappened(v0: Server, acts: seq<Action>, i: nat)
    requires Starts(v0) && ValidRun(v0, acts) && i < |After(v0, acts).store.messages|
    ensures var s := After(v0, acts).store;
            var m := s.messages[i];
            var marked := exists k :: 0 <= k < |acts| && acts[k] == MarkFailed(m.id, true);
            var entered := exists c :: c in s.chain && c.messageId == m.id;
            && (m.status == Failed <==> marked)
            && (m.status == Recorded <==> entered && !marked)
            && (m.status == Pending <==> !entered && !marked)
  {
    RunKeepsInv(v0, acts);
    var v := After(v0, acts);
    var m := v.store.messages[i];
    RunMarks(v0, acts, m.id);
    hide Starts, ValidRun, After;
    assert MessageOk(v, i) && SendOk(v, m.id);
    assert WasMarked(acts, m.id) <==> exists k :: 0 <= k < |acts| && acts[k] == MarkFailed(m.id, true);
    SomeChainRow(v.store, m.id);
  }

  lemma SomeChainRow(s: Store, id: string)
    ensures |ChainRowsOf(s, id)| > 0 <==> exists c :: c in s.chain && c.messageId == id
  {
    var key := (c: ChainRow) => c.messageId;
    if c :| c in s.chain && c.messageId == id {
      Grouping.BucketMembers(key, s.chain, id, c);
    }
    if |ChainRowsOf(s, id)| > 0 {
      Grouping.BucketMembers(key, s.chain, id, ChainRowsOf(s, id)[0]);
    }
  }

  lemma OneMore(v0: Server, acts: seq<Action>, a: Action)
    requires ValidRun(v0, acts) && Enabled(After(v0, acts), a)
    ensures ValidRun(v0, acts + [a]) && After(v0, acts + [a]) == Step(After(v0, acts), a)
  {
    assert (acts + [a])[..|acts + [a]| - 1] == acts;
  }

  lemma {:induction false} UpToSubmission(v0: Server, id: string, env: Messaging.Envelope) returns (acts: seq<Action>)
    requires Starts(v0)
    ensures ValidRun(v0, acts)
    ensures After(v0, acts) == StepSubmit(StepSend(v0, id, "a", "b", env, 0, true), id, true, true)
  {
    hide ValidRun, After;
    NoActions(v0);
    var a, b := Send(id, "a", "b", env, 0, true), Submit(id, true, true);
    OneMore(v0, [], a);
    OneMore(v0, [] + [a], b);
    acts := [] + [a] + [b];
  }

  /** A send up to the receipt of its transaction, everything going well. */
  lemma {:induction false} UpToReceipt(v0: Server, id: string, env: Messaging.Envelope) returns (acts: seq<Action>)
    requires Starts(v0) && v0.wallet in v0.ledger.recorders && GetRecord(v0.ledger, v0.keyOf(id)).timestamp == 0
    ensures ValidRun(v0, acts)
    ensures var v := After(v0, acts);
            && v.store == Store([MessageRow(id, "a", "b", env, Pending, 0, None)], [], [])
            && v.sends == map[id := Sending(env.digest, Confirmed(0))]
  {
    hide ValidRun, After, GetRecord;
    acts := UpToSubmission(v0, id, env);
    var v := After(v0, acts);
    OneMore(v0, acts, Mine(0, 1));
    OneMore(v0, acts + [Mine(0, 1)], Await(id, true));
    acts := acts + [Mine(0, 1)] + [Await(id, true)];
  }

  /** And it happens: a commit whose answer is lost leaves the chain row, and the message marked failed. */
  lemma {:induction false} LostAnswerMarksOver(v0: Server, id: string, env: Messaging.Envelope)
    returns (acts: seq<Action>)
    requires Starts(v0) && v0.wallet in v0.ledger.recorders && GetRecord(v0.ledger, v0.keyOf(id)).timestamp == 0
    ensures ValidRun(v0, acts)
    ensures var v := After(v0, acts);
            && v.store.messages == [MessageRow(id, "a", "b", env, Failed, 0, None)]
            && v.store.chain == [ChainRow("row", id, 0, env.digest, 0)]
  {
    hide ValidRun, After, Starts, GetRecord, Enabled, Step;
    acts := UpToReceipt(v0, id, env);
    var entry, mark := RecordEntry(id, "row", 0, true, false), MarkFailed(id, true);
    EntryThenMark(After(v0, acts), id, env);
    OneMore(v0, acts, entry);
    OneMore(v0, acts + [entry], mark);
    acts := acts + [entry] + [mark];
  }

  lemma EntryThenMark(v: Server, id: string, env: Messaging.Envelope)
    requires v.store == Store([MessageRow(id, "a", "b", env, Pending, 0, None)], [], [])
    requires v.sends == map[id := Sending(env.digest, Confirmed(0))]
    ensures var entry, mark := RecordEntry(id, "row", 0, true, false), MarkFailed(id, true);
            && Enabled(v, entry) && Enabled(Step(v, entry), mark)
            && var s := Step(Step(v, entry), mark).store;
            && s.messages == [MessageRow(id, "a", "b", env, Failed, 0, None)]
            && s.chain == [ChainRow("row", id, 0, env.digest, 0)]
  {
  }

  lemma NoActions(v0: Server)
    ensures ValidRun(v0, []) && After(v0, []) == v0
  {
  }
}
