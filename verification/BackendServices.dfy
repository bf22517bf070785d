// MessageService.js and BlockchainService.js run one request at a time: what each
// call does to the tables, and what its caller is told.
module BackendServices {
  import opened Wrappers
  import opened Encoding
  import opened Messaging
  import opened MessageRepository
  import opened MessageDigest
  import opened MessageServer

  /** The blockchain part of the configuration; deployed is the address in the deployment artefact. */
  datatype Config = Config(rpcUrl: Option<string>, privateKey: Option<string>, address: Option<Address>,
                           deployed: Option<Address>)

  /** How the awaits of one chain write turn out. receipt is None when recordHash or wait() threw. */
  datatype Fate = Fate(receipt: Option<nat>, rowId: string, now: int, entry: EntryFate, markFails: bool)

  function Configured(c: Config): Option<Address>
  {
    var address := if c.address.Some? then c.address else c.deployed;
    if c.rpcUrl.None? || c.privateKey.None? then None else address
  }

  function Marked(s: Store, id: string, fate: Fate): Store
  {
    if fate.markFails then s else SetStatus(s, id, Failed)
  }

  /** The tables after onMessageSent. */
  function Settled(s: Store, id: string, digest: Bytes, fate: Fate): Store
  {
    match fate.receipt
    case None => Marked(s, id, fate)
    case Some(tx) =>
      var row := ChainRow(fate.rowId, id, tx, digest, fate.now);
      var s' := Entry(s, row, fate.entry);
      if fate.entry == Landed && RecordChainEntry(s, row).Ok? then s' else Marked(s', id, fate)
  }

  class BlockchainService {
    const config: Config
    const repo: MessageRepository
    var contract: Option<Address>

    constructor (config: Config, repo: MessageRepository)
      ensures this.config == config && this.repo == repo && contract == None && Valid()
    {
      this.config, this.repo, contract := config, repo, None;
    }

    /** What is memoised is what the configuration says. */
    predicate Valid()
      reads this
    {
      contract.Some? ==> contract == Configured(config)
    }

    method GetContract() returns (c: Option<Address>)
      requires Valid()
      modifies this
      ensures Valid() && c == Configured(config) && contract == c
      ensures c == if config.rpcUrl.None? || config.privateKey.None? then None
                   else if config.address.Some? then config.address else config.deployed
    {
      if contract.Some? {
        return contract;
      }
      var address := if config.address.Some? then config.address else config.deployed;
      if config.rpcUrl.None? || config.privateKey.None? || address.None? {
        return None;
      }
      contract := address;
      c := contract;
    }

    /** recordDigest: Ok(None) when no blockchain is configured. */
    method RecordDigest(id: string, digest: Bytes, fate: Fate) returns (r: Result<Option<nat>, StoreError>)
      requires Valid()
      modifies this, repo
      ensures Valid()
      ensures r == Ok(None) <==> Configured(config).None?
      ensures r.Ok? && r.value.Some? ==>
                fate.receipt == r.value && fate.entry == Landed
                && RecordChainEntry(old(repo.State()), ChainRow(fate.rowId, id, r.value.value, digest, fate.now))
                   == Ok(repo.State())
      ensures r == Ok(None) || (r.Err? && fate.receipt.None?) ==> repo.State() == old(repo.State())
      ensures r.Err? && fate.receipt.Some? ==>
                var row := ChainRow(fate.rowId, id, fate.receipt.value, digest, fate.now);
                repo.State() == Entry(old(repo.State()), row, fate.entry)
                && (fate.entry != Landed || RecordChainEntry(old(repo.State()), row).Err?)
    {
      var c := GetContract();
      if c.None? {
        return Ok(None);
      }
      if fate.receipt.None? {
        return Err(Unavailable);
      }
      var tx := fate.receipt.value;
      var e := repo.RecordEntry(ChainRow(fate.rowId, id, tx, digest, fate.now), fate.entry);
      match e {
        case Err(x) => r := Err(x);
        case Ok(_) => r := Ok(Some(tx));
      }
    }

    /** Never throws: whatever fails is caught, and the row marked if that works. */
    method OnMessageSent(id: string, digest: Bytes, fate: Fate)
      requires Valid()
      modifies this, repo
      ensures Valid()
      ensures repo.State()
              == if Configured(config).None? then old(repo.State()) else Settled(old(repo.State()), id, digest, fate)
    {
      var r := RecordDigest(id, digest, fate);
      if r.Err? && !fate.markFails {
        repo.MarkChainFailed(id);
      }
    }
  }

  class MessageService {
    const repo: MessageRepository
    const blockchain: BlockchainService

    constructor (repo: MessageRepository, blockchain: BlockchainService)
      ensures this.repo == repo && this.blockchain == blockchain
    {
      this.repo, this.blockchain := repo, blockchain;
    }

    /** The caller is told of a conflict and of nothing else: with the row stored, whatever becomes of the
        chain write the message is delivered, its parties and crypto fields as sent. */
    method SendMessage(id: string, sender: string, recipient: string, env: Envelope, now: int, fate: Fate)
      returns (r: Result<string, StoreError>)
      requires blockchain.Valid() && blockchain.repo == repo
      modifies repo, blockchain
      ensures blockchain.Valid()
      ensures var row := MessageRow(id, sender, recipient, env, Pending, now, None);
              match Create(old(repo.State()), row)
              case Err(e) => r == Err(e) && repo.State() == old(repo.State())
              case Ok(s) =>
                r == Ok(id)
                && repo.State() == if Configured(blockchain.config).None? then s else Settled(s, id, env.digest, fate)
    {
      r := repo.CreateMessage(id, sender, recipient, env, now);
      if r.Ok? {
        blockchain.OnMessageSent(id, env.digest, fate);
      }
    }

    method ForwardMessage(shareId: string, request: Forward, now: int)
      returns (r: Result<Result<string, StoreError>, ServiceError>)
      modifies repo
      ensures var row := ShareRow(shareId, request.messageId, request.forwarder, request.recipient, request.env, now,
                                  None);
              match GetMessage(old(repo.State()), request.messageId, request.forwarder)
              case Err(e) => r == Err(e) && repo.State() == old(repo.State())
              case Ok(_) =>
                match CreateShare(old(repo.State()), row)
                case Err(e) => r == Ok(Err(e)) && repo.State() == old(repo.State())
                case Ok(s) => r == Ok(Ok(shareId)) && repo.State() == s
    {
      var row := ShareRow(shareId, request.messageId, request.forwarder, request.recipient, request.env, now, None);
      match GetMessage(repo.State(), request.messageId, request.forwarder) {
        case Err(e) => return Err(e);
        case Ok(_) =>
          var id := repo.AddShare(row);
          r := Ok(id);
      }
    }

    method RevokeAccess(messageId: string, user: string, revoked: string, now: int)
      returns (r: Result<bool, ServiceError>)
      modifies repo
      ensures match FindById(old(repo.State()), messageId)
              case None => r == Err(NotFound) && repo.State() == old(repo.State())
              case Some(m) =>
                if m.sender != user then r == Err(Forbidden) && repo.State() == old(repo.State())
                else r == Ok(true) && repo.State() == RevokeShare(old(repo.State()), messageId, revoked, now)
    {
      var m := FindById(repo.State(), messageId);
      if m.None? {
        return Err(NotFound);
      }
      if m.value.sender != user {
        return Err(Forbidden);
      }
      repo.Revoke(messageId, revoked, now);
      r := Ok(true);
    }

    /** Succeeds exactly for a party to a message not yet deleted; afterwards nobody finds it. */
    method DeleteMessage(messageId: string, user: string, now: int) returns (r: Result<bool, ServiceError>)
      modifies repo
      ensures repo.State() == SoftDelete(old(repo.State()), messageId, user, now)
      ensures r.Ok? <==> exists m :: m in old(repo.messages) && m.id == messageId && m.deletedAt.None?
                                     && (m.sender == user || m.recipient == user)
      ensures r.Err? ==> r == Err(NotFound)
    {
      var affected := repo.DeleteMessage(messageId, user, now);
      r := if affected == 0 then Err(NotFound) else Ok(true);
    }

    method DeleteShare(shareId: string, user: string, now: int) returns (r: Result<bool, ServiceError>)
      modifies repo
      ensures repo.State() == SoftDeleteShare(old(repo.State()), shareId, user, now)
      ensures r.Ok? <==> exists x :: x in old(repo.shares) && x.id == shareId && x.sharedBy == user
                                     && x.revokedAt.None?
      ensures r.Err? ==> r == Err(NotFound)
    {
      var affected := repo.DeleteShare(shareId, user, now);
      r := if affected == 0 then Err(NotFound) else Ok(true);
    }
  }

  // ----- these calls are runs of the server -----

  /** The catch block: a failure is marked unless marking fails too. */
  function Caught(v: Server, id: string, fate: Fate): Server
    requires id in v.sends
  {
    if v.sends[id].phase.Catching? then Step(v, MarkFailed(id, !fate.markFails)) else v
  }

  /** The awaits that remain: the entry if there is a receipt, then the catch block. */
  function Ended(v: Server, id: string, fate: Fate): Server
    requires id in v.sends
  {
    if !v.sends[id].phase.Confirmed? then Caught(v, id, fate)
    else
      var committed := fate.entry == Landed || fate.entry == AnswerLost;
      Caught(Step(v, RecordEntry(id, fate.rowId, fate.now, committed, fate.entry == Landed)), id, fate)
  }

  /** From the receipt or the exception on, what onMessageSent does is what its awaits do one by one. */
  lemma SettledIsEnded(v: Server, id: string, fate: Fate)
    requires id in v.sends && (v.sends[id].phase.Confirmed? || v.sends[id].phase.Catching?)
    requires fate.receipt == if v.sends[id].phase.Confirmed? then Some(v.sends[id].phase.tx) else None
    ensures Ended(v, id, fate).store == Settled(v.store, id, v.sends[id].digest, fate)
  {
    hide RecordChainEntry, SetStatus;
  }

  /** The actions of a chain write up to its receipt, with the network running the transaction, or to where recordHash
      or wait() throws, be it for a transaction that was sent and even run. */
  function UpToReceipt(v: Server, id: string, sent: bool, heard: bool, waited: bool, blockTime: nat): (w: Server)
    requires InPhase(v, id, Stored) && blockTime > 0
    ensures id in w.sends
  {
    var v1 := Step(v, Submit(id, sent, heard));
    if !sent || !heard then v1
    else
      var v2 := Step(v1, Mine(|v.txs|, blockTime));
      Step(v2, Await(id, waited && v2.txs[|v.txs|].status == Included))
  }

  lemma ReceiptTouchesNoTable(v: Server, id: string, sent: bool, heard: bool, waited: bool, blockTime: nat)
    requires InPhase(v, id, Stored) && blockTime > 0
    ensures var w := UpToReceipt(v, id, sent, heard, waited, blockTime);
            && w.store == v.store && id in w.sends && w.sends[id].digest == v.sends[id].digest
            && (w.sends[id].phase == Confirmed(|v.txs|) || w.sends[id].phase == Catching(false))
  {
    hide RecordHash;
  }

  /** So the whole call, from the stored row on, is a run of the server: with no blockchain configured one step that
      touches no table; otherwise the transaction, its receipt or the exception in its place, the entry, the mark. */
  lemma {:induction false} SettledIsItsSteps(v: Server, id: string, sent: bool, heard: bool, waited: bool,
                                             blockTime: nat, fate: Fate)
    requires InPhase(v, id, Stored) && blockTime > 0
    requires fate.receipt
             == if UpToReceipt(v, id, sent, heard, waited, blockTime).sends[id].phase.Confirmed?
                then Some(|v.txs|) else None
    ensures Step(v, Unconfigured(id)).store == v.store
    ensures Ended(UpToReceipt(v, id, sent, heard, waited, blockTime), id, fate).store
         == Settled(v.store, id, v.sends[id].digest, fate)
  {
    hide UpToReceipt, Ended, Settled;
    ReceiptTouchesNoTable(v, id, sent, heard, waited, blockTime);
    SettledIsEnded(UpToReceipt(v, id, sent, heard, waited, blockTime), id, fate);
  }

  /** No fate of the chain write touches a message but for its status. */
  lemma SettledKeepsDelivery(s: Store, id: string, digest: Bytes, fate: Fate)
    ensures var s' := Settled(s, id, digest, fate);
            && s'.shares == s.shares && |s'.messages| == |s.messages|
            && forall i :: 0 <= i < |s.messages| ==>
                 s'.messages[i] == s.messages[i].(status := s'.messages[i].status)
                 && (s.messages[i].id != id ==> s'.messages[i] == s.messages[i])
  {
  }
}
