// Who may take things away: over every run of MessageService.js, however its
// checks and its writes interleave with other requests.
module Authority {
  import opened Wrappers
  import opened MessageRepository
  import opened MessageDigest
  import opened MessageServer

  ghost predicate SentBy(s: Store, messageId: string, user: string)
  {
    exists m :: 0 <= m < |s.messages| && s.messages[m].id == messageId && s.messages[m].sender == user
  }

  /** Every revocation past its check was asked for by the sender of the message. */
  ghost predicate Inv(v: Server)
  {
    forall r :: r in v.revokes ==> SentBy(v.store, v.revokes[r].messageId, v.revokes[r].caller)
  }

  lemma SentByStays(s: Store, s': Store, messageId: string, user: string)
    requires Extends(s, s') && SentBy(s, messageId, user)
    ensures SentBy(s', messageId, user)
  {
    var m :| 0 <= m < |s.messages| && s.messages[m].id == messageId && s.messages[m].sender == user;
    assert SameMessage(s.messages[m], s'.messages[m]);
  }

  lemma FoundIsSentBy(s: Store, messageId: string)
    ensures FindById(s, messageId).Some? ==> SentBy(s, messageId, FindById(s, messageId).value.sender)
  {
    FindInExactly(s.messages, messageId);
    if FindById(s, messageId).Some? {
      var m :| 0 <= m < |s.messages| && s.messages[m] == FindById(s, messageId).value;
    }
  }

  lemma StepKeepsInv(v: Server, a: Action)
    requires Inv(v) && Unique(v.store) && Enabled(v, a)
    ensures Inv(Step(v, a))
  {
    hide Unique, Extends, SentBy, FindById, HasShare, Create, CreateShare, RecordChainEntry, SetRecorder, RecordHash;
    hide SoftDelete, SoftDeleteShare, RevokeShare, SetStatus;
    StepKeepsRows(v, a);
    var v' := Step(v, a);
    forall r | r in v'.revokes ensures SentBy(v'.store, v'.revokes[r].messageId, v'.revokes[r].caller) {
      if a.RevokeStart? && a.r == r && r !in v.revokes {
        FoundIsSentBy(v.store, a.messageId);
      } else {
        SentByStays(v.store, v'.store, v.revokes[r].messageId, v.revokes[r].caller);
      }
    }
  }

  lemma {:induction false} RunKeepsInv(v0: Server, acts: seq<Action>)
    requires Starts(v0) && ValidRun(v0, acts)
    ensures Inv(After(v0, acts))
  {
    if acts != [] {
      hide Inv, Step, Enabled, Unique, Starts;
      RunKeepsInv(v0, acts[..|acts| - 1]);
      RunKeepsUnique(v0, acts[..|acts| - 1]);
      StepKeepsInv(After(v0, acts[..|acts| - 1]), acts[|acts| - 1]);
    }
  }

  /** The action withdraws share i for one entitled to: its maker, or the sender of its message. */
  ghost predicate MayRevoke(v: Server, a: Action, i: nat)
    requires i < |v.store.shares|
  {
    var share := v.store.shares[i];
    || (a.DeleteForward? && a.id == share.id && a.caller == share.sharedBy)
    || (a.RevokeNow? && a.r in v.revokes && v.revokes[a.r].sharedWith == share.sharedWith
        && v.revokes[a.r].messageId == share.messageId && SentBy(v.store, share.messageId, v.revokes[a.r].caller))
  }

  ghost predicate MayErase(v: Server, a: Action, i: nat)
    requires i < |v.store.messages|
  {
    a.DeleteMessage? && a.id == v.store.messages[i].id && Party(v.store.messages[i], a.caller)
  }

  /** Nothing is newly revoked or newly deleted at place i but what the two conditions allow. */
  ghost predicate Takes(s: Store, s': Store, i: nat, revokes: bool, erases: bool)
  {
    && (i < |s.shares| && i < |s'.shares| ==> s.shares[i].revokedAt.Some? || s'.shares[i].revokedAt.None? || revokes)
    && (i < |s.messages| && i < |s'.messages| ==>
          s.messages[i].deletedAt.Some? || s'.messages[i].deletedAt.None? || erases)
  }

  lemma MessageUpdatesTake(s: Store, id: string, user: string, now: int, status: ChainStatus, i: nat, revokes: bool,
                           erases: bool)
    ensures (i < |s.messages| && s.messages[i].id == id && Party(s.messages[i], user) ==> erases) ==>
              Takes(s, SoftDelete(s, id, user, now), i, revokes, erases)
    ensures Takes(s, SetStatus(s, id, status), i, revokes, erases)
  {
  }

  lemma ShareUpdatesTake(s: Store, id: string, user: string, now: int, i: nat, revokes: bool, erases: bool)
    ensures (i < |s.shares| && s.shares[i].id == id && s.shares[i].sharedBy == user ==> revokes) ==>
              Takes(s, SoftDeleteShare(s, id, user, now), i, revokes, erases)
    ensures (i < |s.shares| && s.shares[i].messageId == id && s.shares[i].sharedWith == user ==> revokes) ==>
              Takes(s, RevokeShare(s, id, user, now), i, revokes, erases)
  {
  }

  lemma CreateTakesNothing(s: Store, row: MessageRow, i: nat, revokes: bool, erases: bool)
    ensures Create(s, row).Ok? ==> Takes(s, Create(s, row).value, i, revokes, erases)
  {
  }

  lemma CreateShareTakesNothing(s: Store, row: ShareRow, i: nat, revokes: bool, erases: bool)
    ensures CreateShare(s, row).Ok? ==> Takes(s, CreateShare(s, row).value, i, revokes, erases)
  {
  }

  lemma RecordTakesNothing(s: Store, row: ChainRow, i: nat, revokes: bool, erases: bool)
    ensures RecordChainEntry(s, row).Ok? ==> Takes(s, RecordChainEntry(s, row).value, i, revokes, erases)
  {
    hide SetStatus;
    MessageUpdatesTake(s, row.messageId, "", 0, Recorded, i, revokes, erases);
  }

  lemma SameTakesNothing(s: Store, i: nat, revokes: bool, erases: bool)
    ensures Takes(s, s, i, revokes, erases)
  {
  }

  lemma StepAuthority(v: Server, a: Action, i: nat)
    requires Inv(v) && Enabled(v, a)
    ensures Takes(v.store, Step(v, a).store, i, i < |v.store.shares| && MayRevoke(v, a, i),
                  i < |v.store.messages| && MayErase(v, a, i))
  {
    hide Takes, SentBy, FindById, HasShare, Create, CreateShare, RecordChainEntry, SetRecorder, RecordHash;
    hide SoftDelete, SoftDeleteShare, RevokeShare, SetStatus;
    var s := v.store;
    var revokes, erases := i < |s.shares| && MayRevoke(v, a, i), i < |s.messages| && MayErase(v, a, i);
    SameTakesNothing(s, i, revokes, erases);
    match a {
      case Send(id, sender, recipient, env, now, _) =>
        CreateTakesNothing(s, MessageRow(id, sender, recipient, env, Pending, now, None), i, revokes, erases);
      case ForwardInsert(r, shareId, now) =>
        var q := v.forwards[r].request;
        CreateShareTakesNothing(s, ShareRow(shareId, q.messageId, q.forwarder, q.recipient, q.env, now, None), i,
                                revokes, erases);
      case RecordEntry(id, rowId, now, _, _) =>
        RecordTakesNothing(s, ChainRow(rowId, id, v.sends[id].phase.tx, v.sends[id].digest, now), i, revokes, erases);
      case RevokeNow(r, now) =>
        ShareUpdatesTake(s, v.revokes[r].messageId, v.revokes[r].sharedWith, now, i, revokes, erases);
      case DeleteForward(id, caller, now) => ShareUpdatesTake(s, id, caller, now, i, revokes, erases);
      case DeleteMessage(id, caller, now) => MessageUpdatesTake(s, id, caller, now, Pending, i, revokes, erases);
      case MarkFailed(id, _) => MessageUpdatesTake(s, id, "", 0, Failed, i, revokes, erases);
      case _ =>
    }
  }

  /** In every run: a share is withdrawn only by its maker or through a revocation the message's sender asked for,
      and a message is deleted only by a party to it, whatever happened between the check and the write. */
  lemma {:induction false} OnlyTheEntitledTakeAway(v0: Server, acts: seq<Action>, a: Action, i: nat)
    requires Starts(v0) && ValidRun(v0, acts) && Enabled(After(v0, acts), a)
    ensures var v := After(v0, acts);
            Takes(v.store, Step(v, a).store, i, i < |v.store.shares| && MayRevoke(v, a, i),
                  i < |v.store.messages| && MayErase(v, a, i))
  {
    RunKeepsInv(v0, acts);
    hide Starts, Step, Inv, MayRevoke, MayErase, Takes;
    StepAuthority(After(v0, acts), a, i);
  }
}
