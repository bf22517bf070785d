// Where forwards come from: every share is reached from a party to the message,
// however forwards, revocations and deletions interleave.
module Provenance {
  import opened Wrappers
  import opened MessageRepository
  import opened MessageDigest
  import opened MessageServer

  /** Sender or recipient of the message, deleted or not. */
  ghost predicate PartyTo(s: Store, messageId: string, user: string)
  {
    exists m :: 0 <= m < |s.messages| && s.messages[m].id == messageId && Party(s.messages[m], user)
  }

  /** A party, or somebody the message was shared with by one of the first n share rows, revoked ones included. */
  ghost predicate Reached(s: Store, messageId: string, user: string, n: nat)
  {
    PartyTo(s, messageId, user) ||
    exists j :: 0 <= j < n && j < |s.shares| && s.shares[j].messageId == messageId && s.shares[j].sharedWith == user
  }

  ghost predicate SharesReached(s: Store)
  {
    forall i :: 0 <= i < |s.shares| ==> Reached(s, s.shares[i].messageId, s.shares[i].sharedBy, i)
  }

  /** What a forward that passed getMessage relies on, even if the share it passed on is revoked meanwhile. */
  ghost predicate ForwardReached(s: Store, f: Forwarding)
  {
    f.allowed ==> Reached(s, f.request.messageId, f.request.forwarder, |s.shares|)
  }

  ghost predicate Inv(v: Server)
  {
    SharesReached(v.store) && forall r :: r in v.forwards ==> ForwardReached(v.store, v.forwards[r])
  }

  /** A chain of strictly earlier shares of one message, from a party to share i. */
  ghost predicate Chain(s: Store, path: seq<nat>, i: nat)
  {
    && path != [] && path[|path| - 1] == i
    && (forall k :: 0 <= k < |path| ==> path[k] < |s.shares|)
    && i < |s.shares|
    && (forall k :: 0 <= k < |path| ==> s.shares[path[k]].messageId == s.shares[i].messageId)
    && PartyTo(s, s.shares[i].messageId, s.shares[path[0]].sharedBy)
    && (forall k :: 0 < k < |path| ==>
          path[k - 1] < path[k] && s.shares[path[k - 1]].sharedWith == s.shares[path[k]].sharedBy)
  }

  lemma ReachedStays(s: Store, s': Store, messageId: string, user: string, n: nat, n': nat)
    requires Extends(s, s') && Reached(s, messageId, user, n) && n <= n'
    ensures Reached(s', messageId, user, n')
  {
    if PartyTo(s, messageId, user) {
      var m :| 0 <= m < |s.messages| && s.messages[m].id == messageId && Party(s.messages[m], user);
      assert SameMessage(s.messages[m], s'.messages[m]);
    } else {
      var j :| 0 <= j < n && j < |s.shares| && s.shares[j].messageId == messageId && s.shares[j].sharedWith == user;
      assert SameShare(s.shares[j], s'.shares[j]);
    }
  }

  lemma SharesStayReached(s: Store, s': Store)
    requires Extends(s, s') && SharesReached(s) && |s'.shares| == |s.shares|
    ensures SharesReached(s')
  {
    forall i | 0 <= i < |s'.shares| ensures Reached(s', s'.shares[i].messageId, s'.shares[i].sharedBy, i) {
      assert SameShare(s.shares[i], s'.shares[i]);
      ReachedStays(s, s', s.shares[i].messageId, s.shares[i].sharedBy, i, i);
    }
  }

  lemma NewShareIsReached(s: Store, row: ShareRow)
    requires CreateShare(s, row).Ok? && Extends(s, CreateShare(s, row).value)
    requires SharesReached(s) && Reached(s, row.messageId, row.sharedBy, |s.shares|)
    ensures SharesReached(CreateShare(s, row).value)
  {
    var s' := CreateShare(s, row).value;
    forall i | 0 <= i < |s'.shares| ensures Reached(s', s'.shares[i].messageId, s'.shares[i].sharedBy, i) {
      ReachedStays(s, s', s'.shares[i].messageId, s'.shares[i].sharedBy, i, i);
    }
  }

  lemma ForwardsStayReached(v: Server, s': Store)
    requires Extends(v.store, s') && forall r :: r in v.forwards ==> ForwardReached(v.store, v.forwards[r])
    ensures forall r :: r in v.forwards ==> ForwardReached(s', v.forwards[r])
  {
    forall r | r in v.forwards ensures ForwardReached(s', v.forwards[r]) {
      var q := v.forwards[r].request;
      if v.forwards[r].allowed {
        ReachedStays(v.store, s', q.messageId, q.forwarder, |v.store.shares|, |s'.shares|);
      }
    }
  }

  /** Both ways getMessage admits a user leave a trace in the tables. */
  lemma AdmittedIsReached(s: Store, messageId: string, user: string)
    ensures FindById(s, messageId).Some? && Party(FindById(s, messageId).value, user) ==>
              PartyTo(s, messageId, user) && Reached(s, messageId, user, |s.shares|)
    ensures HasShare(s, messageId, user) ==> Reached(s, messageId, user, |s.shares|)
  {
    FindInExactly(s.messages, messageId);
    if FindById(s, messageId).Some? {
      var m :| 0 <= m < |s.messages| && s.messages[m] == FindById(s, messageId).value;
    }
    if HasShare(s, messageId, user) {
      var r :| r in s.shares && r.messageId == messageId && r.revokedAt.None? && r.sharedWith == user;
      var j :| 0 <= j < |s.shares| && s.shares[j] == r;
    }
  }

  lemma InsertKeepsInv(v: Server, r: nat, shareId: string, now: int)
    requires Inv(v) && Unique(v.store) && Enabled(v, ForwardInsert(r, shareId, now))
    ensures Inv(StepForwardInsert(v, r, shareId, now))
  {
    hide Reached, Unique, Extends;
    var q := v.forwards[r].request;
    var row := ShareRow(shareId, q.messageId, q.forwarder, q.recipient, q.env, now, None);
    assert ForwardReached(v.store, v.forwards[r]);
    if CreateShare(v.store, row).Ok? {
      CreateShareKeeps(v.store, row);
      NewShareIsReached(v.store, row);
      ForwardsStayReached(v, CreateShare(v.store, row).value);
    }
  }

  lemma StepKeepsInv(v: Server, a: Action)
    requires Inv(v) && Unique(v.store) && Enabled(v, a)
    ensures Inv(Step(v, a))
  {
    hide Reached, Unique, Extends, SharesReached, FindById, HasShare, Create, CreateShare;
    hide SoftDelete, SoftDeleteShare, RevokeShare, SetStatus, RecordChainEntry;
    StepKeepsRows(v, a);
    match a {
      case ForwardInsert(r, shareId, now) => InsertKeepsInv(v, r, shareId, now);
      case ForwardStart(_, q) => AdmittedIsReached(v.store, q.messageId, q.forwarder);
      case ForwardShares(r) =>
        AdmittedIsReached(v.store, v.forwards[r].request.messageId, v.forwards[r].request.forwarder);
      case _ =>
        SameShareCount(v, a);
        SharesStayReached(v.store, Step(v, a).store);
        ForwardsStayReached(v, Step(v, a).store);
    }
  }

  lemma SameShareCounts(s: Store, id: string, user: string, now: int, status: ChainStatus)
    ensures |SoftDelete(s, id, user, now).shares| == |s.shares|
    ensures |SoftDeleteShare(s, id, user, now).shares| == |s.shares|
    ensures |RevokeShare(s, id, user, now).shares| == |s.shares| && |SetStatus(s, id, status).shares| == |s.shares|
  {
  }

  lemma SameShareCount(v: Server, a: Action)
    requires Enabled(v, a) && !a.ForwardInsert?
    ensures |Step(v, a).store.shares| == |v.store.shares|
    ensures !a.ForwardStart? && !a.ForwardShares? ==> Step(v, a).forwards == v.forwards
  {
    hide FindById, HasShare, SoftDelete, SoftDeleteShare, RevokeShare, SetStatus, SetRecorder, RecordHash;
    hide MessageClash, ShareClash, ChainClash;
    match a {
      case RevokeNow(r, now) => SameShareCounts(v.store, v.revokes[r].messageId, v.revokes[r].sharedWith, now, Failed);
      case DeleteMessage(id, caller, now) => SameShareCounts(v.store, id, caller, now, Failed);
      case DeleteForward(id, caller, now) => SameShareCounts(v.store, id, caller, now, Failed);
      case MarkFailed(id, _) => SameShareCounts(v.store, id, "", 0, Failed);
      case RecordEntry(id, _, _, _, _) => SameShareCounts(v.store, id, "", 0, Recorded);
      case _ =>
    }
  }

  lemma {:induction false} RunKeepsInv(v0: Server, acts: seq<Action>)
    requires Starts(v0) && ValidRun(v0, acts)
    ensures Inv(After(v0, acts))
  {
    if acts != [] {
      hide Inv, Step, Enabled, Unique, Starts;
      RunKeepsInv(v0, acts[..|acts| - 1]);
      RunKeepsUnique(v0, acts[..|acts| - 1]);
      StepKeepsInv(After(v0, acts[..|acts| - 1]), acts[|acts| - 1]);
    }
  }

  lemma ChainGrows(s: Store, path: seq<nat>, j: nat, i: nat)
    requires Chain(s, path, j) && j < i < |s.shares|
    requires s.shares[j].messageId == s.shares[i].messageId && s.shares[j].sharedWith == s.shares[i].sharedBy
    ensures Chain(s, path + [i], i)
  {
    hide PartyTo;
    assert (path + [i])[0] == path[0];
  }

  lemma {:induction false} ChainTo(s: Store, i: nat) returns (path: seq<nat>)
    requires SharesReached(s) && i < |s.shares|
    ensures Chain(s, path, i)
    decreases i
  {
    hide PartyTo;
    var r := s.shares[i];
    if PartyTo(s, r.messageId, r.sharedBy) {
      path := [i];
    } else {
      assert Reached(s, r.messageId, r.sharedBy, i);
      var j :| 0 <= j < i && s.shares[j].messageId == r.messageId && s.shares[j].sharedWith == r.sharedBy;
      var init := ChainTo(s, j);
      ChainGrows(s, init, j, i);
      path := init + [i];
    }
  }

  /** Every share row of every run, revoked ones included, hangs on a finite chain of earlier shares of its
      message that starts at the sender or the recipient. */
  lemma EverySharePassedFromHandToHand(v0: Server, acts: seq<Action>, i: nat)
    requires Starts(v0) && ValidRun(v0, acts) && i < |After(v0, acts).store.shares|
    ensures exists path :: Chain(After(v0, acts).store, path, i)
  {
    RunKeepsInv(v0, acts);
    hide Starts;
    var path := ChainTo(After(v0, acts).store, i);
  }

  /** So nobody reads a message who is not a party to it or at the end of such a chain. */
  lemma ReadersHaveAChain(v0: Server, acts: seq<Action>, messageId: string, user: string)
    requires Starts(v0) && ValidRun(v0, acts) && GetMessage(After(v0, acts).store, messageId, user).Ok?
    ensures var s := After(v0, acts).store;
            PartyTo(s, messageId, user) ||
            exists i: nat, path ::
              Chain(s, path, i) && s.shares[i].messageId == messageId && s.shares[i].sharedWith == user
              && s.shares[i].revokedAt.None?
  {
    var s := After(v0, acts).store;
    AdmittedIsReached(s, messageId, user);
    if !PartyTo(s, messageId, user) {
      var r :| r in s.shares && r.messageId == messageId && r.revokedAt.None? && r.sharedWith == user;
      var i: nat :| i < |s.shares| && s.shares[i] == r;
      EverySharePassedFromHandToHand(v0, acts, i);
      var path :| Chain(s, path, i);
    }
  }
}
