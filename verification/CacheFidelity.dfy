// The plaintext cache against a server that returns stored rows faithfully:
// every entry, however it got there, is the text first sealed under that id.
module CacheFidelity {
  import opened Wrappers
  import opened Primitives
  import opened Messaging
  import opened Keystore
  import opened KeyService
  import opened MessageService
  import opened Inbox
  import opened Protocol

  /** What is shown under an id is the row stored under it, to the user it names; rows are stored for real users. */
  predicate Faithful(s: System, act: Action)
  {
    match act
    case Store(_, a, b, _) => a in s.devices && b in s.devices
    case KeepSent(id, a, b, i) =>
      id in s.rows && i < |Log(s.sealed, a, b)| && s.rows[id] == Row(a, b, Log(s.sealed, a, b)[i].env)
    case ShowInbox(b, m, _) => m.id in s.rows && s.rows[m.id] == Row(m.sender, b, m.env)
    case ShowSent(a, id, to, env, _) => id in s.rows && s.rows[id] == Row(a, to, env)
    case _ => true
  }

  ghost predicate FaithfulRun(p: Primitives, s0: System, acts: seq<Action>)
    decreases |acts|
  {
    ValidRun(p, s0, acts) &&
    (acts == [] ||
     (FaithfulRun(p, s0, acts[..|acts| - 1]) && Faithful(After(p, s0, acts[..|acts| - 1]), acts[|acts| - 1])))
  }

  /** A row is an entry of its pair's log, and its original text is that entry's. */
  ghost predicate RowOfEntry(s: System, id: string)
  {
    id in s.rows && id in s.original ==>
      var r := s.rows[id];
      && r.sender in s.devices && r.recipient in s.devices
      && exists i :: 0 <= i < |Log(s.sealed, r.sender, r.recipient)|
                     && Log(s.sealed, r.sender, r.recipient)[i].env == r.env
                     && Log(s.sealed, r.sender, r.recipient)[i].msg.text == s.original[id]
  }

  ghost predicate RowsFiled(s: System)
  {
    forall id :: (id in s.rows <==> id in s.original) && RowOfEntry(s, id)
  }

  ghost predicate CacheTrue(s: System, u: string)
  {
    u in s.devices ==>
      forall id :: id in s.devices[u].cache ==> id in s.original && s.devices[u].cache[id] == s.original[id]
  }

  /** Within one pair's log, an envelope belongs to one text. */
  lemma {:induction false} EnvelopeDecidesText(p: Primitives, s: System, id: string, n: Numbered)
    requires Inv(p, s) && RowsFiled(s) && id in s.rows
    requires n in Numbers(Log(s.sealed, s.rows[id].sender, s.rows[id].recipient)) && n.seqNo == s.rows[id].env.seqNo
    ensures n.text == s.original[id]
  {
    hide GoodEntry, GenuinePins, GoodAccepted, OwnKeys, UserId;
    var r := s.rows[id];
    assert RowOfEntry(s, id);
    assert PairInv(p, s, r.sender, r.recipient);
    var log := Log(s.sealed, r.sender, r.recipient);
    var i :| 0 <= i < |log| && log[i].env == r.env && log[i].msg.text == s.original[id];
    var j :| 0 <= j < |log| && Numbers(log)[j] == n;
    assert GoodEntry(p, r.sender, r.recipient, s.devices[r.sender].keys, KeysOf(DeviceOf(s, r.recipient)), log[i]);
    EntryNumber(p, r.sender, r.recipient, s.devices[r.sender].keys, KeysOf(DeviceOf(s, r.recipient)), log[i]);
    assert Numbers(log)[i].seqNo == Numbers(log)[j].seqNo;
  }

  lemma EntryNumber(p: Primitives, a: string, b: string, ka: PrivateKeys, kb: Option<PrivateKeys>, e: Entry)
    requires GoodEntry(p, a, b, ka, kb, e)
    ensures e.env.seqNo == e.msg.seqNo
  {
  }

  /** What an inbox message opens to is its row's original text. */
  lemma {:induction false} InboxOpensOriginal(p: Primitives, s: System, u: string, m: Message, dir: Directory)
    requires Lawful(p) && Inv(p, s) && RowsFiled(s) && u in s.devices
    requires Allowed(p, s, ShowInbox(u, m, dir)) && Faithful(s, ShowInbox(u, m, dir))
    ensures var v := Judge(WhoIs(p, u, s.devices[u]), dir, ClientOf(s.devices[u]), m);
            v.Opened? ==> m.id in s.original && v.text == s.original[m.id]
  {
    hide Judge, FirstContactGenuine, Unforged, PairInv, Lawful, OwnKeys, UserId, Log, Numbers;
    assert RowOfEntry(s, m.id);
    var v := Judge(WhoIs(p, u, s.devices[u]), dir, ClientOf(s.devices[u]), m);
    if v.Opened? {
      AcceptedWasSealed(p, s, u, m, dir);
      EnvelopeDecidesText(p, s, m.id, Numbered(m.env.seqNo, v.text));
    }
  }

  lemma ShowOwnCaches(p: Primitives, u: string, d: Device, id: string, to: string, env: Envelope,
                      offered: Option<seq<ServedKey>>, text: string)
    requires offered.Some? ==>
      var fetched := FetchAndPin(d.file, to, offered.value);
      fetched.file.own == d.file.own &&
      (fetched.keys.x25519.Some? && d.file.own.ed25519.Some? ==>
         OpenMessage(p, env, u, to, d.keys.x25519, fetched.keys.x25519.value, d.file.own.ed25519.value, None, false)
         == Ok((text, env.seqNo)))
    ensures var d' := ShowOwn(p, u, d, id, to, env, offered);
            d'.cache == d.cache || d'.cache == d.cache[id := text]
  {
    hide FetchAndPin, OpenMessage;
  }

  /** What an own message re-opens to is its row's original text. */
  lemma {:induction false} SentOpensOriginal(p: Primitives, s: System, act: Action)
    requires Lawful(p) && Inv(p, s) && RowsFiled(s) && act.ShowSent? && act.user in s.devices
    requires act.offered.Some? ==> FirstContactGenuine(p, s, act.user, act.to, act.offered.value)
    requires Faithful(s, act)
    ensures var d := s.devices[act.user];
            var d' := ShowOwn(p, act.user, d, act.id, act.to, act.env, act.offered);
            act.id in s.original && (d'.cache == d.cache || d'.cache == d.cache[act.id := s.original[act.id]])
  {
    hide FirstContactGenuine, FetchAndPin, OpenMessage, Lawful, UserId, PairInv, GoodEntry, ShowOwn, Log,
      RowsFiled;
    var a, b, d := act.user, act.to, s.devices[act.user];
    var e := FiledEntry(p, s, act.id);
    EntryOpens(p, a, b, d.keys, s.devices[b].keys, e, None);
    if act.offered.Some? {
      assert PairInv(p, s, a, b);
      FetchedOwnKeys(p, s, a, b, act.offered.value);
      PinsAreForever(d.file, b, act.offered.value, b, X25519);
    }
    ShowOwnCaches(p, a, d, act.id, b, act.env, act.offered, s.original[act.id]);
  }

  lemma {:induction false} FiledEntry(p: Primitives, s: System, id: string) returns (e: Entry)
    requires Inv(p, s) && RowsFiled(s) && id in s.rows
    ensures var r := s.rows[id];
            && r.sender in s.devices && r.recipient in s.devices && OwnKeys(p, s.devices[r.sender])
            && GoodEntry(p, r.sender, r.recipient, s.devices[r.sender].keys, Some(s.devices[r.recipient].keys), e)
            && e.env == r.env && id in s.original && e.msg.text == s.original[id]
  {
    hide GoodEntry, OwnKeys, UserId, Increasing, GenuinePins, GoodAccepted, Log;
    assert RowOfEntry(s, id);
    var r := s.rows[id];
    assert PairInv(p, s, r.sender, r.recipient);
    var log := Log(s.sealed, r.sender, r.recipient);
    var i :| 0 <= i < |log| && log[i].env == r.env && log[i].msg.text == s.original[id];
    e := log[i];
  }

  // ----- preservation -----

  lemma RowStays(s: System, s': System, id: string)
    requires RowOfEntry(s, id) && id in s.rows && id in s.original
    requires id in s'.rows && id in s'.original && s'.rows[id] == s.rows[id] && s'.original[id] == s.original[id]
    requires s'.devices.Keys == s.devices.Keys
    requires Log(s.sealed, s.rows[id].sender, s.rows[id].recipient)
          <= Log(s'.sealed, s.rows[id].sender, s.rows[id].recipient)
    ensures RowOfEntry(s', id)
  {
    var r := s.rows[id];
    var i :| 0 <= i < |Log(s.sealed, r.sender, r.recipient)|
             && Log(s.sealed, r.sender, r.recipient)[i].env == r.env
             && Log(s.sealed, r.sender, r.recipient)[i].msg.text == s.original[id];
    assert Log(s'.sealed, r.sender, r.recipient)[i] == Log(s.sealed, r.sender, r.recipient)[i];
  }

  lemma LogsOnlyGrow(p: Primitives, s: System, act: Action, a: string, b: string)
    requires Enabled(s, act)
    ensures Log(s.sealed, a, b) <= Log(Step(p, s, act).sealed, a, b)
  {
    hide Prepare, ShowOne, ShowOwn;
  }

  lemma RowsOnlyGrow(p: Primitives, s: System, act: Action, id: string)
    requires Enabled(s, act) && RowsFiled(s) && id in s.rows
    ensures id in Step(p, s, act).rows && Step(p, s, act).rows[id] == s.rows[id]
    ensures id in Step(p, s, act).original && Step(p, s, act).original[id] == s.original[id]
  {
    hide Prepare, ShowOne, ShowOwn, RowOfEntry;
  }

  lemma NewRow(p: Primitives, s: System, act: Action, id: string)
    requires Enabled(s, act) && Faithful(s, act) && RowsFiled(s) && id !in s.rows
    ensures id in Step(p, s, act).rows <==> id in Step(p, s, act).original
    ensures id in Step(p, s, act).rows ==> RowOfEntry(Step(p, s, act), id)
  {
    hide Prepare, ShowOne, ShowOwn;
    if act.Store? && act.id == id {
      assert Log(s.sealed, act.sealer, act.to)[act.index].env == Step(p, s, act).rows[id].env;
    }
  }

  lemma {:induction false} StepKeepsRow(p: Primitives, s: System, act: Action, id: string)
    requires Inv(p, s) && Allowed(p, s, act) && Faithful(s, act) && RowsFiled(s)
    ensures id in Step(p, s, act).rows <==> id in Step(p, s, act).original
    ensures RowOfEntry(Step(p, s, act), id)
  {
    hide Step, Inv, Enabled, FirstContactGenuine, Unforged, RowOfEntry, Faithful, Log;
    assert RowOfEntry(s, id);
    if id in s.rows {
      StepKeepsUsers(p, s, act);
      LogsOnlyGrow(p, s, act, s.rows[id].sender, s.rows[id].recipient);
      RowsOnlyGrow(p, s, act, id);
      RowStays(s, Step(p, s, act), id);
    } else {
      NewRow(p, s, act, id);
      NoRow(Step(p, s, act), id);
    }
  }

  lemma NoRow(s: System, id: string)
    ensures id !in s.rows ==> RowOfEntry(s, id)
  {
  }

  lemma {:induction false} StepKeepsRows(p: Primitives, s: System, act: Action)
    requires Inv(p, s) && Allowed(p, s, act) && Faithful(s, act) && RowsFiled(s)
    ensures RowsFiled(Step(p, s, act))
  {
    hide Step, Inv, Enabled, FirstContactGenuine, Unforged, RowOfEntry, Faithful;
    forall id
      ensures (id in Step(p, s, act).rows <==> id in Step(p, s, act).original) && RowOfEntry(Step(p, s, act), id)
    {
      StepKeepsRow(p, s, act, id);
    }
  }

  /** The originals stay, and one device's cache gained at most the original of one id. */
  lemma CacheTrueAfter(s: System, s': System, u: string, x: string, id: string)
    requires CacheTrue(s, u) && x in s.devices && x in s'.devices && s'.devices == s.devices[x := s'.devices[x]]
    requires forall k :: k in s.original ==> k in s'.original && s'.original[k] == s.original[k]
    requires forall k :: k in s'.devices[x].cache ==>
               || (k in s.devices[x].cache && s'.devices[x].cache[k] == s.devices[x].cache[k])
               || (k == id && id in s.original && s'.devices[x].cache[k] == s.original[id])
    ensures CacheTrue(s', u)
  {
    hide RowOfEntry;
  }

  lemma OriginalsStay(p: Primitives, s: System, act: Action)
    requires Enabled(s, act) && RowsFiled(s)
    ensures forall k :: k in s.original ==>
              k in Step(p, s, act).original && Step(p, s, act).original[k] == s.original[k]
  {
    hide Step, RowOfEntry;
    forall k | k in s.original ensures k in Step(p, s, act).original && Step(p, s, act).original[k] == s.original[k] {
      RowsOnlyGrow(p, s, act, k);
    }
  }

  lemma {:induction false} InboxKeepsCache(p: Primitives, s: System, b: string, m: Message, dir: Directory, u: string)
    requires Lawful(p) && Inv(p, s) && RowsFiled(s) && CacheTrue(s, u)
    requires Allowed(p, s, ShowInbox(b, m, dir)) && Faithful(s, ShowInbox(b, m, dir))
    ensures CacheTrue(ShowStep(p, s, b, m, dir), u)
  {
    hide FirstContactGenuine, Unforged, Inv, ShowOne, RowOfEntry, RowsFiled, Log, Judge, Lawful, CacheTrue, LastRecv,
        GateOpens;
    InboxOpensOriginal(p, s, b, m, dir);
    ShowCounters(p, s, b, m, dir, m.sender);
    OriginalsStay(p, s, ShowInbox(b, m, dir));
    CacheTrueAfter(s, ShowStep(p, s, b, m, dir), u, b, m.id);
  }

  lemma {:induction false} StepKeepsCache(p: Primitives, s: System, act: Action, u: string)
    requires Lawful(p) && Inv(p, s) && Allowed(p, s, act) && Faithful(s, act) && RowsFiled(s) && CacheTrue(s, u)
    ensures CacheTrue(Step(p, s, act), u)
  {
    hide FirstContactGenuine, Unforged, Inv, Prepare, ShowStep, ShowOwn, RowsFiled, Log, Lawful, CacheTrue;
    OriginalsStay(p, s, act);
    var s' := Step(p, s, act);
    match act
    case ShowInbox(b, m, dir) => InboxKeepsCache(p, s, b, m, dir, u);
    case ShowSent(a, id, to, env, offered) =>
      SentOpensOriginal(p, s, act);
      CacheTrueAfter(s, s', u, a, id);
    case KeepSent(id, a, b, i) =>
      KeptSentIsOriginal(p, s, id, a, b, i);
      CacheTrueAfter(s, s', u, a, id);
    case SealNext(a, _, _, _, _) => CacheTrueAfter(s, s', u, a, "");
    case Forget(a, id) => CacheTrueAfter(s, s', u, a, id);
    case Store(_, _, _, _) => DevicesKeepCache(s, s', u);
  }

  lemma DevicesKeepCache(s: System, s': System, u: string)
    requires CacheTrue(s, u) && s'.devices == s.devices
    requires forall k :: k in s.original ==> k in s'.original && s'.original[k] == s.original[k]
    ensures CacheTrue(s', u)
  {
  }

  lemma KeptSentIsOriginal(p: Primitives, s: System, id: string, a: string, b: string, i: nat)
    requires Inv(p, s) && RowsFiled(s) && id in s.rows && i < |Log(s.sealed, a, b)|
    requires s.rows[id] == Row(a, b, Log(s.sealed, a, b)[i].env)
    ensures id in s.original && Log(s.sealed, a, b)[i].msg.text == s.original[id]
  {
    hide GoodEntry, GenuinePins, GoodAccepted, OwnKeys, UserId, Increasing;
    assert RowOfEntry(s, id);
    assert PairInv(p, s, a, b);
    var e := Log(s.sealed, a, b)[i];
    EntryNumber(p, a, b, s.devices[a].keys, KeysOf(DeviceOf(s, b)), e);
    assert Numbers(Log(s.sealed, a, b))[i] == e.msg;
    EnvelopeDecidesText(p, s, id, e.msg);
  }

  lemma {:induction false} RunKeepsRowsAndCaches(p: Primitives, s0: System, acts: seq<Action>, u: string)
    requires Lawful(p) && Initial(p, s0) && FaithfulRun(p, s0, acts)
    ensures RowsFiled(After(p, s0, acts)) && CacheTrue(After(p, s0, acts), u)
  {
    if acts != [] {
      hide Step, Inv, Initial, Lawful, RowsFiled, CacheTrue, Faithful;
      var init, act := acts[..|acts| - 1], acts[|acts| - 1];
      RunKeepsRowsAndCaches(p, s0, init, u);
      RunKeepsInv(p, s0, init);
      StepKeepsRows(p, After(p, s0, init), act);
      StepKeepsCache(p, After(p, s0, init), act, u);
    }
  }

  /** In every faithful run each cached text is the text originally sealed for that message or share:
      kept on send, opened in the inbox, re-opened after a replay or re-opened as one's own.
      No placeholder is ever cached. */
  lemma {:induction false} CacheHoldsOriginals(p: Primitives, s0: System, acts: seq<Action>, u: string, id: string)
    requires Lawful(p) && Initial(p, s0) && FaithfulRun(p, s0, acts) && u in s0.devices
    ensures var s := After(p, s0, acts);
            && u in s.devices
            && (id in s.devices[u].cache ==> id in s.original && s.devices[u].cache[id] == s.original[id])
  {
    RunKeepsInv(p, s0, acts);
    RunKeepsRowsAndCaches(p, s0, acts, u);
  }
}
