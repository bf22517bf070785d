// The whole system: many devices sealing, a transport that may drop, repeat,
// delay, reorder, relabel or corrupt, and clients opening what they are shown.
module Protocol {
  import opened Wrappers
  import opened Encoding
  import opened Primitives
  import opened Messaging
  import opened Keystore
  import opened KeyService
  import opened MessageService
  import opened Inbox

  datatype Device = Device(keys: PrivateKeys, file: KeyFile, cache: map<string, string>)

  /** A numbered text, as sealed or as accepted. */
  datatype Numbered = Numbered(seqNo: int, text: string)

  datatype Entry = Entry(msg: Numbered, env: Envelope)

  /** A stored message or share row: both tables hold an envelope from one user to another. */
  datatype Row = Row(sender: string, recipient: string, env: Envelope)

  /** The devices and the server's rows, with three histories: what each user sealed for each other,
      what each accepted from each other, and the text first sealed for each row. */
  datatype System = System(devices: map<string, Device>, rows: map<string, Row>,
                           sealed: map<(string, string), seq<Entry>>, accepted: map<(string, string), seq<Numbered>>,
                           original: map<string, string>)

  datatype Action =
    | SealNext(sealer: string, to: string, text: string, served: seq<ServedKey>, nonce: Bytes)
    | Store(id: string, sealer: string, to: string, index: nat)
    | KeepSent(id: string, sealer: string, to: string, index: nat)
    | ShowInbox(user: string, msg: Message, dir: Directory)
    | ShowSent(user: string, id: string, to: string, env: Envelope, offered: Option<seq<ServedKey>>)
    | Forget(user: string, id: string)

  function Log<T>(m: map<(string, string), seq<T>>, a: string, b: string): seq<T>
  {
    if (a, b) in m then m[(a, b)] else []
  }

  function WhoIs(p: Primitives, user: string, d: Device): Identity
  {
    Identity(p, user, Some(d.keys), true)
  }

  function ClientOf(d: Device): Client
  {
    Client(d.file, d.cache, map[], {}, [])
  }

  /** The inner loop of `_decrypt_sent` for one message. */
  function ShowOwn(p: Primitives, user: string, d: Device, id: string, to: string, env: Envelope,
                   served: Option<seq<ServedKey>>): Device
  {
    if id in d.cache || env.ciphertext == [] || served.None? then d
    else
      var fetched := FetchAndPin(d.file, to, served.value);
      var d' := d.(file := fetched.file);
      match DecryptOwn(p, fetched.file, Some(d.keys), user, to, env, fetched.keys)
      case Err(_) => d'
      case Ok(text) => if id == "" then d' else d'.(cache := d.cache[id := text])
  }

  function SealStep(p: Primitives, s: System, a: string, b: string, text: string, served: seq<ServedKey>,
                    nonce: Bytes): System
    requires a in s.devices
  {
    var d := s.devices[a];
    var outcome := Prepare(p, d.file, Some(d.keys), a, b, text, served, nonce);
    var s' := s.(devices := s.devices[a := d.(file := outcome.file)]);
    match outcome.result
    case Err(_) => s'
    case Ok(env) => s'.(sealed := s.sealed[(a, b) := Log(s.sealed, a, b) + [Entry(Numbered(env.seqNo, text), env)]])
  }

  function ShowStep(p: Primitives, s: System, b: string, m: Message, dir: Directory): System
    requires b in s.devices
  {
    var d := s.devices[b];
    var c := ShowOne(WhoIs(p, b, d), dir, ClientOf(d), m);
    var s' := s.(devices := s.devices[b := d.(file := c.file, cache := c.cache)]);
    if c.accepted == [] then s'
    else
      var n := Numbered(c.accepted[0].seqNo, c.accepted[0].text);
      s'.(accepted := s.accepted[(m.sender, b) := Log(s.accepted, m.sender, b) + [n]])
  }

  /** Dropping, repeating, delaying and reordering are the choice of which actions occur. */
  function Step(p: Primitives, s: System, act: Action): System
    requires Enabled(s, act)
  {
    match act
    case SealNext(a, b, text, served, nonce) => SealStep(p, s, a, b, text, served, nonce)
    case Store(id, a, b, i) =>
      var e := Log(s.sealed, a, b)[i];
      s.(rows := s.rows[id := Row(a, b, e.env)], original := s.original[id := e.msg.text])
    case KeepSent(id, a, b, i) =>
      var d := s.devices[a];
      s.(devices := s.devices[a := d.(cache := d.cache[id := Log(s.sealed, a, b)[i].msg.text])])
    case ShowInbox(b, m, dir) => ShowStep(p, s, b, m, dir)
    case ShowSent(a, id, to, env, offered) =>
      s.(devices := s.devices[a := ShowOwn(p, a, s.devices[a], id, to, env, offered)])
    case Forget(a, id) =>
      var d := s.devices[a];
      s.(devices := s.devices[a := d.(cache := d.cache - {id})])
  }

  predicate Enabled(s: System, act: Action)
  {
    match act
    case SealNext(a, b, _, _, nonce) => a in s.devices && UserId(b) && |nonce| == NONCE_BYTES
    case Store(id, a, b, i) => id !in s.rows && i < |Log(s.sealed, a, b)|
    case KeepSent(_, a, b, i) => a in s.devices && i < |Log(s.sealed, a, b)|
    case ShowInbox(b, _, _) => b in s.devices
    case ShowSent(a, _, _, _, _) => a in s.devices
    case Forget(a, _) => a in s.devices
  }

  // ----- what the environment may not do -----

  /** Trust on first use: a key that is about to be pinned for a real user is that user's own. */
  ghost predicate FirstContactGenuine(p: Primitives, s: System, user: string, peer: string, served: seq<ServedKey>)
  {
    peer in s.devices && user in s.devices ==>
      var f, keys := s.devices[user].file, s.devices[peer].keys;
      && (Pinned(f, peer, X25519).None? && First(served, X25519).Some? ==>
            First(served, X25519).value == p.dh.xPub(keys.x25519))
      && (Pinned(f, peer, Ed25519).None? && First(served, Ed25519).Some? ==>
            First(served, Ed25519).value == p.ed.pub(keys.ed25519))
  }

  /** Among what a sealed for b there is a ciphertext c under nonce n and associated data aad. */
  ghost predicate Encrypted(p: Primitives, s: System, a: string, b: string, n: Bytes, c: Bytes, aad: Bytes)
  {
    exists i :: 0 <= i < |Log(s.sealed, a, b)| &&
      Log(s.sealed, a, b)[i].env.nonce == n && Log(s.sealed, a, b)[i].env.ciphertext == c &&
      BuildAad(p, a, b, Log(s.sealed, a, b)[i].env.seqNo) == aad
  }

  /** Nobody forges a ciphertext: what the AEAD opens under the key two users share was encrypted by one of
      the two, for the other, with that very nonce and associated data. */
  ghost predicate Unforged(p: Primitives, s: System, a: string, b: string, env: Envelope)
  {
    a in s.devices && b in s.devices ==>
      var key := MessageKey(p, s.devices[b].keys.x25519, p.dh.xPub(s.devices[a].keys.x25519));
      var aad := BuildAad(p, a, b, env.seqNo);
      key.Some? && p.aead.unseal(key.value, env.nonce, env.ciphertext, aad).Some? ==>
        || Encrypted(p, s, a, b, env.nonce, env.ciphertext, aad)
        || Encrypted(p, s, b, a, env.nonce, env.ciphertext, aad)
  }

  ghost predicate Allowed(p: Primitives, s: System, act: Action)
  {
    && Enabled(s, act)
    && match act
       case SealNext(a, b, _, served, _) => FirstContactGenuine(p, s, a, b, served)
       case ShowInbox(b, m, dir) =>
         && (dir(m).Some? ==> FirstContactGenuine(p, s, b, m.sender, dir(m).value))
         && Unforged(p, s, m.sender, b, m.env)
       case ShowSent(a, _, to, _, served) => served.Some? ==> FirstContactGenuine(p, s, a, to, served.value)
       case _ => true
  }

  ghost predicate Initial(p: Primitives, s: System)
  {
    && s.sealed == map[] && s.accepted == map[] && s.rows == map[] && s.original == map[]
    && forall u :: u in s.devices ==>
         && UserId(u) && s.devices[u].cache == map[]
         && s.devices[u].file.peers == map[] && s.devices[u].file.seqSend == map[] && s.devices[u].file.seqRecv == map[]
         && OwnKeys(p, s.devices[u])
  }

  ghost predicate OwnKeys(p: Primitives, d: Device)
  {
    d.file.own == PeerKeys(Some(p.dh.xPub(d.keys.x25519)), Some(p.ed.pub(d.keys.ed25519)))
  }

  ghost predicate ValidRun(p: Primitives, s0: System, acts: seq<Action>)
    decreases |acts|, 0
  {
    acts == []
    || (ValidRun(p, s0, acts[..|acts| - 1]) && Allowed(p, After(p, s0, acts[..|acts| - 1]), acts[|acts| - 1]))
  }

  ghost function After(p: Primitives, s0: System, acts: seq<Action>): System
    requires ValidRun(p, s0, acts)
    decreases |acts|, 1
  {
    if acts == [] then s0 else Step(p, After(p, s0, acts[..|acts| - 1]), acts[|acts| - 1])
  }

  // ----- the invariant, one user or one pair of users at a time -----

  ghost predicate GenuinePins(p: Primitives, f: KeyFile, peer: string, keys: PrivateKeys)
  {
    && (Pinned(f, peer, X25519).Some? ==> Pinned(f, peer, X25519).value == p.dh.xPub(keys.x25519))
    && (Pinned(f, peer, Ed25519).Some? ==> Pinned(f, peer, Ed25519).value == p.ed.pub(keys.ed25519))
  }

  ghost predicate Increasing(ms: seq<Numbered>)
  {
    forall i, j :: 0 <= i < j < |ms| ==> ms[i].seqNo < ms[j].seqNo
  }

  /** The envelope is the entry's text sealed under its number, to the recipient's own key when there is one. */
  ghost predicate GoodEntry(p: Primitives, a: string, b: string, ka: PrivateKeys, kb: Option<PrivateKeys>, e: Entry)
  {
    && e.env.seqNo == e.msg.seqNo && |e.env.nonce| == NONCE_BYTES && UserId(b)
    && (kb.Some? ==> Seal(p, e.msg.text, a, b, e.msg.seqNo, ka.x25519, ka.ed25519, p.dh.xPub(kb.value.x25519),
                          e.env.nonce)
                     == Some(e.env))
  }

  function Numbers(log: seq<Entry>): (r: seq<Numbered>)
    ensures |r| == |log| && forall i :: 0 <= i < |log| ==> r[i] == log[i].msg
  {
    seq(|log|, i requires 0 <= i < |log| => log[i].msg)
  }

  ghost predicate GoodLog(p: Primitives, a: string, b: string, ka: PrivateKeys, kb: Option<PrivateKeys>, count: int,
                          log: seq<Entry>)
  {
    && Increasing(Numbers(log))
    && (forall i :: 0 <= i < |log| ==> GoodEntry(p, a, b, ka, kb, log[i]) && 1 <= log[i].msg.seqNo <= count)
    && 0 <= count
  }

  ghost predicate GoodAccepted(log: seq<Entry>, accepted: seq<Numbered>, last: Option<int>)
  {
    && Increasing(accepted)
    && (forall n :: n in accepted ==> n in Numbers(log))
    && (accepted != [] ==> last.Some?)
    && (forall n :: n in accepted ==> last.Some? && n.seqNo <= last.value)
  }

  function DeviceOf(s: System, u: string): Option<Device>
  {
    if u in s.devices then Some(s.devices[u]) else None
  }

  function KeysOf(d: Option<Device>): Option<PrivateKeys>
  {
    if d.Some? then Some(d.value.keys) else None
  }

  ghost predicate GoodPair(p: Primitives, a: string, b: string, da: Device, db: Option<Device>, log: seq<Entry>,
                           accepted: seq<Numbered>)
  {
    && GoodLog(p, a, b, da.keys, KeysOf(db), SendCount(da.file, b), log)
    && (db.Some? ==>
          GenuinePins(p, da.file, b, db.value.keys) && GoodAccepted(log, accepted, LastRecv(db.value.file, a)))
  }

  ghost predicate PairInv(p: Primitives, s: System, a: string, b: string)
  {
    a in s.devices ==> GoodPair(p, a, b, s.devices[a], DeviceOf(s, b), Log(s.sealed, a, b), Log(s.accepted, a, b))
  }

  ghost predicate Inv(p: Primitives, s: System)
  {
    && (forall u :: u in s.devices ==> UserId(u) && OwnKeys(p, s.devices[u]))
    && (forall a, b :: PairInv(p, s, a, b))
  }

  // ----- preservation -----

  lemma PinsStayGenuine(p: Primitives, f: KeyFile, user: string, served: seq<ServedKey>, peer: string,
                        keys: PrivateKeys)
    requires GenuinePins(p, f, peer, keys)
    requires peer == user ==>
      && (Pinned(f, peer, X25519).None? && First(served, X25519).Some? ==>
            First(served, X25519).value == p.dh.xPub(keys.x25519))
      && (Pinned(f, peer, Ed25519).None? && First(served, Ed25519).Some? ==>
            First(served, Ed25519).value == p.ed.pub(keys.ed25519))
    ensures GenuinePins(p, FetchAndPin(f, user, served).file, peer, keys)
    ensures peer == user ==>
      var fetched := FetchAndPin(f, user, served).keys;
      && (fetched.x25519.Some? ==> fetched.x25519.value == p.dh.xPub(keys.x25519))
      && (fetched.ed25519.Some? ==> fetched.ed25519.value == p.ed.pub(keys.ed25519))
  {
    PinsAreForever(f, user, served, peer, X25519);
    PinsAreForever(f, user, served, peer, Ed25519);
  }

  lemma GenuinePinsByPeers(p: Primitives, f: KeyFile, g: KeyFile, peer: string, keys: PrivateKeys)
    requires GenuinePins(p, f, peer, keys) && f.peers == g.peers
    ensures GenuinePins(p, g, peer, keys)
  {
  }

  lemma PrepareEffect(p: Primitives, f: KeyFile, keys: PrivateKeys, me: string, to: string, text: string,
                      served: seq<ServedKey>, nonce: Bytes)
    ensures var fetched := FetchAndPin(f, to, served);
            var outcome := Prepare(p, f, Some(keys), me, to, text, served, nonce);
            && outcome.file.peers == fetched.file.peers
            && outcome.file.own == f.own && outcome.file.seqRecv == f.seqRecv
            && (forall r :: r != to ==> SendCount(outcome.file, r) == SendCount(f, r))
            && SendCount(f, to) <= SendCount(outcome.file, to)
            && (outcome.result.Ok? ==>
                  && fetched.keys.x25519.Some? && outcome.result.value.nonce == nonce
                  && SendCount(outcome.file, to) == SendCount(f, to) + 1
                  && Seal(p, text, me, to, SendCount(f, to) + 1, keys.x25519, keys.ed25519, fetched.keys.x25519.value,
                          nonce)
                     == Some(outcome.result.value))
  {
    PinsAreForever(f, to, served, to, X25519);
    hide Seal, FetchAndPin;
    var fetched := FetchAndPin(f, to, served);
    if fetched.keys.x25519.Some? {
      SealShape(p, text, me, to, SendCount(f, to) + 1, keys.x25519, keys.ed25519, fetched.keys.x25519.value, nonce);
    }
  }

  lemma SealShape(p: Primitives, text: string, me: string, to: string, seqNo: int, x: Bytes, ed: Bytes, peer: Bytes,
                  nonce: Bytes)
    ensures var r := Seal(p, text, me, to, seqNo, x, ed, peer, nonce);
            r.Some? ==> r.value.seqNo == seqNo && r.value.nonce == nonce
  {
  }

  /** What the AEAD opens between two honest users was sealed by the one for the other: the associated data
      tells the directions apart. */
  lemma OpenedIsEntry(p: Primitives, s: System, a: string, b: string, env: Envelope) returns (i: nat)
    requires Lawful(p) && a in s.devices && b in s.devices && UserId(a) && UserId(b) && Unforged(p, s, a, b, env)
    requires var key := MessageKey(p, s.devices[b].keys.x25519, p.dh.xPub(s.devices[a].keys.x25519));
             key.Some? && p.aead.unseal(key.value, env.nonce, env.ciphertext, BuildAad(p, a, b, env.seqNo)).Some?
    ensures i < |Log(s.sealed, a, b)|
    ensures var e := Log(s.sealed, a, b)[i].env;
            e.nonce == env.nonce && e.ciphertext == env.ciphertext && e.seqNo == env.seqNo
  {
    hide MessageKey, BuildAad, UserId;
    var aad := BuildAad(p, a, b, env.seqNo);
    if Encrypted(p, s, a, b, env.nonce, env.ciphertext, aad) {
      i :| i < |Log(s.sealed, a, b)| && Log(s.sealed, a, b)[i].env.nonce == env.nonce
           && Log(s.sealed, a, b)[i].env.ciphertext == env.ciphertext
           && BuildAad(p, a, b, Log(s.sealed, a, b)[i].env.seqNo) == aad;
      AadInjective(p, a, b, Log(s.sealed, a, b)[i].env.seqNo, a, b, env.seqNo);
    } else {
      i :| i < |Log(s.sealed, b, a)| && Log(s.sealed, b, a)[i].env.nonce == env.nonce
           && Log(s.sealed, b, a)[i].env.ciphertext == env.ciphertext
           && BuildAad(p, b, a, Log(s.sealed, b, a)[i].env.seqNo) == aad;
      AadInjective(p, b, a, Log(s.sealed, b, a)[i].env.seqNo, a, b, env.seqNo);
    }
  }

  /** What opens under honest keys was sealed, number and text, by that sender for that recipient. */
  lemma OpenedWasSealed(p: Primitives, s: System, a: string, b: string, env: Envelope, text: string)
    requires Lawful(p) && a in s.devices && b in s.devices && UserId(a) && UserId(b)
    requires PairInv(p, s, a, b) && Unforged(p, s, a, b, env)
    requires OpenMessage(p, env, a, b, s.devices[b].keys.x25519, p.dh.xPub(s.devices[a].keys.x25519),
                         p.ed.pub(s.devices[a].keys.ed25519), None, false) == Ok((text, env.seqNo))
    ensures Numbered(env.seqNo, text) in Numbers(Log(s.sealed, a, b))
  {
    hide OpenMessage, SignedPayload, BuildAad, UserId, Unforged, MessageKey;
    var ka, kb := s.devices[a].keys, s.devices[b].keys;
    var aad := BuildAad(p, a, b, env.seqNo);
    OpenExactly(p, env, a, b, kb.x25519, p.dh.xPub(ka.x25519), p.ed.pub(ka.ed25519), None, false, text);
    KeyAgreement(p, ka.x25519, kb.x25519);
    var key := MessageKey(p, ka.x25519, p.dh.xPub(kb.x25519)).value;
    SealedOpens(p, key, env.nonce, text, aad);
    var i := OpenedIsEntry(p, s, a, b, env);
    var e := Log(s.sealed, a, b)[i];
    assert GoodEntry(p, a, b, ka, Some(kb), e);
    SealedOpens(p, key, env.nonce, e.msg.text, aad);
    EncodeInjective(p, text, e.msg.text);
    assert Numbers(Log(s.sealed, a, b))[i] == Numbered(env.seqNo, text);
  }

  lemma SealedOpens(p: Primitives, key: Bytes, nonce: Bytes, text: string, aad: Bytes)
    requires LawfulAead(p)
    ensures p.aead.unseal(key, nonce, p.aead.seal(key, nonce, p.text.encode(text), aad), aad)
         == Some(p.text.encode(text))
  {
  }

  lemma IncreasingSnoc(ms: seq<Numbered>, n: Numbered)
    requires Increasing(ms) && forall m :: m in ms ==> m.seqNo < n.seqNo
    ensures Increasing(ms + [n])
  {
  }

  lemma LogGrows(p: Primitives, a: string, b: string, ka: PrivateKeys, kb: Option<PrivateKeys>, count: int,
                 log: seq<Entry>, e: Entry)
    requires GoodLog(p, a, b, ka, kb, count, log) && GoodEntry(p, a, b, ka, kb, e) && e.msg.seqNo == count + 1
    ensures GoodLog(p, a, b, ka, kb, count + 1, log + [e])
  {
    hide GoodEntry;
    assert Numbers(log + [e]) == Numbers(log) + [e.msg];
    forall m | m in Numbers(log) ensures m.seqNo < e.msg.seqNo {
      var i :| 0 <= i < |log| && Numbers(log)[i] == m;
      assert log[i].msg == m;
    }
    IncreasingSnoc(Numbers(log), e.msg);
  }

  lemma AcceptedStays(log: seq<Entry>, accepted: seq<Numbered>, last: Option<int>, e: Entry)
    requires GoodAccepted(log, accepted, last)
    ensures GoodAccepted(log + [e], accepted, last)
  {
    forall n | n in accepted ensures n in Numbers(log + [e]) {
      var i :| 0 <= i < |log| && Numbers(log)[i] == n;
      assert Numbers(log + [e])[i] == n;
    }
  }

  lemma LogStays(p: Primitives, a: string, b: string, ka: PrivateKeys, kb: Option<PrivateKeys>, count: int,
                 log: seq<Entry>, later: int)
    requires GoodLog(p, a, b, ka, kb, count, log) && count <= later
    ensures GoodLog(p, a, b, ka, kb, later, log)
  {
    hide GoodEntry;
  }

  /** Neither side's change concerns this pair. */
  lemma PairStays(p: Primitives, a: string, b: string, da: Device, db: Option<Device>, log: seq<Entry>,
                  accepted: seq<Numbered>, da': Device, db': Option<Device>)
    requires GoodPair(p, a, b, da, db, log, accepted)
    requires da'.keys == da.keys && SendCount(da.file, b) <= SendCount(da'.file, b)
    requires db.Some? ==> GenuinePins(p, da'.file, b, db.value.keys)
    requires KeysOf(db') == KeysOf(db) && (db.Some? ==> LastRecv(db'.value.file, a) == LastRecv(db.value.file, a))
    ensures GoodPair(p, a, b, da', db', log, accepted)
  {
    LogStays(p, a, b, da.keys, KeysOf(db), SendCount(da.file, b), log, SendCount(da'.file, b));
    hide GoodLog, GoodAccepted, GenuinePins, SendCount, LastRecv;
  }

  /** Sealing takes the next number of this pair and files the text under it. */
  lemma SealGrowsLog(p: Primitives, a: string, b: string, d: Device, f: KeyFile, db: Option<Device>,
                     db': Option<Device>,
                     log: seq<Entry>, accepted: seq<Numbered>, text: string, env: Envelope, peerX: Bytes)
    requires GoodPair(p, a, b, d, db, log, accepted) && UserId(b) && |env.nonce| == NONCE_BYTES
    requires SendCount(f, b) == SendCount(d.file, b) + 1
    requires Seal(p, text, a, b, SendCount(d.file, b) + 1, d.keys.x25519, d.keys.ed25519, peerX, env.nonce) == Some(env)
    requires db.Some? ==> peerX == p.dh.xPub(db.value.keys.x25519) && GenuinePins(p, f, b, db.value.keys)
    requires KeysOf(db') == KeysOf(db) && (db.Some? ==> LastRecv(db'.value.file, a) == LastRecv(db.value.file, a))
    ensures GoodPair(p, a, b, d.(file := f), db', log + [Entry(Numbered(env.seqNo, text), env)], accepted)
  {
    SealShape(p, text, a, b, SendCount(d.file, b) + 1, d.keys.x25519, d.keys.ed25519, peerX, env.nonce);
    var e := Entry(Numbered(env.seqNo, text), env);
    assert GoodEntry(p, a, b, d.keys, KeysOf(db), e);
    LogGrows(p, a, b, d.keys, KeysOf(db), SendCount(d.file, b), log, e);
    if db.Some? {
      AcceptedStays(log, accepted, LastRecv(db.value.file, a), e);
    }
    hide Seal, GoodLog, GoodAccepted, GenuinePins, GoodEntry;
  }

  /** The device after sealing, as far as one pair can tell. */
  lemma {:induction false} SealDevice(p: Primitives, s: System, x: string, y: string, text: string,
                                      served: seq<ServedKey>, nonce: Bytes, b: string)
    requires x in s.devices && PairInv(p, s, x, b) && FirstContactGenuine(p, s, x, y, served)
    ensures var f, g := s.devices[x].file, SealStep(p, s, x, y, text, served, nonce).devices[x].file;
            && SendCount(f, b) <= SendCount(g, b) && f.seqRecv == g.seqRecv && f.own == g.own
            && (b in s.devices ==> GenuinePins(p, g, b, s.devices[b].keys))
  {
    hide Prepare, Seal, FetchAndPin, GoodLog, GoodAccepted, GenuinePins, Pinned, First;
    var d := s.devices[x];
    PrepareEffect(p, d.file, d.keys, x, y, text, served, nonce);
    if b in s.devices {
      PinsStayGenuine(p, d.file, y, served, b, s.devices[b].keys);
      GenuinePinsByPeers(p, FetchAndPin(d.file, y, served).file,
                         Prepare(p, d.file, Some(d.keys), x, y, text, served, nonce).file, b, s.devices[b].keys);
    }
  }

  /** Replacing one device keeps a pair whose logs and pins it does not disturb. */
  lemma DevicesAgree(p: Primitives, s: System, s': System, x: string, a: string, b: string)
    requires x in s.devices && x in s'.devices && s'.devices == s.devices[x := s'.devices[x]]
    requires s'.devices[x].keys == s.devices[x].keys
    requires b == x ==> LastRecv(s'.devices[x].file, a) == LastRecv(s.devices[x].file, a)
    requires SendCount(s.devices[x].file, b) <= SendCount(s'.devices[x].file, b)
    requires b in s.devices ==> GenuinePins(p, s'.devices[x].file, b, s.devices[b].keys)
    requires Log(s'.sealed, a, b) == Log(s.sealed, a, b) && Log(s'.accepted, a, b) == Log(s.accepted, a, b)
    requires PairInv(p, s, a, b)
    ensures PairInv(p, s', a, b)
  {
    hide GoodLog, GoodAccepted, GenuinePins, SendCount, LastRecv, Log;
    if a in s.devices {
      var da := if a == x then s'.devices[x] else s.devices[a];
      var db := if b == x then Some(s'.devices[x]) else DeviceOf(s, b);
      assert da == s'.devices[a] && db == DeviceOf(s', b);
      PairStays(p, a, b, s.devices[a], DeviceOf(s, b), Log(s.sealed, a, b), Log(s.accepted, a, b), da, db);
    }
  }

  lemma {:induction false} SealKeepsOthers(p: Primitives, s: System, x: string, y: string, text: string,
                                           served: seq<ServedKey>, nonce: Bytes, a: string, b: string)
    requires x in s.devices && PairInv(p, s, a, b) && PairInv(p, s, x, b) && FirstContactGenuine(p, s, x, y, served)
    requires Log(SealStep(p, s, x, y, text, served, nonce).sealed, a, b) == Log(s.sealed, a, b)
    ensures PairInv(p, SealStep(p, s, x, y, text, served, nonce), a, b)
  {
    hide Prepare, GoodLog, GoodAccepted, GenuinePins, FirstContactGenuine, SendCount, LastRecv, PairInv;
    SealDevice(p, s, x, y, text, served, nonce, b);
    var s' := SealStep(p, s, x, y, text, served, nonce);
    SeqRecvDecides(s.devices[x].file, s'.devices[x].file, a);
    DevicesAgree(p, s, s', x, a, b);
  }

  lemma {:induction false} SealKeepsOwn(p: Primitives, s: System, a: string, b: string, text: string,
                                        served: seq<ServedKey>, nonce: Bytes)
    requires a in s.devices && PairInv(p, s, a, b) && FirstContactGenuine(p, s, a, b, served)
    requires UserId(b) && |nonce| == NONCE_BYTES
    ensures PairInv(p, SealStep(p, s, a, b, text, served, nonce), a, b)
  {
    hide Prepare, Seal, FetchAndPin, GoodLog, GoodAccepted, GenuinePins, FirstContactGenuine, Pinned, First,
        SendCount, LastRecv,
      PairInv, UserId;
    var d, s' := s.devices[a], SealStep(p, s, a, b, text, served, nonce);
    var outcome := Prepare(p, d.file, Some(d.keys), a, b, text, served, nonce);
    if outcome.result.Ok? {
      SealDevice(p, s, a, b, text, served, nonce, b);
      PrepareEffect(p, d.file, d.keys, a, b, text, served, nonce);
      SealedToOwnKey(p, s, a, b, served);
      SeqRecvDecides(d.file, outcome.file, a);
      SealedPair(p, s, s', a, b, text, outcome.result.value, FetchAndPin(d.file, b, served).keys.x25519.value);
    } else {
      SealKeepsOthers(p, s, a, b, text, served, nonce, a, b);
    }
  }

  lemma SealedToOwnKey(p: Primitives, s: System, a: string, b: string, served: seq<ServedKey>)
    requires a in s.devices && PairInv(p, s, a, b) && FirstContactGenuine(p, s, a, b, served)
    ensures var fetched := FetchAndPin(s.devices[a].file, b, served).keys.x25519;
            b in s.devices && fetched.Some? ==> fetched.value == p.dh.xPub(s.devices[b].keys.x25519)
  {
    hide FetchAndPin, GoodLog, GoodAccepted;
    if b in s.devices {
      PinsStayGenuine(p, s.devices[a].file, b, served, b, s.devices[b].keys);
    }
  }

  lemma {:induction false} SealedPair(p: Primitives, s: System, s': System, a: string, b: string, text: string,
                                      env: Envelope, peerX: Bytes)
    requires a in s.devices && a in s'.devices && s'.devices == s.devices[a := s'.devices[a]] && PairInv(p, s, a, b)
    requires s'.devices[a] == s.devices[a].(file := s'.devices[a].file)
    requires Log(s'.accepted, a, b) == Log(s.accepted, a, b)
    requires Log(s'.sealed, a, b) == Log(s.sealed, a, b) + [Entry(Numbered(env.seqNo, text), env)]
    requires UserId(b) && |env.nonce| == NONCE_BYTES
    requires SendCount(s'.devices[a].file, b) == SendCount(s.devices[a].file, b) + 1
    requires LastRecv(s'.devices[a].file, a) == LastRecv(s.devices[a].file, a)
    requires Seal(p, text, a, b, SendCount(s.devices[a].file, b) + 1, s.devices[a].keys.x25519,
                  s.devices[a].keys.ed25519,
                  peerX, env.nonce) == Some(env)
    requires b in s.devices ==> peerX == p.dh.xPub(s.devices[b].keys.x25519)
                                && GenuinePins(p, s'.devices[a].file, b, s.devices[b].keys)
    ensures PairInv(p, s', a, b)
  {
    hide Seal, GoodLog, GoodAccepted, GenuinePins, SendCount, LastRecv, UserId, Log;
    var db := if b == a then Some(s'.devices[a]) else DeviceOf(s, b);
    assert db == DeviceOf(s', b);
    SealGrowsLog(p, a, b, s.devices[a], s'.devices[a].file, DeviceOf(s, b), db, Log(s.sealed, a, b),
                 Log(s.accepted, a, b),
                 text, env, peerX);
  }

  lemma SeqRecvDecides(f: KeyFile, g: KeyFile, a: string)
    requires f.seqRecv == g.seqRecv
    ensures LastRecv(f, a) == LastRecv(g, a)
  {
  }

  /** The device after one step of the inbox pass, as far as one pair can tell. */
  lemma {:induction false} ShowDevice(p: Primitives, s: System, u: string, m: Message, dir: Directory, b: string)
    requires u in s.devices && PairInv(p, s, u, b)
    requires dir(m).Some? ==> FirstContactGenuine(p, s, u, m.sender, dir(m).value)
    ensures var f, g := s.devices[u].file, ShowStep(p, s, u, m, dir).devices[u].file;
            && SendCount(g, b) == SendCount(f, b) && g.own == f.own
            && (b in s.devices ==> GenuinePins(p, g, b, s.devices[b].keys))
  {
    hide ShowOne, Judge, FetchAndPin, KeysFor, GoodLog, GoodAccepted, Pinned, First, GenuinePins, Effect;
    var d := s.devices[u];
    var who, c := WhoIs(p, u, d), ClientOf(d);
    ShowOneEffect(who, dir, c, c, m);
    ShowOnePeers(who, dir, c, m);
    var e := ShowOne(who, dir, c, m);
    if b in s.devices {
      if dir(m).Some? {
        PinsStayGenuine(p, d.file, m.sender, dir(m).value, b, s.devices[b].keys);
      }
      if e.file.peers == d.file.peers {
        GenuinePinsByPeers(p, d.file, e.file, b, s.devices[b].keys);
      } else {
        GenuinePinsByPeers(p, FetchAndPin(d.file, m.sender, dir(m).value).file, e.file, b, s.devices[b].keys);
      }
    }
  }

  predicate GateOpens(d: Device, m: Message, v: Verdict)
  {
    v.Opened? && !IsReplay(LastRecv(d.file, m.sender), m.env.seqNo)
  }

  lemma LastRecvAfter(f: KeyFile, g: KeyFile, sender: string, seqNo: int, moved: bool, a: string)
    requires g.seqRecv == if moved then f.seqRecv[sender := seqNo] else f.seqRecv
    ensures LastRecv(g, a) == if moved && a == sender then Some(seqNo) else LastRecv(f, a)
  {
  }

  /** The counters and the cache after one step, by whether the message passed the gate. */
  lemma {:induction false} ShowCounters(p: Primitives, s: System, u: string, m: Message, dir: Directory, a: string)
    requires u in s.devices
    ensures var d, d' := s.devices[u], ShowStep(p, s, u, m, dir).devices[u];
            var v := Judge(WhoIs(p, u, d), dir, ClientOf(d), m);
            && LastRecv(d'.file, a)
               == (if GateOpens(d, m, v) && a == m.sender then Some(m.env.seqNo) else LastRecv(d.file, a))
            && d'.cache == (if v.Opened? then d.cache[m.id := v.text] else d.cache)
  {
    hide ShowOne, Judge, KeysFor, LastRecv, IsReplay;
    var d := s.devices[u];
    var who, c := WhoIs(p, u, d), ClientOf(d);
    ShowOneEffect(who, dir, c, c, m);
    LastRecvAfter(d.file, ShowOne(who, dir, c, m).file, m.sender, m.env.seqNo, GateOpens(d, m, Judge(who, dir, c, m)),
                  a);
  }

  /** The acceptance history after one step. */
  lemma ShowHistory(p: Primitives, s: System, u: string, m: Message, dir: Directory, a: string, b: string)
    requires u in s.devices
    ensures var d := s.devices[u];
            var v := Judge(WhoIs(p, u, d), dir, ClientOf(d), m);
            Log(ShowStep(p, s, u, m, dir).accepted, a, b)
            == (if GateOpens(d, m, v) && a == m.sender && b == u
                then Log(s.accepted, a, b) + [Numbered(m.env.seqNo, v.text)]
                else Log(s.accepted, a, b))
  {
    hide ShowOne, Judge, KeysFor, LastRecv, IsReplay;
    var d := s.devices[u];
    var who, c := WhoIs(p, u, d), ClientOf(d);
    ShowOneEffect(who, dir, c, c, m);
  }

  lemma AcceptedPair(p: Primitives, s: System, s': System, a: string, u: string, n: Numbered)
    requires a in s.devices && u in s.devices && u in s'.devices && s'.devices == s.devices[u := s'.devices[u]]
    requires s'.devices[u].keys == s.devices[u].keys && PairInv(p, s, a, u)
    requires SendCount(s'.devices[u].file, u) == SendCount(s.devices[u].file, u)
    requires GenuinePins(p, s'.devices[u].file, u, s.devices[u].keys)
    requires !IsReplay(LastRecv(s.devices[u].file, a), n.seqNo) && LastRecv(s'.devices[u].file, a) == Some(n.seqNo)
    requires n in Numbers(Log(s.sealed, a, u)) && Log(s'.sealed, a, u) == Log(s.sealed, a, u)
    requires Log(s'.accepted, a, u) == Log(s.accepted, a, u) + [n]
    ensures PairInv(p, s', a, u)
  {
    hide GoodLog, GenuinePins, SendCount, LastRecv, Log, Numbers;
    var accepted := Log(s.accepted, a, u);
    forall x | x in accepted ensures x.seqNo < n.seqNo {
    }
    IncreasingSnoc(accepted, n);
    hide Increasing;
    var da := if a == u then s'.devices[u] else s.devices[a];
    assert da == s'.devices[a];
  }

  /** What passes the gate was sealed by the sender it claims. */
  lemma {:induction false} AcceptedWasSealed(p: Primitives, s: System, u: string, m: Message, dir: Directory)
    requires Lawful(p) && Inv(p, s) && u in s.devices && m.sender in s.devices
    requires dir(m).Some? ==> FirstContactGenuine(p, s, u, m.sender, dir(m).value)
    requires Unforged(p, s, m.sender, u, m.env)
    requires Judge(WhoIs(p, u, s.devices[u]), dir, ClientOf(s.devices[u]), m).Opened?
    ensures Numbered(m.env.seqNo, Judge(WhoIs(p, u, s.devices[u]), dir, ClientOf(s.devices[u]), m).text)
         in Numbers(Log(s.sealed, m.sender, u))
  {
    hide FetchAndPin, OpenMessage, PairInv, FirstContactGenuine, Unforged, Lawful, Log, Numbers, OwnKeys, UserId;
    var a, d := m.sender, s.devices[u];
    var text := Judge(WhoIs(p, u, d), dir, ClientOf(d), m).text;
    var fetched := FetchAndPin(d.file, a, dir(m).value).keys;
    assert PairInv(p, s, u, a) && PairInv(p, s, a, u);
    FetchedOwnKeys(p, s, u, a, dir(m).value);
    EnforcementIsAFilter(p, m.env, a, u, d.keys.x25519, fetched.x25519.value, fetched.ed25519.value,
                         LastRecv(d.file, a));
    OpenedWasSealed(p, s, a, u, m.env, text);
  }

  lemma FetchedOwnKeys(p: Primitives, s: System, u: string, a: string, served: seq<ServedKey>)
    requires u in s.devices && a in s.devices && PairInv(p, s, u, a) && FirstContactGenuine(p, s, u, a, served)
    ensures var fetched := FetchAndPin(s.devices[u].file, a, served).keys;
            && (fetched.x25519.Some? ==> fetched.x25519.value == p.dh.xPub(s.devices[a].keys.x25519))
            && (fetched.ed25519.Some? ==> fetched.ed25519.value == p.ed.pub(s.devices[a].keys.ed25519))
  {
    hide FetchAndPin, GoodLog, GoodAccepted;
    PinsStayGenuine(p, s.devices[u].file, a, served, a, s.devices[a].keys);
  }

  /** Sealed numbers and texts do not depend on what clients open; only a fresh acceptance changes a pair. */
  lemma {:induction false} ShowKeeps(p: Primitives, s: System, u: string, m: Message, dir: Directory, a: string,
                                     b: string)
    requires Lawful(p) && Inv(p, s) && u in s.devices
    requires dir(m).Some? ==> FirstContactGenuine(p, s, u, m.sender, dir(m).value)
    requires Unforged(p, s, m.sender, u, m.env)
    ensures PairInv(p, ShowStep(p, s, u, m, dir), a, b)
  {
    hide ShowOne, Judge, FirstContactGenuine, Unforged, GenuinePins, SendCount, LastRecv, GoodPair, Lawful, UserId,
        OwnKeys, Log,
      IsReplay, Numbers;
    var s' := ShowStep(p, s, u, m, dir);
    assert PairInv(p, s, a, b) && PairInv(p, s, u, b);
    ShowDevice(p, s, u, m, dir, b);
    ShowCounters(p, s, u, m, dir, a);
    ShowHistory(p, s, u, m, dir, a, b);
    var d := s.devices[u];
    var v := Judge(WhoIs(p, u, d), dir, ClientOf(d), m);
    if GateOpens(d, m, v) && a == m.sender && b == u {
      if a in s.devices {
        AcceptedWasSealed(p, s, u, m, dir);
        AcceptedPair(p, s, s', a, u, Numbered(m.env.seqNo, v.text));
      }
    } else {
      DevicesAgree(p, s, s', u, a, b);
    }
  }

  lemma ShowOwnEffect(p: Primitives, s: System, u: string, id: string, to: string, env: Envelope,
                      offered: Option<seq<ServedKey>>, b: string)
    requires u in s.devices && PairInv(p, s, u, b)
    requires offered.Some? ==> FirstContactGenuine(p, s, u, to, offered.value)
    ensures var d := s.devices[u];
            var d' := ShowOwn(p, u, d, id, to, env, offered);
            && d'.keys == d.keys && d'.file.own == d.file.own && d'.file.seqRecv == d.file.seqRecv
            && d'.file.seqSend == d.file.seqSend
            && (b in s.devices ==> GenuinePins(p, d'.file, b, s.devices[b].keys))
  {
    var d := s.devices[u];
    if offered.Some? {
      PinsAreForever(d.file, to, offered.value, b, X25519);
      hide FetchAndPin, DecryptOwn, GoodLog, GoodAccepted, GenuinePins, Pinned, First;
      if b in s.devices {
        PinsStayGenuine(p, d.file, to, offered.value, b, s.devices[b].keys);
      }
    }
  }

  lemma ShowSentKeeps(p: Primitives, s: System, act: Action, a: string, b: string)
    requires Inv(p, s) && act.ShowSent? && act.user in s.devices
    requires act.offered.Some? ==> FirstContactGenuine(p, s, act.user, act.to, act.offered.value)
    ensures PairInv(p, Step(p, s, act), a, b)
  {
    hide ShowOwn, PairInv, FirstContactGenuine, OwnKeys, UserId, GenuinePins, SendCount, LastRecv;
    var u, s' := act.user, Step(p, s, act);
    assert PairInv(p, s, u, b) && PairInv(p, s, a, b);
    ShowOwnEffect(p, s, u, act.id, act.to, act.env, act.offered, b);
    SeqRecvDecides(s.devices[u].file, s'.devices[u].file, a);
    SeqSendDecides(s.devices[u].file, s'.devices[u].file, b);
    DevicesAgree(p, s, s', u, a, b);
  }

  lemma SeqSendDecides(f: KeyFile, g: KeyFile, b: string)
    requires f.seqSend == g.seqSend
    ensures SendCount(f, b) == SendCount(g, b)
  {
  }

  lemma CacheOnlyKeeps(p: Primitives, s: System, s': System, u: string, a: string, b: string)
    requires PairInv(p, s, a, b) && PairInv(p, s, u, b) && u in s.devices && u in s'.devices
    requires s'.devices == s.devices[u := s'.devices[u]] && s'.devices[u] == s.devices[u].(cache := s'.devices[u].cache)
    requires s'.sealed == s.sealed && s'.accepted == s.accepted
    ensures PairInv(p, s', a, b)
  {
    hide GoodLog, GoodAccepted, GenuinePins, SendCount, LastRecv;
    DevicesAgree(p, s, s', u, a, b);
  }

  lemma {:induction false} StepKeepsPair(p: Primitives, s: System, act: Action, a: string, b: string)
    requires Lawful(p) && Inv(p, s) && Allowed(p, s, act)
    ensures PairInv(p, Step(p, s, act), a, b)
  {
    hide ShowOwn, SealStep, ShowStep, FirstContactGenuine, Unforged, UserId, OwnKeys, Lawful, GoodPair;
    assert PairInv(p, s, a, b);
    match act
    case SealNext(x, y, text, served, nonce) =>
      assert PairInv(p, s, x, b);
      if a == x && b == y {
        SealKeepsOwn(p, s, a, b, text, served, nonce);
      } else {
        SealLogsOne(p, s, x, y, text, served, nonce, a, b);
        SealKeepsOthers(p, s, x, y, text, served, nonce, a, b);
      }
    case ShowInbox(u, m, dir) => ShowKeeps(p, s, u, m, dir, a, b);
    case ShowSent(_, _, _, _, _) => ShowSentKeeps(p, s, act, a, b);
    case Store(_, _, _, _) =>
    case KeepSent(_, u, _, _) =>
      assert PairInv(p, s, u, b);
      CacheOnlyKeeps(p, s, Step(p, s, act), u, a, b);
    case Forget(u, _) =>
      assert PairInv(p, s, u, b);
      CacheOnlyKeeps(p, s, Step(p, s, act), u, a, b);
  }

  lemma SealLogsOne(p: Primitives, s: System, x: string, y: string, text: string, served: seq<ServedKey>, nonce: Bytes,
                    a: string, b: string)
    requires x in s.devices && (a != x || b != y)
    ensures Log(SealStep(p, s, x, y, text, served, nonce).sealed, a, b) == Log(s.sealed, a, b)
  {
    hide Prepare;
    assert (a, b) != (x, y);
  }

  /** The same users with the same key pairs, private and published. */
  ghost predicate SameUsers(s: System, s': System)
  {
    && s'.devices.Keys == s.devices.Keys
    && forall u :: u in s.devices ==>
         s'.devices[u].keys == s.devices[u].keys && s'.devices[u].file.own == s.devices[u].file.own
  }

  lemma OneDeviceChanged(s: System, s': System, u: string)
    requires u in s.devices && u in s'.devices && s'.devices == s.devices[u := s'.devices[u]]
    requires s'.devices[u].keys == s.devices[u].keys && s'.devices[u].file.own == s.devices[u].file.own
    ensures SameUsers(s, s')
  {
  }

  lemma SameUsersTransitive(s: System, s': System, s'': System)
    requires SameUsers(s, s') && SameUsers(s', s'')
    ensures SameUsers(s, s'')
  {
  }

  lemma {:induction false} StepKeepsUsers(p: Primitives, s: System, act: Action)
    requires Inv(p, s) && Allowed(p, s, act)
    ensures SameUsers(s, Step(p, s, act))
  {
    hide FirstContactGenuine, Unforged, UserId, OwnKeys, GoodPair, Prepare, ShowOne, ShowOwn, SameUsers, Log, SendCount,
      LastRecv, GenuinePins;
    var s' := Step(p, s, act);
    match act
    case SealNext(x, y, text, served, nonce) =>
      assert PairInv(p, s, x, y);
      SealDevice(p, s, x, y, text, served, nonce, y);
      OneDeviceChanged(s, s', x);
    case ShowInbox(u, m, dir) =>
      assert PairInv(p, s, u, u);
      ShowDevice(p, s, u, m, dir, u);
      OneDeviceChanged(s, s', u);
    case ShowSent(u, id, to, env, offered) =>
      assert PairInv(p, s, u, u);
      ShowOwnEffect(p, s, u, id, to, env, offered, u);
      OneDeviceChanged(s, s', u);
    case KeepSent(_, u, _, _) => OneDeviceChanged(s, s', u);
    case Forget(u, _) => OneDeviceChanged(s, s', u);
    case Store(_, _, _, _) => SameUsersByDevices(s, s');
  }

  lemma SameUsersByDevices(s: System, s': System)
    requires s'.devices == s.devices
    ensures SameUsers(s, s')
  {
  }

  lemma UsersKeepKeys(p: Primitives, s: System, s': System)
    requires SameUsers(s, s') && Inv(p, s)
    ensures forall u :: u in s'.devices ==> UserId(u) && OwnKeys(p, s'.devices[u])
  {
    hide UserId, PairInv;
  }

  lemma {:induction false} StepKeepsInv(p: Primitives, s: System, act: Action)
    requires Lawful(p) && Inv(p, s) && Allowed(p, s, act)
    ensures Inv(p, Step(p, s, act))
  {
    hide Step, PairInv, Enabled, FirstContactGenuine, Unforged, UserId, Lawful, SameUsers, OwnKeys;
    StepKeepsUsers(p, s, act);
    UsersKeepKeys(p, s, Step(p, s, act));
    forall a, b ensures PairInv(p, Step(p, s, act), a, b) {
      StepKeepsPair(p, s, act, a, b);
    }
  }

  lemma {:induction false} RunKeepsInv(p: Primitives, s0: System, acts: seq<Action>)
    requires Lawful(p) && Initial(p, s0) && ValidRun(p, s0, acts)
    ensures Inv(p, After(p, s0, acts)) && SameUsers(s0, After(p, s0, acts))
  {
    if acts == [] {
      InitialInv(p, s0);
    } else {
      hide Step, Inv, Initial, Lawful, Allowed, SameUsers;
      var s := After(p, s0, acts[..|acts| - 1]);
      RunKeepsInv(p, s0, acts[..|acts| - 1]);
      StepKeepsUsers(p, s, acts[|acts| - 1]);
      SameUsersTransitive(s0, s, After(p, s0, acts));
      StepKeepsInv(p, s, acts[|acts| - 1]);
    }
  }

  lemma InitialInv(p: Primitives, s: System)
    requires Initial(p, s)
    ensures Inv(p, s)
  {
    hide UserId;
    forall a, b ensures PairInv(p, s, a, b) {
      assert Log(s.sealed, a, b) == [] && Log(s.accepted, a, b) == [];
    }
  }

  // ----- what holds of every run -----

  ghost predicate Subsequence<T(!new)>(xs: seq<T>, ys: seq<T>)
  {
    xs == [] || (ys != [] && if xs[0] == ys[0] then Subsequence(xs[1..], ys[1..]) else Subsequence(xs, ys[1..]))
  }

  lemma {:induction false} IncreasingSubset(xs: seq<Numbered>, ys: seq<Numbered>)
    requires Increasing(xs) && Increasing(ys) && forall x :: x in xs ==> x in ys
    ensures Subsequence(xs, ys)
  {
    if xs != [] {
      assert xs[0] in ys;
      var k := if xs[0] == ys[0] then 1 else 0;
      forall x | x in xs[k..] ensures x in ys[1..] {
        var i :| k <= i < |xs| && xs[i] == x;
        assert x in ys && x != ys[0];
      }
      IncreasingSubset(xs[k..], ys[1..]);
    }
  }

  /** Safety: in every run, what b accepted from a is a subsequence of what a sealed for b:
      same order, same texts, nothing twice, nothing invented. */
  lemma {:induction false} AcceptedIsSubsequenceOfSealed(p: Primitives, s0: System, acts: seq<Action>, a: string,
                                                         b: string)
    requires Lawful(p) && Initial(p, s0) && ValidRun(p, s0, acts) && a in s0.devices && b in s0.devices
    ensures var s := After(p, s0, acts);
            && Subsequence(Log(s.accepted, a, b), Numbers(Log(s.sealed, a, b)))
            && Increasing(Log(s.accepted, a, b)) && Increasing(Numbers(Log(s.sealed, a, b)))
  {
    RunKeepsInv(p, s0, acts);
    hide Initial, Lawful, ValidRun, After, GoodEntry, GenuinePins, OwnKeys, UserId, Increasing;
    var s := After(p, s0, acts);
    assert PairInv(p, s, a, b);
    IncreasingSubset(Log(s.accepted, a, b), Numbers(Log(s.sealed, a, b)));
  }

  predicate NotAbove(x: Option<int>, y: Option<int>)
  {
    x.None? || (y.Some? && x.value <= y.value)
  }

  lemma {:induction false} OnlyTheInboxMovesCounters(p: Primitives, s: System, act: Action, b: string)
    requires Inv(p, s) && Allowed(p, s, act) && !act.ShowInbox? && b in s.devices
    ensures b in Step(p, s, act).devices
    ensures Step(p, s, act).devices[b].file.seqRecv == s.devices[b].file.seqRecv
  {
    hide FirstContactGenuine, Unforged, UserId, OwnKeys, GoodPair, Prepare, ShowOwn, Log, SendCount, GenuinePins;
    match act
    case SealNext(x, y, text, served, nonce) =>
      assert PairInv(p, s, x, y);
      SealDevice(p, s, x, y, text, served, nonce, y);
    case ShowSent(u, id, to, env, offered) =>
      assert PairInv(p, s, u, u);
      ShowOwnEffect(p, s, u, id, to, env, offered, u);
    case _ =>
  }

  lemma {:induction false} StepCounters(p: Primitives, s: System, act: Action, a: string, b: string)
    requires Inv(p, s) && Allowed(p, s, act) && b in s.devices
    ensures b in Step(p, s, act).devices
    ensures NotAbove(LastRecv(s.devices[b].file, a), LastRecv(Step(p, s, act).devices[b].file, a))
  {
    hide FirstContactGenuine, Unforged, UserId, OwnKeys, PairInv, Prepare, ShowOne, ShowOwn, Log, Judge, LastRecv;
    if act.ShowInbox? {
      ShowCounters(p, s, act.user, act.msg, act.dir, a);
    } else {
      OnlyTheInboxMovesCounters(p, s, act, b);
      hide Step;
      SeqRecvDecides(s.devices[b].file, Step(p, s, act).devices[b].file, a);
    }
  }

  /** The counter of b for a, None for a user there is not. */
  function CounterOf(s: System, b: string, a: string): Option<int>
  {
    if b in s.devices then LastRecv(s.devices[b].file, a) else None
  }

  lemma StepCounterOf(p: Primitives, s0: System, acts: seq<Action>, a: string, b: string)
    requires Lawful(p) && Initial(p, s0) && ValidRun(p, s0, acts) && acts != [] && b in s0.devices
    ensures NotAbove(CounterOf(After(p, s0, acts[..|acts| - 1]), b, a), CounterOf(After(p, s0, acts), b, a))
  {
    hide Step, Inv, Initial, Lawful, LastRecv, OwnKeys, NotAbove;
    RunKeepsInv(p, s0, acts[..|acts| - 1]);
    StepCounters(p, After(p, s0, acts[..|acts| - 1]), acts[|acts| - 1], a, b);
  }

  /** A receive counter never falls between any two moments of a run. */
  lemma {:induction false} CountersNeverFall(p: Primitives, s0: System, acts: seq<Action>, k: nat, a: string, b: string)
    requires Lawful(p) && Initial(p, s0) && ValidRun(p, s0, acts) && b in s0.devices && k <= |acts|
    ensures ValidRun(p, s0, acts[..k])
    ensures NotAbove(CounterOf(After(p, s0, acts[..k]), b, a), CounterOf(After(p, s0, acts), b, a))
  {
    hide Step, Initial, Lawful, Allowed, CounterOf;
    if k == |acts| {
      assert acts[..k] == acts;
    } else {
      assert acts[..|acts| - 1][..k] == acts[..k];
      CountersNeverFall(p, s0, acts[..|acts| - 1], k, a, b);
      StepCounterOf(p, s0, acts, a, b);
    }
  }

  /** Liveness of the format: in every run each sealed envelope opens to its exact text and number, for the
      recipient unless its counter is past it, and for the sender with the recipient's public key. */
  lemma {:induction false} EverySealedEnvelopeOpens(p: Primitives, s0: System, acts: seq<Action>, a: string,
                                                    b: string, i: nat)
    requires Lawful(p) && Initial(p, s0) && ValidRun(p, s0, acts) && a in s0.devices && b in s0.devices
    requires i < |Log(After(p, s0, acts).sealed, a, b)|
    ensures var s := After(p, s0, acts);
            var e := Log(s.sealed, a, b)[i];
            var ka, kb := s0.devices[a].keys, s0.devices[b].keys;
            && Increasing(Numbers(Log(s.sealed, a, b))) && b in s.devices
            && OpenMessage(p, e.env, a, b, kb.x25519, p.dh.xPub(ka.x25519), p.ed.pub(ka.ed25519),
                           LastRecv(s.devices[b].file, a), true)
               == (if IsReplay(LastRecv(s.devices[b].file, a), e.msg.seqNo)
                   then Err(Replay) else Ok((e.msg.text, e.msg.seqNo)))
            && OpenMessage(p, e.env, a, b, ka.x25519, p.dh.xPub(kb.x25519), p.ed.pub(ka.ed25519), None, false)
               == Ok((e.msg.text, e.msg.seqNo))
            && OpenMessage(p, e.env, a, b, kb.x25519, p.dh.xPub(ka.x25519), p.ed.pub(ka.ed25519), None, false)
               == Ok((e.msg.text, e.msg.seqNo))
            && e.env.seqNo == e.msg.seqNo && e.env.digest == p.hash.keccak(p.text.encode(e.msg.text))
  {
    RunKeepsInv(p, s0, acts);
    hide Initial, ValidRun, GenuinePins, OwnKeys, UserId, Increasing, GoodAccepted, OpenMessage, GoodEntry, Lawful;
    var s := After(p, s0, acts);
    assert PairInv(p, s, a, b);
    EntryOpens(p, a, b, s0.devices[a].keys, s0.devices[b].keys, Log(s.sealed, a, b)[i], LastRecv(s.devices[b].file, a));
  }

  lemma {:induction false} EntryOpens(p: Primitives, a: string, b: string, ka: PrivateKeys, kb: PrivateKeys, e: Entry,
                                      last: Option<int>)
    requires Lawful(p) && GoodEntry(p, a, b, ka, Some(kb), e)
    ensures OpenMessage(p, e.env, a, b, kb.x25519, p.dh.xPub(ka.x25519), p.ed.pub(ka.ed25519), last, true)
         == (if IsReplay(last, e.msg.seqNo) then Err(Replay) else Ok((e.msg.text, e.msg.seqNo)))
    ensures OpenMessage(p, e.env, a, b, ka.x25519, p.dh.xPub(kb.x25519), p.ed.pub(ka.ed25519), None, false)
         == Ok((e.msg.text, e.msg.seqNo))
    ensures OpenMessage(p, e.env, a, b, kb.x25519, p.dh.xPub(ka.x25519), p.ed.pub(ka.ed25519), None, false)
         == Ok((e.msg.text, e.msg.seqNo))
    ensures e.env.seqNo == e.msg.seqNo && e.env.digest == p.hash.keccak(p.text.encode(e.msg.text))
  {
    hide OpenMessage, Seal, Lawful, UserId;
    OpenInvertsSeal(p, e.msg.text, a, b, e.msg.seqNo, ka.x25519, ka.ed25519, kb.x25519, e.env.nonce, last);
    OpenInvertsSeal(p, e.msg.text, a, b, e.msg.seqNo, ka.x25519, ka.ed25519, kb.x25519, e.env.nonce, None);
  }

  /** The environment is no weaker than a lossy, repeating, reordering network: any envelope ever
      sealed by a for b may be shown to b again at any later moment. */
  lemma {:induction false} SealedEnvelopesMayBeShownAgain(p: Primitives, s0: System, acts: seq<Action>, a: string,
                                                          b: string, i: nat)
    requires Lawful(p) && Initial(p, s0) && ValidRun(p, s0, acts) && a in s0.devices && b in s0.devices
    requires i < |Log(After(p, s0, acts).sealed, a, b)|
    ensures Unforged(p, After(p, s0, acts), a, b, Log(After(p, s0, acts).sealed, a, b)[i].env)
  {
    RunKeepsInv(p, s0, acts);
    hide Initial, ValidRun, After, Lawful, BuildAad, MessageKey;
    var s := After(p, s0, acts);
    var env := Log(s.sealed, a, b)[i].env;
    assert Encrypted(p, s, a, b, env.nonce, env.ciphertext, BuildAad(p, a, b, env.seqNo));
  }

  /** And when it is: a message of the log, shown by a server that answers with the sender's keys, opens to its text
      whether it was accepted before or not, is cached, and counts as accepted exactly when its number is new. */
  lemma {:induction false} SealedIsShown(p: Primitives, s0: System, acts: seq<Action>, a: string, b: string, i: nat,
                                         m: Message, dir: Directory)
    requires Lawful(p) && Initial(p, s0) && ValidRun(p, s0, acts) && a in s0.devices && b in s0.devices
    requires i < |Log(After(p, s0, acts).sealed, a, b)| && b in After(p, s0, acts).devices
    requires m.sender == a && m.env == Log(After(p, s0, acts).sealed, a, b)[i].env && m.env.ciphertext != []
    requires m.id !in After(p, s0, acts).devices[b].cache && dir(m).Some?
    requires FirstContactGenuine(p, After(p, s0, acts), b, a, dir(m).value)
    requires First(dir(m).value, X25519).Some? && First(dir(m).value, Ed25519).Some?
    ensures var s := After(p, s0, acts);
            var s', n := ShowStep(p, s, b, m, dir), Log(s.sealed, a, b)[i].msg;
            && s'.devices[b].cache == s.devices[b].cache[m.id := n.text]
            && Log(s'.accepted, a, b)
               == Log(s.accepted, a, b) + (if IsReplay(LastRecv(s.devices[b].file, a), n.seqNo) then [] else [n])
  {
    RunKeepsInv(p, s0, acts);
    EverySealedEnvelopeOpens(p, s0, acts, a, b, i);
    hide Initial, ValidRun, OpenMessage, Lawful, UserId, OwnKeys, PairInv, FirstContactGenuine, IsReplay;
    var s := After(p, s0, acts);
    assert PairInv(p, s, b, a);
    EntryIsShown(p, s, a, b, Log(s.sealed, a, b)[i], m, dir);
  }

  lemma {:induction false} EntryIsShown(p: Primitives, s: System, a: string, b: string, e: Entry, m: Message,
                                        dir: Directory)
    requires a in s.devices && b in s.devices && PairInv(p, s, b, a) && dir(m).Some?
    requires FirstContactGenuine(p, s, b, a, dir(m).value) && e.env.seqNo == e.msg.seqNo
    requires m.sender == a && m.env == e.env && m.env.ciphertext != [] && m.id !in s.devices[b].cache
    requires OpenMessage(p, e.env, a, b, s.devices[b].keys.x25519, p.dh.xPub(s.devices[a].keys.x25519),
                         p.ed.pub(s.devices[a].keys.ed25519), None, false)
             == Ok((e.msg.text, e.msg.seqNo))
    requires First(dir(m).value, X25519).Some? && First(dir(m).value, Ed25519).Some?
    ensures var s' := ShowStep(p, s, b, m, dir);
            && s'.devices[b].cache == s.devices[b].cache[m.id := e.msg.text]
            && Log(s'.accepted, a, b)
               == Log(s.accepted, a, b)
                  + (if IsReplay(LastRecv(s.devices[b].file, a), e.msg.seqNo) then [] else [e.msg])
  {
    EntryIsJudged(p, s, a, b, e, m, dir);
    hide Judge, ShowOne, FirstContactGenuine, PairInv, OpenMessage;
    ShowCounters(p, s, b, m, dir, a);
    ShowHistory(p, s, b, m, dir, a, b);
  }

  lemma {:induction false} EntryIsJudged(p: Primitives, s: System, a: string, b: string, e: Entry, m: Message,
                                         dir: Directory)
    requires a in s.devices && b in s.devices && PairInv(p, s, b, a) && dir(m).Some?
    requires OpenMessage(p, e.env, a, b, s.devices[b].keys.x25519, p.dh.xPub(s.devices[a].keys.x25519),
                         p.ed.pub(s.devices[a].keys.ed25519), None, false)
             == Ok((e.msg.text, e.msg.seqNo))
    requires FirstContactGenuine(p, s, b, a, dir(m).value)
    requires m.sender == a && m.env == e.env && m.env.ciphertext != [] && m.id !in s.devices[b].cache
    requires First(dir(m).value, X25519).Some? && First(dir(m).value, Ed25519).Some?
    ensures Judge(WhoIs(p, b, s.devices[b]), dir, ClientOf(s.devices[b]), m) == Opened(e.msg.text)
  {
    FetchedOwnKeys(p, s, b, a, dir(m).value);
  }

  // ----- devices as their keystores make them -----

  /** What creating a keystore and unlocking it leave on a device. */
  ghost predicate FromKeystore(p: Primitives, d: Device)
  {
    exists password, salt, keys: PrivateKeys, nonce ::
      && |keys.x25519| == 32 && |keys.ed25519| == 32
      && Unlocked(p, d, Create(p, Vault(None, None, None, None), password, salt, keys, nonce), password)
  }

  ghost predicate Unlocked(p: Primitives, d: Device, created: Result<Vault, KeystoreError>, password: string)
  {
    created.Ok? &&
    var (v, r) := Unlock(p, created.value, password);
    r == Ok(()) && v.file == Some(d.file) && v.keys == Some(d.keys) && d.cache == DecryptCache(p, v.kek, v.cacheFile)
  }

  /** Such devices start a run: no pins, no counters, and the public keys of their private keys. */
  lemma {:induction false} NewDevicesStart(p: Primitives, devices: map<string, Device>)
    requires LawfulAead(p) && RejectsOtherKeys(p)
    requires forall u :: u in devices ==> UserId(u) && FromKeystore(p, devices[u])
    ensures Initial(p, System(devices, map[], map[], map[], map[]))
  {
    forall u | u in devices
      ensures OwnKeys(p, devices[u]) && devices[u].cache == map[] && devices[u].file.peers == map[]
      ensures devices[u].file.seqSend == map[] && devices[u].file.seqRecv == map[]
    {
      NewDevice(p, devices[u]);
    }
  }

  lemma NewDevice(p: Primitives, d: Device)
    requires LawfulAead(p) && RejectsOtherKeys(p) && FromKeystore(p, d)
    ensures OwnKeys(p, d) && d.cache == map[]
    ensures d.file.peers == map[] && d.file.seqSend == map[] && d.file.seqRecv == map[]
  {
    var password, salt, keys: PrivateKeys, nonce :|
      && |keys.x25519| == 32 && |keys.ed25519| == 32
      && Unlocked(p, d, Create(p, Vault(None, None, None, None), password, salt, keys, nonce), password);
    var kek := p.local.kek(password, salt);
    UnwrapOwn(p, kek, kek, keys, Wrap(p, kek, keys.x25519 + keys.ed25519, nonce));
  }

  /** In every run of such devices, each envelope a user sealed re-opens on that user's own device to its text, given
      the recipient's exchange key. */
  lemma {:induction false} OwnEnvelopesReopen(p: Primitives, devices: map<string, Device>, acts: seq<Action>, a: string,
                                              b: string, i: nat, pinned: PeerKeys)
    requires Lawful(p) && RejectsOtherKeys(p) && a in devices && b in devices
    requires forall u :: u in devices ==> UserId(u) && FromKeystore(p, devices[u])
    requires ValidRun(p, System(devices, map[], map[], map[], map[]), acts)
    requires i < |Log(After(p, System(devices, map[], map[], map[], map[]), acts).sealed, a, b)|
    requires pinned.x25519 == Some(p.dh.xPub(devices[b].keys.x25519))
    ensures var s := After(p, System(devices, map[], map[], map[], map[]), acts);
            var e := Log(s.sealed, a, b)[i];
            && a in s.devices && s.devices[a].keys == devices[a].keys
            && DecryptOwn(p, s.devices[a].file, Some(s.devices[a].keys), a, b, e.env, pinned) == Ok(e.msg.text)
  {
    var s0 := System(devices, map[], map[], map[], map[]);
    NewDevicesStart(p, devices);
    RunKeepsInv(p, s0, acts);
    EverySealedEnvelopeOpens(p, s0, acts, a, b, i);
    var s := After(p, s0, acts);
    hide Initial, ValidRun, OpenMessage, Lawful, FromKeystore, UserId, IsReplay;
    OwnKeysStay(p, s0, s, a);
    OwnReopens(p, s.devices[a], a, b, Log(s.sealed, a, b)[i], pinned);
  }

  /** So when the server answers with the recipient's exchange key, the own-messages pass caches that text. */
  lemma {:induction false} OwnIsShown(p: Primitives, devices: map<string, Device>, acts: seq<Action>, a: string,
                                      b: string, i: nat, id: string, served: seq<ServedKey>)
    requires Lawful(p) && RejectsOtherKeys(p) && a in devices && b in devices
    requires forall u :: u in devices ==> UserId(u) && FromKeystore(p, devices[u])
    requires ValidRun(p, System(devices, map[], map[], map[], map[]), acts)
    requires var s := After(p, System(devices, map[], map[], map[], map[]), acts);
             && i < |Log(s.sealed, a, b)| && Log(s.sealed, a, b)[i].env.ciphertext != []
             && a in s.devices && id != "" && id !in s.devices[a].cache
             && First(served, X25519).Some? && FirstContactGenuine(p, s, a, b, served)
    ensures var s := After(p, System(devices, map[], map[], map[], map[]), acts);
            var e, d := Log(s.sealed, a, b)[i], s.devices[a];
            ShowOwn(p, a, d, id, b, e.env, Some(served)).cache == d.cache[id := e.msg.text]
  {
    var s0 := System(devices, map[], map[], map[], map[]);
    NewDevicesStart(p, devices);
    RunKeepsInv(p, s0, acts);
    var s := After(p, s0, acts);
    hide ValidRun, After, Initial, Lawful, FromKeystore, UserId, OwnKeys, FirstContactGenuine;
    assert PairInv(p, s, a, b);
    hide PairInv, Inv, DecryptOwn, FetchAndPin, ShowOwn, OpenMessage;
    FetchedExchangeKey(p, s, a, b, served);
    OwnEnvelopesReopen(p, devices, acts, a, b, i, FetchAndPin(s.devices[a].file, b, served).keys);
    CachesOwn(p, a, s.devices[a], id, b, Log(s.sealed, a, b)[i], served);
  }

  lemma FetchedExchangeKey(p: Primitives, s: System, a: string, b: string, served: seq<ServedKey>)
    requires a in s.devices && b in s.devices && PairInv(p, s, a, b) && FirstContactGenuine(p, s, a, b, served)
    requires First(served, X25519).Some?
    ensures FetchAndPin(s.devices[a].file, b, served).keys.x25519 == Some(p.dh.xPub(s.devices[b].keys.x25519))
  {
    FetchedOwnKeys(p, s, a, b, served);
    hide PairInv, FirstContactGenuine;
  }

  lemma CachesOwn(p: Primitives, u: string, d: Device, id: string, to: string, e: Entry, served: seq<ServedKey>)
    requires id !in d.cache && id != "" && e.env.ciphertext != []
    requires DecryptOwn(p, d.file, Some(d.keys), u, to, e.env, FetchAndPin(d.file, to, served).keys) == Ok(e.msg.text)
    ensures ShowOwn(p, u, d, id, to, e.env, Some(served)).cache == d.cache[id := e.msg.text]
  {
    hide OpenMessage;
    PinsAreForever(d.file, to, served, to, X25519);
  }

  lemma OwnKeysStay(p: Primitives, s: System, s': System, u: string)
    requires SameUsers(s, s') && Inv(p, s') && u in s.devices
    ensures u in s'.devices && s'.devices[u].keys == s.devices[u].keys && OwnKeys(p, s'.devices[u])
  {
    hide PairInv;
  }

  lemma OwnReopens(p: Primitives, d: Device, a: string, b: string, e: Entry, pinned: PeerKeys)
    requires OwnKeys(p, d) && pinned.x25519.Some?
    requires OpenMessage(p, e.env, a, b, d.keys.x25519, pinned.x25519.value, p.ed.pub(d.keys.ed25519), None, false)
             == Ok((e.msg.text, e.msg.seqNo))
    ensures DecryptOwn(p, d.file, Some(d.keys), a, b, e.env, pinned) == Ok(e.msg.text)
  {
  }
}
