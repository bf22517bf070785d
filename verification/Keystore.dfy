// client/src/crypto/keystore.py: the key file, its counters and pins, and the
// wrapping of private keys and plaintext cache under the password's KEK.
module Keystore {
  import opened Wrappers
  import opened Encoding
  import opened Primitives

  datatype KeyKind = X25519 | Ed25519

  datatype PeerKeys = PeerKeys(x25519: Option<Bytes>, ed25519: Option<Bytes>)

  datatype PrivateKeys = PrivateKeys(x25519: Bytes, ed25519: Bytes)

  datatype Blob = Blob(nonce: Bytes, ciphertext: Bytes)

  /** The JSON document at Keystore.path. */
  datatype KeyFile = KeyFile(salt: Bytes, wrapped: Blob, own: PeerKeys,
                             peers: map<string, PeerKeys>, seqSend: map<string, int>, seqRecv: map<string, int>)

  /** Both files on disk and the two in-memory fields `_kek` and `_keys`. */
  datatype Vault = Vault(file: Option<KeyFile>, cacheFile: Option<Blob>, kek: Option<Bytes>, keys: Option<PrivateKeys>)

  datatype KeystoreError = AlreadyExists | NoFile | InvalidTag

  const KEY_BYTES := 32
  const KEYSTORE_AAD := "zebra-keystore-v1"
  const CACHE_AAD := "zebra-msgcache-v1"

  // ----- counters and pins: functions of the key file -----

  const NO_KEYS := PeerKeys(None, None)

  function PeerOf(f: KeyFile, user: string): PeerKeys
  {
    if user in f.peers then f.peers[user] else NO_KEYS
  }

  function Get(k: PeerKeys, kind: KeyKind): Option<Bytes>
  {
    match kind case X25519 => k.x25519 case Ed25519 => k.ed25519
  }

  function Put(k: PeerKeys, kind: KeyKind, key: Option<Bytes>): PeerKeys
  {
    match kind case X25519 => k.(x25519 := key) case Ed25519 => k.(ed25519 := key)
  }

  function Pinned(f: KeyFile, user: string, kind: KeyKind): Option<Bytes>
  {
    Get(PeerOf(f, user), kind)
  }

  function Pin(f: KeyFile, user: string, kind: KeyKind, key: Bytes): KeyFile
  {
    f.(peers := f.peers[user := Put(PeerOf(f, user), kind, Some(key))])
  }

  function SendCount(f: KeyFile, recipient: string): int
  {
    if recipient in f.seqSend then f.seqSend[recipient] else 0
  }

  function AdvanceSend(f: KeyFile, recipient: string): KeyFile
  {
    f.(seqSend := f.seqSend[recipient := SendCount(f, recipient) + 1])
  }

  function LastRecv(f: KeyFile, sender: string): Option<int>
  {
    if sender in f.seqRecv then Some(f.seqRecv[sender]) else None
  }

  function SetRecv(f: KeyFile, sender: string, seqNo: int): KeyFile
  {
    f.(seqRecv := f.seqRecv[sender := seqNo])
  }

  // ----- wrapping: functions of the vault -----

  function Wrap(p: Primitives, kek: Bytes, keys: Bytes, nonce: Bytes): Blob
  {
    Blob(nonce, p.aead.seal(kek, nonce, keys, p.text.encode(KEYSTORE_AAD)))
  }

  function Unwrap(p: Primitives, kek: Bytes, blob: Blob): Option<Bytes>
  {
    p.aead.unseal(kek, blob.nonce, blob.ciphertext, p.text.encode(KEYSTORE_AAD))
  }

  /** plaintext[:32] and plaintext[32:64]; Python slices never fail. */
  function SplitKeys(b: Bytes): PrivateKeys
  {
    var n := if |b| < KEY_BYTES then |b| else KEY_BYTES;
    var m := if |b| < 2 * KEY_BYTES then |b| else 2 * KEY_BYTES;
    PrivateKeys(b[..n], b[n..m])
  }

  function SealCache(p: Primitives, kek: Bytes, cache: map<string, string>, nonce: Bytes): Blob
  {
    Blob(nonce, p.aead.seal(kek, nonce, p.local.dumpCache(cache), p.text.encode(CACHE_AAD)))
  }

  /** `_decrypt_cache`: the empty cache on any failure. */
  function DecryptCache(p: Primitives, kek: Option<Bytes>, blob: Option<Blob>): map<string, string>
  {
    if kek.None? || blob.None? then map[]
    else
      match p.aead.unseal(kek.value, blob.value.nonce, blob.value.ciphertext, p.text.encode(CACHE_AAD))
      case None => map[]
      case Some(bytes) => match p.local.parseCache(bytes) case None => map[] case Some(cache) => cache
  }

  function Create(p: Primitives, v: Vault, password: string, salt: Bytes, made: PrivateKeys, nonce: Bytes)
    : Result<Vault, KeystoreError>
  {
    if v.file.Some? then Err(AlreadyExists)
    else
      var kek := p.local.kek(password, salt);
      var own := PeerKeys(Some(p.dh.xPub(made.x25519)), Some(p.ed.pub(made.ed25519)));
      Ok(v.(kek := Some(kek),
            file := Some(KeyFile(salt, Wrap(p, kek, made.x25519 + made.ed25519, nonce), own, map[], map[], map[]))))
  }

  /** `_kek` is assigned before decryption is tried, so a wrong password leaves it behind. */
  function Unlock(p: Primitives, v: Vault, password: string): (Vault, Result<(), KeystoreError>)
  {
    match v.file
    case None => (v, Err(NoFile))
    case Some(f) =>
      var kek := p.local.kek(password, f.salt);
      match Unwrap(p, kek, f.wrapped)
      case None => (v.(kek := Some(kek)), Err(InvalidTag))
      case Some(bytes) => (v.(kek := Some(kek), keys := Some(SplitKeys(bytes))), Ok(()))
  }

  function SaveCache(p: Primitives, v: Vault, cache: map<string, string>, nonce: Bytes): Vault
  {
    if v.kek.None? then v else v.(cacheFile := Some(SealCache(p, v.kek.value, cache, nonce)))
  }

  function ChangePassword(p: Primitives, v: Vault, oldPassword: string, newPassword: string, nonce: Bytes,
                          cacheNonce: Bytes)
    : Result<Vault, KeystoreError>
  {
    match v.file
    case None => Err(NoFile)
    case Some(f) =>
      var oldKek := p.local.kek(oldPassword, f.salt);
      match Unwrap(p, oldKek, f.wrapped)
      case None => Err(InvalidTag)
      case Some(bytes) =>
        var newKek := p.local.kek(newPassword, f.salt);
        var v1 := v.(file := Some(f.(wrapped := Wrap(p, newKek, bytes, nonce))),
                     kek := Some(newKek), keys := Some(SplitKeys(bytes)));
        var cache := DecryptCache(p, Some(oldKek), v.cacheFile);
        Ok(if cache == map[] then v1 else SaveCache(p, v1, cache, cacheNonce))
  }

  class Keystore {
    const p: Primitives
    var file: Option<KeyFile>
    var cacheFile: Option<Blob>
    var kek: Option<Bytes>
    var keys: Option<PrivateKeys>

    ghost function State(): Vault
      reads this
    {
      Vault(file, cacheFile, kek, keys)
    }

    constructor (p: Primitives, file: Option<KeyFile>, cacheFile: Option<Blob>)
      ensures this.p == p && State() == Vault(file, cacheFile, None, None)
    {
      this.p, this.file, this.cacheFile, this.kek, this.keys := p, file, cacheFile, None, None;
    }

    method CreateKeys(password: string, salt: Bytes, made: PrivateKeys, nonce: Bytes)
      returns (r: Result<(), KeystoreError>)
      modifies this
      ensures match Create(p, old(State()), password, salt, made, nonce)
              case Ok(v) => r == Ok(()) && State() == v
              case Err(e) => r == Err(e) && State() == old(State())
      ensures r.Ok? <==> old(file).None?
      ensures r.Ok? ==>
                && kek == Some(p.local.kek(password, salt)) && keys == old(keys) && cacheFile == old(cacheFile)
                && file.Some? && file.value.salt == salt
                && file.value.own == PeerKeys(Some(p.dh.xPub(made.x25519)), Some(p.ed.pub(made.ed25519)))
                && file.value.peers == map[] && file.value.seqSend == map[] && file.value.seqRecv == map[]
    {
      if file.Some? {
        return Err(AlreadyExists);
      }
      kek := Some(p.local.kek(password, salt));
      var blob := Wrap(p, kek.value, made.x25519 + made.ed25519, nonce);
      file := Some(KeyFile(salt, blob, PeerKeys(Some(p.dh.xPub(made.x25519)), Some(p.ed.pub(made.ed25519))),
                           map[], map[], map[]));
      return Ok(());
    }

    method UnlockKeys(password: string) returns (r: Result<(), KeystoreError>)
      modifies this
      ensures (State(), r) == Unlock(p, old(State()), password)
      ensures file == old(file) && cacheFile == old(cacheFile)
      ensures r == Err(NoFile) <==> file.None?
      ensures file.Some? ==> kek == Some(p.local.kek(password, file.value.salt))
      ensures r.Err? ==> keys == old(keys)
    {
      if file.None? {
        return Err(NoFile);
      }
      kek := Some(p.local.kek(password, file.value.salt));
      var plaintext := Unwrap(p, kek.value, file.value.wrapped);
      if plaintext.None? {
        return Err(InvalidTag);
      }
      keys := Some(SplitKeys(plaintext.value));
      return Ok(());
    }

    /** A cache saved under the current KEK comes back; one saved under another KEK, a missing one, or any while
        locked reads as empty. */
    method LoadMessageCache() returns (cache: map<string, string>)
      ensures cache == DecryptCache(p, kek, cacheFile)
      ensures kek.None? || cacheFile.None? ==> cache == map[]
      ensures LawfulAead(p) && RejectsOtherKeys(p) && LawfulJson(p) ==>
                forall k, saved, nonce ::
                  kek.Some? && cacheFile == Some(SealCache(p, k, saved, nonce)) ==>
                    cache == if k == kek.value then saved else map[]
    {
      if LawfulAead(p) && RejectsOtherKeys(p) && LawfulJson(p) {
        forall k, saved, nonce | kek.Some? && cacheFile == Some(SealCache(p, k, saved, nonce))
          ensures DecryptCache(p, kek, cacheFile) == if k == kek.value then saved else map[]
        {
          DecryptSealed(p, kek.value, k, saved, nonce);
        }
      }
      if kek.None? || cacheFile.None? {
        return map[];
      }
      var bytes := p.aead.unseal(kek.value, cacheFile.value.nonce, cacheFile.value.ciphertext,
                                 p.text.encode(CACHE_AAD));
      if bytes.None? {
        return map[];
      }
      var parsed := p.local.parseCache(bytes.value);
      cache := if parsed.None? then map[] else parsed.value;
    }

    method SaveMessageCache(cache: map<string, string>, nonce: Bytes)
      modifies this`cacheFile
      ensures State() == SaveCache(p, old(State()), cache, nonce)
      ensures kek.None? ==> cacheFile == old(cacheFile)
    {
      if kek.None? {
        return;
      }
      cacheFile := Some(SealCache(p, kek.value, cache, nonce));
    }

    method ChangePasswordTo(oldPassword: string, newPassword: string, nonce: Bytes, cacheNonce: Bytes)
      returns (r: Result<(), KeystoreError>)
      modifies this
      ensures match ChangePassword(p, old(State()), oldPassword, newPassword, nonce, cacheNonce)
              case Ok(v) => r == Ok(()) && State() == v
              case Err(e) => r == Err(e) && State() == old(State())
    {
      if file.None? {
        return Err(NoFile);
      }
      var oldKek := p.local.kek(oldPassword, file.value.salt);
      var plaintext := Unwrap(p, oldKek, file.value.wrapped);
      if plaintext.None? {
        return Err(InvalidTag);
      }
      var newKek := p.local.kek(newPassword, file.value.salt);
      file := Some(file.value.(wrapped := Wrap(p, newKek, plaintext.value, nonce)));
      kek := Some(newKek);
      keys := Some(SplitKeys(plaintext.value));
      var cache := DecryptCache(p, Some(oldKek), cacheFile);
      if cache != map[] {
        SaveMessageCache(cache, cacheNonce);
      }
      return Ok(());
    }

    method PinPeerKey(user: string, kind: KeyKind, key: Bytes)
      requires file.Some?
      modifies this`file
      ensures file == Some(Pin(old(file.value), user, kind, key))
      ensures user in file.value.peers && file.value == old(file.value).(peers := file.value.peers)
      ensures match kind
              case X25519 => file.value.peers[user] == PeerOf(old(file.value), user).(x25519 := Some(key))
              case Ed25519 => file.value.peers[user] == PeerOf(old(file.value), user).(ed25519 := Some(key))
      ensures file.value.peers.Keys == old(file.value).peers.Keys + {user}
      ensures forall u :: u in old(file.value).peers && u != user ==> file.value.peers[u] == old(file.value).peers[u]
    {
      var peers := file.value.peers;
      if user !in peers {
        peers := peers[user := NO_KEYS];
      }
      peers := peers[user := Put(peers[user], kind, Some(key))];
      file := Some(file.value.(peers := peers));
      assert file.value.peers == Pin(old(file.value), user, kind, key).peers;
    }

    method NextSendSeq(recipient: string) returns (seqNo: int)
      requires file.Some?
      modifies this`file
      ensures seqNo == (if recipient in old(file.value).seqSend then old(file.value).seqSend[recipient] else 0) + 1
      ensures file == Some(old(file.value).(seqSend := old(file.value).seqSend[recipient := seqNo]))
      ensures file == Some(AdvanceSend(old(file.value), recipient))
    {
      seqNo := (if recipient in file.value.seqSend then file.value.seqSend[recipient] else 0) + 1;
      file := Some(file.value.(seqSend := file.value.seqSend[recipient := seqNo]));
    }

    method SetRecvSeq(sender: string, seqNo: int)
      requires file.Some?
      modifies this`file
      ensures file == Some(SetRecv(old(file.value), sender, seqNo))
      ensures file == Some(old(file.value).(seqRecv := old(file.value).seqRecv[sender := seqNo]))
    {
      file := Some(file.value.(seqRecv := file.value.seqRecv[sender := seqNo]));
    }
  }

  // ----- every run of operations, restarts and password changes -----

  datatype Op =
    | PinKey(user: string, kind: KeyKind, key: Bytes)
    | TakeSendSeq(recipient: string)
    | RecordRecv(sender: string, seqNo: int)
    | SaveMessages(cache: map<string, string>, nonce: Bytes)
    | UnlockWith(password: string)
    | ChangeTo(oldPassword: string, newPassword: string, nonce: Bytes, cacheNonce: Bytes)
    | Restart

  /** None when the operation raises, or is refused because the keystore is locked. */
  function Apply(p: Primitives, v: Vault, op: Op): Option<Vault>
  {
    if v.file.None? then None
    else
      match op
      case PinKey(u, kind, key) => Some(v.(file := Some(Pin(v.file.value, u, kind, key))))
      case TakeSendSeq(r) => Some(v.(file := Some(AdvanceSend(v.file.value, r))))
      case RecordRecv(s, q) => Some(v.(file := Some(SetRecv(v.file.value, s, q))))
      case SaveMessages(c, n) => if v.kek.None? then None else Some(SaveCache(p, v, c, n))
      case UnlockWith(pw) =>
        var (v', r) := Unlock(p, v, pw);
        if r.Ok? then Some(v') else None
      case ChangeTo(o, n, n1, n2) =>
        (match ChangePassword(p, v, o, n, n1, n2) case Ok(v') => Some(v') case Err(_) => None)
      case Restart => Some(v.(kek := None, keys := None))
  }

  function Run(p: Primitives, v: Vault, ops: seq<Op>): Option<Vault>
  {
    if ops == [] then Some(v)
    else
      match Run(p, v, ops[..|ops| - 1])
      case None => None
      case Some(v') => Apply(p, v', ops[|ops| - 1])
  }

  // What a run should leave behind, read off the operations alone.

  function LatestPassword(initial: string, ops: seq<Op>): string
  {
    if ops == [] then initial
    else
      match ops[|ops| - 1]
      case ChangeTo(_, n, _, _) => n
      case _ => LatestPassword(initial, ops[..|ops| - 1])
  }

  function LatestCache(ops: seq<Op>): map<string, string>
  {
    if ops == [] then map[]
    else
      match ops[|ops| - 1]
      case SaveMessages(c, _) => c
      case _ => LatestCache(ops[..|ops| - 1])
  }

  /** The counters and pins when every wrapping operation is struck from the run. */
  function Bookkeeping(f: KeyFile, ops: seq<Op>): KeyFile
  {
    if ops == [] then f else BookkeepOne(Bookkeeping(f, ops[..|ops| - 1]), ops[|ops| - 1])
  }

  function BookkeepOne(f: KeyFile, op: Op): KeyFile
  {
    match op
    case PinKey(u, kind, key) => Pin(f, u, kind, key)
    case TakeSendSeq(r) => AdvanceSend(f, r)
    case RecordRecv(s, q) => SetRecv(f, s, q)
    case _ => f
  }

  /** The vault holds these keys under this password, and this cache: under the current
      KEK, or left under an earlier one when it is empty. */
  ghost predicate Holds(p: Primitives, v: Vault, salt: Bytes, password: string, keys: PrivateKeys,
                        cache: map<string, string>)
  {
    var kek := p.local.kek(password, salt);
    && v.file.Some? && v.file.value.salt == salt
    && v.file.value.wrapped == Wrap(p, kek, keys.x25519 + keys.ed25519, v.file.value.wrapped.nonce)
    && (v.kek.Some? ==> v.kek.value == kek)
    && (v.cacheFile.None? ==> cache == map[])
    && (v.cacheFile.Some? ==>
          exists k ::
            v.cacheFile.value == SealCache(p, k, cache, v.cacheFile.value.nonce) && (k == kek || cache == map[]))
  }

  lemma UnwrapOwn(p: Primitives, k: Bytes, kek: Bytes, keys: PrivateKeys, blob: Blob)
    requires LawfulAead(p) && RejectsOtherKeys(p)
    requires blob == Wrap(p, kek, keys.x25519 + keys.ed25519, blob.nonce)
    requires |keys.x25519| == KEY_BYTES && |keys.ed25519| == KEY_BYTES
    ensures Unwrap(p, kek, blob) == Some(keys.x25519 + keys.ed25519)
    ensures SplitKeys(keys.x25519 + keys.ed25519) == keys
    ensures Unwrap(p, k, blob).Some? ==> k == kek
  {
    var b := keys.x25519 + keys.ed25519;
    assert p.aead.unseal(kek, blob.nonce, p.aead.seal(kek, blob.nonce, b, p.text.encode(KEYSTORE_AAD)),
                         p.text.encode(KEYSTORE_AAD))
        == Some(b);
    assert b[..KEY_BYTES] == keys.x25519 && b[KEY_BYTES..2 * KEY_BYTES] == keys.ed25519;
  }

  /** Opening a cache file under any key gives its content when it is the right key, and nothing otherwise. */
  lemma DecryptSealed(p: Primitives, k: Bytes, kek: Bytes, cache: map<string, string>, nonce: Bytes)
    requires LawfulAead(p) && RejectsOtherKeys(p) && LawfulJson(p)
    ensures DecryptCache(p, Some(k), Some(SealCache(p, kek, cache, nonce))) == (if k == kek then cache else map[])
  {
    var aad := p.text.encode(CACHE_AAD);
    assert p.aead.unseal(kek, nonce, p.aead.seal(kek, nonce, p.local.dumpCache(cache), aad), aad)
        == Some(p.local.dumpCache(cache));
    assert p.local.parseCache(p.local.dumpCache(cache)) == Some(cache);
  }

  /** Private keys and cache are sealed under associated data of their own. */
  lemma SeparateDomains(p: Primitives, kek: Bytes, keys: Bytes, cache: map<string, string>, nonce: Bytes)
    requires LawfulText(p)
    ensures Wrap(p, kek, keys, nonce).ciphertext == p.aead.seal(kek, nonce, keys, p.text.encode("zebra-keystore-v1"))
    ensures SealCache(p, kek, cache, nonce).ciphertext
         == p.aead.seal(kek, nonce, p.local.dumpCache(cache), p.text.encode("zebra-msgcache-v1"))
    ensures p.text.encode("zebra-keystore-v1") != p.text.encode("zebra-msgcache-v1")
  {
    var a, b := "zebra-keystore-v1", "zebra-msgcache-v1";
    assert a[6] == 'k' && b[6] == 'm';
    assert p.text.decode(p.text.encode(a)) == Some(a) && p.text.decode(p.text.encode(b)) == Some(b);
  }

  lemma ApplyHolds(p: Primitives, v: Vault, op: Op, salt: Bytes, password: string, keys: PrivateKeys,
                   cache: map<string, string>)
    requires LawfulAead(p) && RejectsOtherKeys(p) && LawfulJson(p)
    requires |keys.x25519| == KEY_BYTES && |keys.ed25519| == KEY_BYTES
    requires Holds(p, v, salt, password, keys, cache) && Apply(p, v, op).Some?
    ensures Holds(p, Apply(p, v, op).value, salt, if op.ChangeTo? then op.newPassword else password, keys,
                  if op.SaveMessages? then op.cache else cache)
    ensures Apply(p, v, op).value.file.value
         == BookkeepOne(v.file.value, op).(wrapped := Apply(p, v, op).value.file.value.wrapped)
  {
    var f := v.file.value;
    var kek := p.local.kek(password, salt);
    if op.UnlockWith? {
      UnwrapOwn(p, p.local.kek(op.password, salt), kek, keys, f.wrapped);
    } else if op.ChangeTo? {
      var oldKek := p.local.kek(op.oldPassword, salt);
      UnwrapOwn(p, oldKek, kek, keys, f.wrapped);
      if v.cacheFile.Some? {
        var k :| v.cacheFile.value == SealCache(p, k, cache, v.cacheFile.value.nonce) && (k == kek || cache == map[]);
        DecryptSealed(p, oldKek, k, cache, v.cacheFile.value.nonce);
      }
    }
  }

  lemma {:induction false} BookkeepingKeepsOwn(f: KeyFile, ops: seq<Op>)
    ensures Bookkeeping(f, ops).own == f.own
  {
    if ops != [] {
      BookkeepingKeepsOwn(f, ops[..|ops| - 1]);
    }
  }

  lemma BookkeepingIgnoresWrapping(f: KeyFile, op: Op, blob: Blob)
    ensures BookkeepOne(f.(wrapped := blob), op) == BookkeepOne(f, op).(wrapped := blob)
  {
  }

  lemma {:induction false} RunHolds(p: Primitives, v0: Vault, ops: seq<Op>, salt: Bytes, password: string,
                                    keys: PrivateKeys)
    requires LawfulAead(p) && RejectsOtherKeys(p) && LawfulJson(p)
    requires |keys.x25519| == KEY_BYTES && |keys.ed25519| == KEY_BYTES
    requires Holds(p, v0, salt, password, keys, map[]) && Run(p, v0, ops).Some?
    ensures Holds(p, Run(p, v0, ops).value, salt, LatestPassword(password, ops), keys, LatestCache(ops))
    ensures Run(p, v0, ops).value.file.value
         == Bookkeeping(v0.file.value, ops).(wrapped := Run(p, v0, ops).value.file.value.wrapped)
  {
    hide Apply, BookkeepOne, Wrap, SealCache;
    if ops != [] {
      var init := ops[..|ops| - 1];
      RunHolds(p, v0, init, salt, password, keys);
      BookkeepingIgnoresWrapping(Bookkeeping(v0.file.value, init), ops[|ops| - 1],
                                 Run(p, v0, init).value.file.value.wrapped);
      ApplyHolds(p, Run(p, v0, init).value, ops[|ops| - 1], salt, LatestPassword(password, init), keys,
                 LatestCache(init));
    }
  }

  /** After any run of successful operations on a new keystore, the latest password unlocks the
      keys made at creation, the cache loads as last saved, and pins and counters are what the run
      would have made of the empty ones had no password ever changed; the public keys in the file
      are those of the private keys. */
  lemma {:induction false} KeystoreSurvivesPasswordChanges(p: Primitives, password: string, salt: Bytes,
                                                           keys: PrivateKeys, nonce: Bytes, ops: seq<Op>)
    requires LawfulAead(p) && RejectsOtherKeys(p) && LawfulJson(p)
    requires |keys.x25519| == 32 && |keys.ed25519| == 32
    requires Run(p, Create(p, Vault(None, None, None, None), password, salt, keys, nonce).value, ops).Some?
    ensures var v0 := Create(p, Vault(None, None, None, None), password, salt, keys, nonce).value;
            var v := Run(p, v0, ops).value;
            var (unlocked, outcome) := Unlock(p, v, LatestPassword(password, ops));
            && outcome == Ok(())
            && unlocked.keys == Some(keys)
            && DecryptCache(p, unlocked.kek, unlocked.cacheFile) == LatestCache(ops)
            && v.file.value.peers == Bookkeeping(v0.file.value, ops).peers
            && v.file.value.seqSend == Bookkeeping(v0.file.value, ops).seqSend
            && v.file.value.seqRecv == Bookkeeping(v0.file.value, ops).seqRecv
            && v.file.value.own == PeerKeys(Some(p.dh.xPub(keys.x25519)), Some(p.ed.pub(keys.ed25519)))
            && v0.file.value.peers == map[] && v0.file.value.seqSend == map[] && v0.file.value.seqRecv == map[]
  {
    var v0 := Create(p, Vault(None, None, None, None), password, salt, keys, nonce).value;
    RunHolds(p, v0, ops, salt, password, keys);
    BookkeepingKeepsOwn(v0.file.value, ops);
    var v := Run(p, v0, ops).value;
    var kek := p.local.kek(LatestPassword(password, ops), salt);
    UnwrapOwn(p, kek, kek, keys, v.file.value.wrapped);
    if v.cacheFile.Some? {
      var cache := LatestCache(ops);
      var k :| v.cacheFile.value == SealCache(p, k, cache, v.cacheFile.value.nonce) && (k == kek || cache == map[]);
      DecryptSealed(p, kek, k, cache, v.cacheFile.value.nonce);
    }
  }
}
