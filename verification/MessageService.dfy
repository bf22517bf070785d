// client/src/services/message_service.py: the counters and pins around sealing
// and opening one message.
module MessageService {
  import opened Wrappers
  import opened Encoding
  import opened Primitives
  import opened Messaging
  import opened Keystore
  import opened KeyService

  /** RuntimeError for absent keys, a locked keystore, a failed exchange, or what opening raised. */
  datatype ServiceError = MissingKeys | Locked | ExchangeFailed | Refused(reason: OpenError)

  datatype Outcome<T> = Outcome(file: KeyFile, result: Result<T, ServiceError>)

  /** What `send` and `forward` do before posting: pin, take the next number, seal. */
  function Prepare(p: Primitives, f: KeyFile, keys: Option<PrivateKeys>, me: string, recipient: string,
                   text: string, served: seq<ServedKey>, nonce: Bytes): Outcome<Envelope>
  {
    var fetched := FetchAndPin(f, recipient, served);
    if fetched.keys.x25519.None? then Outcome(fetched.file, Err(MissingKeys))
    else if keys.None? then Outcome(fetched.file, Err(Locked))
    else
      var f' := AdvanceSend(fetched.file, recipient);
      match Seal(p, text, me, recipient, SendCount(f', recipient), keys.value.x25519, keys.value.ed25519,
                 fetched.keys.x25519.value, nonce)
      case None => Outcome(f', Err(ExchangeFailed))
      case Some(env) => Outcome(f', Ok(env))
  }

  /** `receive` with the sender's keys already fetched. */
  function Receive(p: Primitives, f: KeyFile, keys: Option<PrivateKeys>, me: string, sender: string, env: Envelope,
                   pinned: PeerKeys, enforceReplay: bool): Outcome<string>
  {
    if pinned.x25519.None? || pinned.ed25519.None? then Outcome(f, Err(MissingKeys))
    else if keys.None? then Outcome(f, Err(Locked))
    else
      match OpenMessage(p, env, sender, me, keys.value.x25519, pinned.x25519.value, pinned.ed25519.value,
                        LastRecv(f, sender), enforceReplay)
      case Err(e) => Outcome(f, Err(Refused(e)))
      case Ok((text, seqNo)) => Outcome(if enforceReplay then SetRecv(f, sender, seqNo) else f, Ok(text))
  }

  /** `decrypt_own`: our own signature, the recipient's pinned exchange key, no counter. */
  function DecryptOwn(p: Primitives, f: KeyFile, keys: Option<PrivateKeys>, me: string, recipient: string,
                      env: Envelope, pinned: PeerKeys): Result<string, ServiceError>
  {
    if pinned.x25519.None? then Err(MissingKeys)
    else if keys.None? || f.own.ed25519.None? then Err(Locked)
    else
      match OpenMessage(p, env, me, recipient, keys.value.x25519, pinned.x25519.value, f.own.ed25519.value, None, false)
      case Err(e) => Err(Refused(e))
      case Ok((text, _)) => Ok(text)
  }

  class MessageService {
    const keystore: Keystore
    const keySvc: KeyService
    const userId: string

    ghost predicate Valid()
      reads keystore
    {
      keySvc.keystore == keystore && keystore.file.Some?
    }

    constructor (keystore: Keystore, userId: string)
      requires keystore.file.Some?
      ensures Valid() && this.keystore == keystore && this.userId == userId && fresh(keySvc)
    {
      this.keystore, this.userId := keystore, userId;
      keySvc := new KeyService(keystore);
    }

    /** The common part of `send` and `forward`; the caller posts the envelope. */
    method SealFor(recipient: string, text: string, served: seq<ServedKey>, nonce: Bytes)
      returns (result: Result<Envelope, ServiceError>, changed: bool)
      requires Valid()
      modifies keystore`file
      ensures Valid()
      ensures Outcome(keystore.file.value, result)
           == Prepare(keystore.p, old(keystore.file.value), keystore.keys, userId, recipient, text, served, nonce)
      ensures changed == FetchAndPin(old(keystore.file.value), recipient, served).changed
    {
      var pinned: PeerKeys;
      pinned, changed := keySvc.FetchAndPinKeys(recipient, served);
      if pinned.x25519.None? {
        return Err(MissingKeys), changed;
      }
      if keystore.keys.None? {
        return Err(Locked), changed;
      }
      var seqNo := keystore.NextSendSeq(recipient);
      var sealed := Seal(keystore.p, text, userId, recipient, seqNo, keystore.keys.value.x25519,
                         keystore.keys.value.ed25519, pinned.x25519.value, nonce);
      return (if sealed.None? then Err(ExchangeFailed) else Ok(sealed.value)), changed;
    }

    method ReceiveMessage(sender: string, env: Envelope, pinned: PeerKeys, enforceReplay: bool)
      returns (result: Result<string, ServiceError>)
      requires Valid()
      modifies keystore`file
      ensures Valid()
      ensures Outcome(keystore.file.value, result)
           == Receive(keystore.p, old(keystore.file.value), keystore.keys, userId, sender, env, pinned, enforceReplay)
    {
      if pinned.x25519.None? || pinned.ed25519.None? {
        return Err(MissingKeys);
      }
      if keystore.keys.None? {
        return Err(Locked);
      }
      var outcome := OpenMessage(keystore.p, env, sender, userId, keystore.keys.value.x25519, pinned.x25519.value,
                                pinned.ed25519.value, LastRecv(keystore.file.value, sender), enforceReplay);
      if outcome.Err? {
        return Err(Refused(outcome.error));
      }
      if enforceReplay {
        keystore.SetRecvSeq(sender, outcome.value.1);
      }
      return Ok(outcome.value.0);
    }
  }
}
