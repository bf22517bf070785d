// client/src/crypto/messaging.py: the sealed envelope, what is authenticated
// in it, and the ordered checks made on opening one.
module Messaging {
  import opened Wrappers
  import opened Encoding
  import opened Primitives

  /** The wire fields, after base64 decoding. */
  datatype Envelope = Envelope(ciphertext: Bytes, nonce: Bytes, signature: Bytes, seqNo: int, digest: Bytes)

  /** SignatureError, ReplayError, and every other exception opening can raise. */
  datatype OpenError = BadSignature | Replay | Undecryptable

  const NONCE_BYTES := 12

  predicate UserId(id: string)
  {
    '|' !in id
  }

  function MessageKey(p: Primitives, priv: Bytes, pub: Bytes): Option<Bytes>
  {
    match p.dh.exchange(priv, pub)
    case None => None
    case Some(secret) => Some(p.dh.hkdf(secret))
  }

  function BuildAad(p: Primitives, sender: string, recipient: string, seqNo: int): Bytes
  {
    p.text.encode(sender + "|" + recipient + "|" + Decimal(seqNo))
  }

  function SignedPayload(p: Primitives, sender: string, recipient: string, seqNo: int,
                         ciphertext: Bytes, nonce: Bytes): Bytes
  {
    p.text.encode(sender + "|" + recipient + "|" + Decimal(seqNo) + "|") + ciphertext + [BAR] + nonce
  }

  /** None when the key exchange raises. The nonce is the fresh one drawn by aead_encrypt. */
  function Seal(p: Primitives, plaintext: string, sender: string, recipient: string, seqNo: int,
                myX: Bytes, myEd: Bytes, peerX: Bytes, nonce: Bytes): Option<Envelope>
  {
    match MessageKey(p, myX, peerX)
    case None => None
    case Some(key) =>
      var ciphertext := p.aead.seal(key, nonce, p.text.encode(plaintext), BuildAad(p, sender, recipient, seqNo));
      var signature := p.ed.sign(SignedPayload(p, sender, recipient, seqNo, ciphertext, nonce), myEd);
      Some(Envelope(ciphertext, nonce, signature, seqNo, p.hash.keccak(p.text.encode(plaintext))))
  }

  function OpenMessage(p: Primitives, env: Envelope, sender: string, recipient: string,
                       myX: Bytes, peerX: Bytes, peerEd: Bytes,
                       lastSeq: Option<int>, enforceReplay: bool): Result<(string, int), OpenError>
  {
    var payload := SignedPayload(p, sender, recipient, env.seqNo, env.ciphertext, env.nonce);
    match p.ed.verify(payload, env.signature, peerEd)
    case None => Err(Undecryptable)
    case Some(false) => Err(BadSignature)
    case Some(true) =>
      if enforceReplay && lastSeq.Some? && env.seqNo <= lastSeq.value then Err(Replay)
      else
        match MessageKey(p, myX, peerX)
        case None => Err(Undecryptable)
        case Some(key) =>
          match p.aead.unseal(key, env.nonce, env.ciphertext, BuildAad(p, sender, recipient, env.seqNo))
          case None => Err(Undecryptable)
          case Some(bytes) =>
            match p.text.decode(bytes)
            case None => Err(Undecryptable)
            case Some(text) => Ok((text, env.seqNo))
  }

  // ----- what the authenticated bytes determine -----

  lemma EncodedFields(p: Primitives, s: string, r: string, rest: string)
    requires LawfulText(p) && UserId(s) && UserId(r)
    ensures p.text.encode(s + "|" + r + "|" + rest)
         == p.text.encode(s) + [BAR] + (p.text.encode(r) + [BAR] + p.text.encode(rest))
    ensures BAR !in p.text.encode(s) && BAR !in p.text.encode(r)
  {
    assert s + "|" + r + "|" + rest == s + (BAR_STRING + (r + (BAR_STRING + rest)));
    assert p.text.encode(r + (BAR_STRING + rest))
        == p.text.encode(r) + (p.text.encode(BAR_STRING) + p.text.encode(rest));
    assert p.text.encode(s + (BAR_STRING + (r + (BAR_STRING + rest))))
        == p.text.encode(s)
           + (p.text.encode(BAR_STRING) + (p.text.encode(r) + (p.text.encode(BAR_STRING) + p.text.encode(rest))));
  }

  /** The AAD is sender, recipient and number, each followed by a delimiter but the last. */
  lemma AadFields(p: Primitives, s: string, r: string, q: int)
    requires LawfulText(p) && UserId(s) && UserId(r)
    ensures BuildAad(p, s, r, q)
         == p.text.encode(s) + [124] + (p.text.encode(r) + [124] + p.text.encode(Decimal(q)))
  {
    EncodedFields(p, s, r, Decimal(q));
  }

  lemma EncodeInjective(p: Primitives, s: string, t: string)
    requires LawfulText(p) && p.text.encode(s) == p.text.encode(t)
    ensures s == t
  {
    assert p.text.decode(p.text.encode(s)) == p.text.decode(p.text.encode(t));
  }

  /** The AAD pins down sender, recipient and sequence number. */
  lemma AadInjective(p: Primitives, s: string, r: string, q: int, s': string, r': string, q': int)
    requires LawfulText(p) && UserId(s) && UserId(r) && UserId(s') && UserId(r')
    ensures BuildAad(p, s, r, q) == BuildAad(p, s', r', q') <==> s == s' && r == r' && q == q'
  {
    if BuildAad(p, s, r, q) == BuildAad(p, s', r', q') {
      EncodedFields(p, s, r, Decimal(q));
      EncodedFields(p, s', r', Decimal(q'));
      SplitAtBar(p.text.encode(s), p.text.encode(r) + [BAR] + p.text.encode(Decimal(q)),
                 p.text.encode(s'), p.text.encode(r') + [BAR] + p.text.encode(Decimal(q')));
      SplitAtBar(p.text.encode(r), p.text.encode(Decimal(q)), p.text.encode(r'), p.text.encode(Decimal(q')));
      EncodeInjective(p, s, s');
      EncodeInjective(p, r, r');
      EncodeInjective(p, Decimal(q), Decimal(q'));
      DecimalInjective(q, q');
    }
  }

  /** The signed payload is those three, the ciphertext and the nonce, with a delimiter between any two. */
  lemma PayloadFields(p: Primitives, s: string, r: string, q: int, c: Bytes, n: Bytes)
    requires LawfulText(p) && UserId(s) && UserId(r)
    ensures SignedPayload(p, s, r, q, c, n)
         == p.text.encode(s) + [124]
            + (p.text.encode(r) + [124] + (p.text.encode(Decimal(q)) + [124] + (c + [124] + n)))
    ensures BAR !in p.text.encode(s) && BAR !in p.text.encode(r) && BAR !in p.text.encode(Decimal(q))
  {
    EncodedFields(p, s, r, Decimal(q) + BAR_STRING);
    DecimalInjective(q, q);
    assert s + "|" + r + "|" + Decimal(q) + "|" == s + "|" + r + "|" + (Decimal(q) + BAR_STRING);
    assert p.text.encode(Decimal(q) + BAR_STRING) == p.text.encode(Decimal(q)) + [BAR];
    calc {
      p.text.encode(s) + [BAR] + (p.text.encode(r) + [BAR] + (p.text.encode(Decimal(q)) + [BAR])) + c + [BAR] + n;
      p.text.encode(s) + [BAR] + (p.text.encode(r) + [BAR] + (p.text.encode(Decimal(q)) + [BAR] + (c + [BAR] + n)));
    }
  }

  /** The signed payload always pins down sender, recipient and sequence number,
      and leaves open only where the ciphertext ends and the nonce begins. */
  lemma SignedPayloadDetermines(p: Primitives, s: string, r: string, q: int, c: Bytes, n: Bytes,
                                s': string, r': string, q': int, c': Bytes, n': Bytes)
    requires LawfulText(p) && UserId(s) && UserId(r) && UserId(s') && UserId(r')
    ensures SignedPayload(p, s, r, q, c, n) == SignedPayload(p, s', r', q', c', n')
       <==> s == s' && r == r' && q == q' && c + [BAR] + n == c' + [BAR] + n'
  {
    PayloadFields(p, s, r, q, c, n);
    PayloadFields(p, s', r', q', c', n');
    if SignedPayload(p, s, r, q, c, n) == SignedPayload(p, s', r', q', c', n') {
      var t, t' := c + [BAR] + n, c' + [BAR] + n';
      var d, d' := p.text.encode(Decimal(q)), p.text.encode(Decimal(q'));
      SplitAtBar(p.text.encode(s), p.text.encode(r) + [BAR] + (d + [BAR] + t), p.text.encode(s'),
                 p.text.encode(r') + [BAR] + (d' + [BAR] + t'));
      SplitAtBar(p.text.encode(r), d + [BAR] + t, p.text.encode(r'), d' + [BAR] + t');
      SplitAtBar(d, t, d', t');
      EncodeInjective(p, s, s');
      EncodeInjective(p, r, r');
      EncodeInjective(p, Decimal(q), Decimal(q'));
      DecimalInjective(q, q');
    }
  }

  /** With nonces of one length, as every drawn nonce has, the signed payload is injective in all five fields. */
  lemma SignedPayloadInjective(p: Primitives, s: string, r: string, q: int, c: Bytes, n: Bytes,
                               s': string, r': string, q': int, c': Bytes, n': Bytes)
    requires LawfulText(p) && UserId(s) && UserId(r) && UserId(s') && UserId(r')
    requires |n| == |n'|
    ensures SignedPayload(p, s, r, q, c, n) == SignedPayload(p, s', r', q', c', n')
       <==> s == s' && r == r' && q == q' && c == c' && n == n'
  {
    SignedPayloadDetermines(p, s, r, q, c, n, s', r', q', c', n');
    var t, t' := c + [BAR] + n, c' + [BAR] + n';
    if t == t' {
      assert c == t[..|c|] && c' == t'[..|c'|];
      assert n == t[|c| + 1..] && n' == t'[|c'| + 1..];
    }
  }

  /** The equal lengths are needed: moving the delimiter across the boundary signs the same bytes. */
  lemma SignedPayloadNeedsEqualNonceLengths(p: Primitives, s: string, r: string, q: int)
    ensures SignedPayload(p, s, r, q, [], [BAR]) == SignedPayload(p, s, r, q, [BAR], [])
  {
    var head := p.text.encode(s + "|" + r + "|" + Decimal(q) + "|");
    assert head + [] + [BAR] + [BAR] == head + [BAR] + [BAR] + [];
  }

  // ----- opening against sealing -----

  predicate IsReplay(lastSeq: Option<int>, seqNo: int)
  {
    lastSeq.Some? && seqNo <= lastSeq.value
  }

  /** Opening succeeds with a text exactly when the signature verifies, the number is new
      (where replay is enforced) and the ciphertext is that very text sealed under these fields. */
  lemma OpenExactly(p: Primitives, env: Envelope, sender: string, recipient: string, myX: Bytes, peerX: Bytes,
                    peerEd: Bytes, lastSeq: Option<int>, enforceReplay: bool, text: string)
    requires LawfulText(p) && LawfulAead(p)
    ensures OpenMessage(p, env, sender, recipient, myX, peerX, peerEd, lastSeq, enforceReplay) == Ok((text, env.seqNo))
       <==> && p.ed.verify(SignedPayload(p, sender, recipient, env.seqNo, env.ciphertext, env.nonce), env.signature,
                           peerEd)
               == Some(true)
            && !(enforceReplay && IsReplay(lastSeq, env.seqNo))
            && MessageKey(p, myX, peerX).Some?
            && env.ciphertext == p.aead.seal(MessageKey(p, myX, peerX).value, env.nonce, p.text.encode(text),
                                            BuildAad(p, sender, recipient, env.seqNo))
    ensures var outcome := OpenMessage(p, env, sender, recipient, myX, peerX, peerEd, lastSeq, enforceReplay);
            var verified := p.ed.verify(SignedPayload(p, sender, recipient, env.seqNo, env.ciphertext, env.nonce),
                                        env.signature, peerEd);
            && (outcome == Err(BadSignature) <==> verified == Some(false))
            && (outcome == Err(Replay)
                <==> verified == Some(true) && enforceReplay && lastSeq.Some? && env.seqNo <= lastSeq.value)
            && (outcome.Ok? ==> outcome.value.1 == env.seqNo)
  {
    var aad := BuildAad(p, sender, recipient, env.seqNo);
    if MessageKey(p, myX, peerX).Some? {
      var key := MessageKey(p, myX, peerX).value;
      if env.ciphertext == p.aead.seal(key, env.nonce, p.text.encode(text), aad) {
        assert p.aead.unseal(key, env.nonce, env.ciphertext, aad) == Some(p.text.encode(text));
        assert p.text.decode(p.text.encode(text)) == Some(text);
      }
    }
  }

  /** Replay enforcement is a filter laid over the unenforced outcome: it can only turn
      a correctly signed message into a Replay, and does so exactly on old numbers. */
  lemma EnforcementIsAFilter(p: Primitives, env: Envelope, sender: string, recipient: string, myX: Bytes,
                             peerX: Bytes, peerEd: Bytes, lastSeq: Option<int>)
    ensures var plain := OpenMessage(p, env, sender, recipient, myX, peerX, peerEd, None, false);
            var verified := p.ed.verify(SignedPayload(p, sender, recipient, env.seqNo, env.ciphertext, env.nonce),
                                     env.signature, peerEd) == Some(true);
            && OpenMessage(p, env, sender, recipient, myX, peerX, peerEd, lastSeq, false) == plain
            && OpenMessage(p, env, sender, recipient, myX, peerX, peerEd, lastSeq, true)
               == (if verified && IsReplay(lastSeq, env.seqNo) then Err(Replay) else plain)
            && plain != Err(Replay)
            && (plain == Err(BadSignature) ==> !verified)
            && (plain.Ok? ==> verified && plain.value.1 == env.seqNo)
  {
  }

  /** Both ends derive the same message key, expanded from the exchange of their own private key and the other's public
      key. */
  lemma KeyAgreement(p: Primitives, a: Bytes, b: Bytes)
    requires LawfulExchange(p)
    ensures MessageKey(p, a, p.dh.xPub(b)).Some? && MessageKey(p, a, p.dh.xPub(b)) == MessageKey(p, b, p.dh.xPub(a))
    ensures MessageKey(p, a, p.dh.xPub(b)) == Some(p.dh.hkdf(p.dh.exchange(a, p.dh.xPub(b)).value))
  {
    assert p.dh.exchange(a, p.dh.xPub(b)) == p.dh.exchange(b, p.dh.xPub(a));
  }

  /** A sealed envelope opens to its text and number for the recipient, and for the sender with the recipient's public
      key; only an old number is turned away. Its digest is the hash of that text. */
  lemma OpenInvertsSeal(p: Primitives, text: string, sender: string, recipient: string, seqNo: int,
                        senderX: Bytes, senderEd: Bytes, recipientX: Bytes, nonce: Bytes, lastSeq: Option<int>)
    requires Lawful(p)
    ensures var sealed := Seal(p, text, sender, recipient, seqNo, senderX, senderEd, p.dh.xPub(recipientX), nonce);
            && sealed.Some? && sealed.value.seqNo == seqNo && sealed.value.nonce == nonce
            && sealed.value.digest == p.hash.keccak(p.text.encode(text))
            && OpenMessage(p, sealed.value, sender, recipient, recipientX, p.dh.xPub(senderX), p.ed.pub(senderEd),
                           lastSeq, true)
               == (if IsReplay(lastSeq, seqNo) then Err(Replay) else Ok((text, seqNo)))
            && OpenMessage(p, sealed.value, sender, recipient, recipientX, p.dh.xPub(senderX), p.ed.pub(senderEd),
                           lastSeq, false)
               == Ok((text, seqNo))
            && OpenMessage(p, sealed.value, sender, recipient, senderX, p.dh.xPub(recipientX), p.ed.pub(senderEd),
                           None, false)
               == Ok((text, seqNo))
  {
    KeyAgreement(p, senderX, recipientX);
    var env := Seal(p, text, sender, recipient, seqNo, senderX, senderEd, p.dh.xPub(recipientX), nonce).value;
    var payload := SignedPayload(p, sender, recipient, seqNo, env.ciphertext, nonce);
    assert p.ed.verify(payload, p.ed.sign(payload, senderEd), p.ed.pub(senderEd)) == Some(true);
    OpenExactly(p, env, sender, recipient, recipientX, p.dh.xPub(senderX), p.ed.pub(senderEd), None, false, text);
    OpenExactly(p, env, sender, recipient, senderX, p.dh.xPub(recipientX), p.ed.pub(senderEd), None, false, text);
    EnforcementIsAFilter(p, env, sender, recipient, recipientX, p.dh.xPub(senderX), p.ed.pub(senderEd), lastSeq);
  }
}
