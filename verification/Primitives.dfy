// The libraries the client calls (X25519, Ed25519, AES-256-GCM, HKDF, Argon2id,
// keccak256, UTF-8, JSON) as a record of functions, and the facts about them
// that every result of this project rests on.
module Primitives {
  import opened Wrappers
  import opened Encoding

  datatype TextCodec = TextCodec(
    encode: string -> Bytes,                                // str.encode("utf-8")
    decode: Bytes -> Option<string>)                        // bytes.decode("utf-8"), None when it raises

  datatype KeyExchange = KeyExchange(
    xPub: Bytes -> Bytes,                                   // X25519 public key of a private key
    exchange: (Bytes, Bytes) -> Option<Bytes>,              // X25519(sk, pk), None when it raises
    hkdf: Bytes -> Bytes)                                   // HKDF-Expand, info "zebra-msg-v1"

  datatype Aead = Aead(
    seal: (Bytes, Bytes, Bytes, Bytes) -> Bytes,            // key, nonce, plaintext, aad
    unseal: (Bytes, Bytes, Bytes, Bytes) -> Option<Bytes>)  // key, nonce, ciphertext, aad; None on InvalidTag

  datatype Signing = Signing(
    pub: Bytes -> Bytes,                                    // Ed25519 public key of a private key
    sign: (Bytes, Bytes) -> Bytes,                          // payload, sk
    verify: (Bytes, Bytes, Bytes) -> Option<bool>)          // payload, signature, pk; None on a malformed pk

  datatype Hashing = Hashing(keccak: Bytes -> Bytes)

  datatype LocalStore = LocalStore(
    kek: (string, Bytes) -> Bytes,                          // Argon2id + HKDF: password, salt
    dumpCache: map<string, string> -> Bytes,                // json.dumps(...).encode("utf-8")
    parseCache: Bytes -> Option<map<string, string>>)

  datatype Primitives = Primitives(text: TextCodec, dh: KeyExchange, aead: Aead, ed: Signing, hash: Hashing,
                                   local: LocalStore)

  /** UTF-8: concatenation is kept, decoding undoes encoding, and 0x7C stands for '|' alone (section 3 of RFC 3629). */
  ghost predicate LawfulText(p: Primitives)
  {
    && (forall s, t :: p.text.encode(s + t) == p.text.encode(s) + p.text.encode(t))
    && (forall s :: p.text.decode(p.text.encode(s)) == Some(s))
    && (forall b :: p.text.decode(b).Some? ==> b == p.text.encode(p.text.decode(b).value))
    && p.text.encode(BAR_STRING) == [BAR]
    && (forall s :: BAR in p.text.encode(s) ==> '|' in s)
  }

  /** X25519 commutes (section 6.1 of RFC 7748) and never refuses an honestly made public key. */
  ghost predicate LawfulExchange(p: Primitives)
  {
    forall a, b ::
      p.dh.exchange(a, p.dh.xPub(b)).Some? && p.dh.exchange(a, p.dh.xPub(b)) == p.dh.exchange(b, p.dh.xPub(a))
  }

  /** AEAD (section 2 of RFC 5116): opening gives a plaintext exactly when the ciphertext is its encryption. */
  ghost predicate LawfulAead(p: Primitives)
  {
    && (forall k, n, t, d :: p.aead.unseal(k, n, p.aead.seal(k, n, t, d), d) == Some(t))
    && (forall k, n, c, d :: p.aead.unseal(k, n, c, d).Some? ==>
          c == p.aead.seal(k, n, p.aead.unseal(k, n, c, d).value, d))
  }

  /** A ciphertext opens under no key but its own: the usual idealisation of a wrong key being rejected. */
  ghost predicate RejectsOtherKeys(p: Primitives)
  {
    forall k, k', n, t, d :: p.aead.unseal(k', n, p.aead.seal(k, n, t, d), d).Some? ==> k == k'
  }

  /** Ed25519 (section 5.1 of RFC 8032): what was signed verifies under the signer's public key. */
  ghost predicate LawfulSign(p: Primitives)
  {
    forall m, sk :: p.ed.verify(m, p.ed.sign(m, sk), p.ed.pub(sk)) == Some(true)
  }

  ghost predicate LawfulJson(p: Primitives)
  {
    forall c :: p.local.parseCache(p.local.dumpCache(c)) == Some(c)
  }

  ghost predicate Lawful(p: Primitives)
  {
    LawfulText(p) && LawfulExchange(p) && LawfulAead(p) && LawfulSign(p)
  }
}
