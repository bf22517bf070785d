// A run of two inbox passes that differ in their order alone and show different
// texts, with primitives that obey every law.
module RotationDuringPass {
  import opened Wrappers
  import opened Encoding
  import opened Primitives
  import opened Messaging
  import opened Keystore
  import opened KeyService
  import opened Inbox
  import opened InboxOrder
  import opened LawsAreConsistent

  /** The keys of one sender before and after a rotation of the signing key, as the directory serves them. */
  function ServedKeys(ed: Bytes): seq<ServedKey>
  {
    [ServedKey(X25519, [3]), ServedKey(Ed25519, ed)]
  }

  function SomeNonce(): (r: Bytes)
    ensures |r| == NONCE_BYTES
  {
    seq(NONCE_BYTES, _ => 0)
  }

  ghost function Sealed(text: string, seqNo: int, ed: Bytes): Envelope
  {
    var ciphertext := SealUnder([], SomeNonce(), Encode(text), BuildAad(Toy(), "a", "b", seqNo));
    Envelope(ciphertext, SomeNonce(), ed, seqNo, Encode(text))
  }

  lemma SealedIsSeal(text: string, seqNo: int, ed: Bytes)
    ensures Seal(Toy(), text, "a", "b", seqNo, [3], ed, [1], SomeNonce()) == Some(Sealed(text, seqNo, ed))
    ensures Sealed(text, seqNo, ed).ciphertext != []
  {
    hide Decimal, Encode, SomeNonce;
  }

  lemma {:induction false} OpensUnderItsKey(who: Identity, dir: Directory, c: Client, m: Message, text: string,
                                            seqNo: int, ed: Bytes)
    requires who.p == Toy() && who.me == "b" && who.available && who.keys.Some? && who.keys.value.x25519 == [1]
    requires c.cache == map[] && c.file.peers == map[] && m.sender == "a" && m.env == Sealed(text, seqNo, ed)
    requires dir(m) == Some(ServedKeys(ed))
    ensures Judge(who, dir, c, m) == Opened(text)
    ensures Offered(dir(m), Ed25519) == Some(ed)
    ensures forall key :: key != ed ==> SignatureFails(who, m, key)
  {
    var p := Toy();
    LawfulPrimitivesExist();
    SealedIsSeal(text, seqNo, ed);
    assert p.dh.xPub([1]) == [1] && p.dh.xPub([3]) == [3] && p.ed.pub(ed) == ed;
    OpenInvertsSeal(p, text, "a", "b", seqNo, [3], ed, [1], SomeNonce(), None);
    hide Toy, OpenMessage, SomeNonce, Seal, Sealed, Lawful;
    assert First(ServedKeys(ed), X25519) == Some([3]);
    assert ServedKeys(ed)[1..] == [ServedKey(Ed25519, ed)] && First(ServedKeys(ed)[1..], Ed25519) == Some(ed);
    assert First(ServedKeys(ed), Ed25519) == Some(ed);
  }

  /** And it happens, with lawful primitives: a sender rotates the signing key between two messages, and each message's
      own request is answered with the keys it was sealed under. Whichever comes first opens; the other shows as
      unverified. */
  lemma {:induction false} OrderCanMatter(text: string, next: string)
    returns (who: Identity, dir: Directory, c: Client, m: Message, n: Message)
    ensures Lawful(who.p) && RejectsOtherKeys(who.p) && m.id != n.id && m.sender == n.sender
    ensures m.env.seqNo < n.env.seqNo && c.texts == map[] && c.file.peers == map[]
    ensures Judge(who, dir, c, m) == Opened(text) && Judge(who, dir, c, n) == Opened(next)
    ensures Pass(who, dir, c, [m, n]).texts == map[m.id := text, n.id := UNVERIFIED]
    ensures Pass(who, dir, c, [n, m]).texts == map[n.id := next, m.id := UNVERIFIED]
  {
    LawfulPrimitivesExist();
    m, n := Message("1", "a", Sealed(text, 1, [4])), Message("2", "a", Sealed(next, 2, [5]));
    var before := m;
    dir := x => Some(ServedKeys(if x == before then [4] else [5]));
    who := Identity(Toy(), "b", Some(PrivateKeys([1], [2])), true);
    c := Client(KeyFile([], Blob([], []), NO_KEYS, map[], map[], map[]), map[], map[], {}, []);
    SealedIsSeal(text, 1, [4]);
    SealedIsSeal(next, 2, [5]);
    OpensUnderItsKey(who, dir, c, m, text, 1, [4]);
    OpensUnderItsKey(who, dir, c, n, next, 2, [5]);
    hide Toy, Judge, Pass, SignatureFails, Lawful, RejectsOtherKeys, Sealed, ServedKeys;
    UnsteadyAnswersMatter(who, dir, c, m, n, [5]);
    UnsteadyAnswersMatter(who, dir, c, n, m, [4]);
  }
}
