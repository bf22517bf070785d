// client/src/services/key_service.py: trust-on-first-use pinning and the
// comparison of a pin with the directory's rotation history.
module KeyService {
  import opened Wrappers
  import opened Encoding
  import opened Keystore

  datatype ServedKey = ServedKey(kind: KeyKind, key: Bytes)

  datatype Fetched = Fetched(file: KeyFile, keys: PeerKeys, changed: bool)

  /** next((k for k in data if k["keyType"] == kt), None) */
  function First(served: seq<ServedKey>, kind: KeyKind): (r: Option<Bytes>)
    ensures r.Some? ==> exists i :: 0 <= i < |served| && served[i] == ServedKey(kind, r.value)
                                    && forall j :: 0 <= j < i ==> served[j].kind != kind
    ensures r.None? ==> forall k :: ServedKey(kind, k) !in served
  {
    if served == [] then None
    else if served[0].kind == kind then Some(served[0].key)
    else First(served[1..], kind)
  }

  function OrElse<T>(a: Option<T>, b: Option<T>): Option<T>
  {
    if a.Some? then a else b
  }

  predicate Differs(pinned: Option<Bytes>, served: Option<Bytes>)
  {
    pinned.Some? && served.Some? && pinned != served
  }

  /** An existing pin always wins; a key the server does not serve is not returned even if pinned. */
  function FetchAndPin(f: KeyFile, user: string, served: seq<ServedKey>): Fetched
  {
    var before := PeerOf(f, user);
    var x, e := First(served, X25519), First(served, Ed25519);
    var after := PeerKeys(OrElse(before.x25519, x), OrElse(before.ed25519, e));
    Fetched(if after == before then f else f.(peers := f.peers[user := after]),
            PeerKeys(if x.None? then None else after.x25519, if e.None? then None else after.ed25519),
            Differs(before.x25519, x) || Differs(before.ed25519, e))
  }

  function Reconcile(pinned: Option<Bytes>, current: Option<Bytes>, history: Option<seq<Bytes>>): bool
  {
    pinned.None? || current == pinned || (history.Some? && pinned.value in history.value)
  }

  /** Fetching twice against one directory is fetching once: the same keys and the same warning. */
  lemma FetchAgain(f: KeyFile, user: string, served: seq<ServedKey>)
    ensures var once := FetchAndPin(f, user, served);
            FetchAndPin(once.file, user, served) == once
  {
  }

  /** A pin, once made, is never replaced, whatever the server serves later; and nothing but
      this user's missing pins is touched. */
  lemma PinsAreForever(f: KeyFile, user: string, served: seq<ServedKey>, other: string, kind: KeyKind)
    ensures var f' := FetchAndPin(f, user, served).file;
            && Pinned(f', other, kind) == (if other == user then OrElse(Pinned(f, user, kind), First(served, kind))
                                           else Pinned(f, other, kind))
            && f' == f.(peers := f'.peers)
            && (Pinned(f, other, kind).Some? ==> Pinned(f', other, kind) == Pinned(f, other, kind))
            && (Pinned(f, user, kind).None? ==> Pinned(f', user, kind) == First(served, kind))
  {
  }

  /** What is returned for a kind is the pin as it is afterwards, and never a served key that differs from it; the
      warning is raised exactly when a key served differs from the pin there was. */
  lemma FetchReturnsThePin(f: KeyFile, user: string, served: seq<ServedKey>, kind: KeyKind)
    ensures var fetched := FetchAndPin(f, user, served);
            && Get(fetched.keys, kind) == (if First(served, kind).None? then None else Pinned(fetched.file, user, kind))
            && (fetched.changed <==>
                  exists k ::
                    Pinned(f, user, k).Some? && First(served, k).Some? && Pinned(f, user, k) != First(served, k))
  {
    var before := PeerOf(f, user);
    assert Pinned(f, user, X25519) == before.x25519 && Pinned(f, user, Ed25519) == before.ed25519;
  }

  class KeyService {
    const keystore: Keystore

    constructor (keystore: Keystore)
      ensures this.keystore == keystore
    {
      this.keystore := keystore;
    }

    method FetchAndPinKeys(user: string, served: seq<ServedKey>) returns (result: PeerKeys, changed: bool)
      requires keystore.file.Some?
      modifies keystore`file
      ensures keystore.file.Some?
      ensures Fetched(keystore.file.value, result, changed) == FetchAndPin(old(keystore.file.value), user, served)
    {
      hide FetchAndPin, ServedUpTo;
      ghost var f0 := keystore.file.value;
      NothingFetched(f0, user, served);
      result, changed := NO_KEYS, false;
      var kinds := [X25519, Ed25519];
      for i := 0 to 2
        invariant keystore.file.Some?
        invariant Fetched(keystore.file.value, result, changed) == FetchAndPin(f0, user, ServedUpTo(served, i))
      {
        var kind := kinds[i];
        var pub := First(served, kind);
        TurnFetches(f0, user, served, i, Fetched(keystore.file.value, result, changed), kind);
        if pub.Some? {
          var pinned := Pinned(keystore.file.value, user, kind);
          if pinned.None? {
            keystore.PinPeerKey(user, kind, pub.value);
            result := Put(result, kind, pub);
          } else if pinned != pub {
            changed := true;
            result := Put(result, kind, pinned);
          } else {
            result := Put(result, kind, pinned);
          }
        }
      }
      AllFetched(f0, user, served);
    }
  }

  /** The served keys of the kinds the loop has reached. */
  ghost function ServedUpTo(served: seq<ServedKey>, i: nat): seq<ServedKey>
  {
    (if i >= 1 && First(served, X25519).Some? then [ServedKey(X25519, First(served, X25519).value)] else [])
    + (if i >= 2 && First(served, Ed25519).Some? then [ServedKey(Ed25519, First(served, Ed25519).value)] else [])
  }

  lemma ServedUpToAt(served: seq<ServedKey>, i: nat)
    ensures First(ServedUpTo(served, i), X25519) == (if i >= 1 then First(served, X25519) else None)
    ensures First(ServedUpTo(served, i), Ed25519) == (if i >= 2 then First(served, Ed25519) else None)
  {
    var x, e := First(served, X25519), First(served, Ed25519);
    if x.Some? && e.Some? {
      assert [ServedKey(X25519, x.value), ServedKey(Ed25519, e.value)][1..] == [ServedKey(Ed25519, e.value)];
    }
  }

  lemma NothingFetched(f: KeyFile, user: string, served: seq<ServedKey>)
    ensures FetchAndPin(f, user, ServedUpTo(served, 0)) == Fetched(f, NO_KEYS, false)
  {
    ServedUpToAt(served, 0);
  }

  lemma AllFetched(f: KeyFile, user: string, served: seq<ServedKey>)
    ensures FetchAndPin(f, user, ServedUpTo(served, 2)) == FetchAndPin(f, user, served)
  {
    ServedUpToAt(served, 2);
  }

  /** One turn of the loop, on values. */
  function Turn(so: Fetched, user: string, kind: KeyKind, pub: Option<Bytes>): Fetched
  {
    var pinned := Pinned(so.file, user, kind);
    if pub.None? then so
    else if pinned.None? then Fetched(Pin(so.file, user, kind, pub.value), Put(so.keys, kind, pub), so.changed)
    else Fetched(so.file, Put(so.keys, kind, pinned), so.changed || pinned != pub)
  }

  lemma {:induction false} TurnFetches(f0: KeyFile, user: string, served: seq<ServedKey>, i: nat, so: Fetched,
                                       kind: KeyKind)
    requires i < 2 && kind == [X25519, Ed25519][i] && so == FetchAndPin(f0, user, ServedUpTo(served, i))
    ensures FetchAndPin(f0, user, ServedUpTo(served, i + 1)) == Turn(so, user, kind, First(served, kind))
  {
    hide ServedUpTo, First, FetchAndPin, Turn;
    ServedUpToAt(served, i);
    ServedUpToAt(served, i + 1);
    if i == 0 {
      FirstTurn(f0, user, ServedUpTo(served, 0), ServedUpTo(served, 1), First(served, X25519));
    } else {
      SecondTurn(f0, user, ServedUpTo(served, 1), ServedUpTo(served, 2), First(served, Ed25519));
    }
  }

  lemma FirstTurn(f0: KeyFile, user: string, none: seq<ServedKey>, one: seq<ServedKey>, pub: Option<Bytes>)
    requires First(none, X25519) == First(none, Ed25519) == First(one, Ed25519) == None && First(one, X25519) == pub
    ensures FetchAndPin(f0, user, one) == Turn(FetchAndPin(f0, user, none), user, X25519, pub)
  {
    hide First;
  }

  lemma SecondTurn(f0: KeyFile, user: string, one: seq<ServedKey>, two: seq<ServedKey>, pub: Option<Bytes>)
    requires First(one, Ed25519) == None && First(two, X25519) == First(one, X25519) && First(two, Ed25519) == pub
    ensures FetchAndPin(f0, user, two) == Turn(FetchAndPin(f0, user, one), user, Ed25519, pub)
  {
    hide First;
    var before := PeerOf(f0, user);
    var mid := PeerKeys(OrElse(before.x25519, First(one, X25519)), before.ed25519);
    var after := PeerKeys(mid.x25519, OrElse(before.ed25519, pub));
    assert PeerOf(FetchAndPin(f0, user, one).file, user) == mid;
    assert f0.peers[user := mid][user := after] == f0.peers[user := after];
  }
}
