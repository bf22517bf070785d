// What the order of an inbox pass can change: which offered keys get pinned, and
// through them the verdicts. Nothing else, and that exactly when answers clash.
module InboxOrder {
  import opened Wrappers
  import opened Encoding
  import opened Messaging
  import opened Keystore
  import opened KeyService
  import opened Inbox

  /** The same messages in some order; inboxes repeat no id. */
  ghost predicate Reorders(ns: seq<Message>, ms: seq<Message>)
  {
    DistinctIds(ns) && forall m :: m in ns <==> m in ms
  }

  ghost predicate SamePins(f: KeyFile, g: KeyFile)
  {
    forall user, kind :: Pinned(f, user, kind) == Pinned(g, user, kind)
  }

  /** Two answers offer different keys of one kind. */
  predicate Clash(a: Option<seq<ServedKey>>, b: Option<seq<ServedKey>>, kind: KeyKind)
  {
    Offered(a, kind).Some? && Offered(b, kind).Some? && Offered(a, kind) != Offered(b, kind)
  }

  /** Among what a pass fetches, answers for one sender clash only over a kind that is pinned already. */
  ghost predicate Steady(who: Identity, dir: Directory, c: Client, ms: seq<Message>)
  {
    forall m, n, kind ::
      m in ms && n in ms && Fetches(who, c, m) && Fetches(who, c, n) && m.sender == n.sender
      && Clash(dir(m), dir(n), kind) ==>
        Pinned(c.file, m.sender, kind).Some?
  }

  /** Two orders of one inbox leave the same texts, cache and counters. */
  ghost predicate EndAlike(d: Client, e: Client)
  {
    d.texts == e.texts && d.cache == e.cache && d.file.seqRecv == e.file.seqRecv && d.file.seqSend == e.file.seqSend
  }

  lemma MaximumUnique(before: Option<int>, seqs: set<int>, a: Option<int>, b: Option<int>)
    requires IsMaximum(before, seqs, a) && IsMaximum(before, seqs, b)
    ensures a == b
  {
    if a.Some? && b.Some? {
      assert a.value <= b.value && b.value <= a.value;
    }
  }

  lemma SameCounters(f: KeyFile, g: KeyFile)
    requires forall s :: LastRecv(f, s) == LastRecv(g, s)
    ensures f.seqRecv == g.seqRecv
  {
    forall s ensures s in f.seqRecv <==> s in g.seqRecv {
      assert LastRecv(f, s) == LastRecv(g, s);
    }
    assert f.seqRecv.Keys == g.seqRecv.Keys;
    forall s | s in f.seqRecv ensures f.seqRecv[s] == g.seqRecv[s] {
      assert LastRecv(f, s) == LastRecv(g, s);
    }
    assert f.seqRecv == g.seqRecv;
  }

  lemma SameTexts(who: Identity, dir: Directory, c: Client, ms: seq<Message>, ns: seq<Message>,
                  s: map<string, string>, t: map<string, string>)
    requires TextsOf(who, dir, c, ms, s) && TextsOf(who, dir, c, ns, t)
    requires forall m :: m in ms <==> m in ns
    ensures s.Keys <= t.Keys && forall id :: id in s ==> s[id] == t[id]
  {
    hide Judge;
    forall id | id in s ensures id in t && s[id] == t[id] {
      var m :| m in ms && m.id == id;
      assert Shows(who, dir, c, s, m) && Shows(who, dir, c, t, m);
    }
  }

  lemma SameCache(who: Identity, dir: Directory, c: Client, ms: seq<Message>, ns: seq<Message>,
                  s: map<string, string>, t: map<string, string>)
    requires CacheOf(who, dir, c, ms, s) && CacheOf(who, dir, c, ns, t)
    requires forall m :: m in ms <==> m in ns
    ensures s.Keys <= t.Keys && forall id :: id in s ==> s[id] == t[id]
  {
    hide Judge;
    forall id | id in s ensures id in t && s[id] == t[id] {
      if id !in c.cache {
        var m :| m in ms && m.id == id && Judge(who, dir, c, m).Opened?;
      }
    }
  }

  lemma {:induction false} SameReach(who: Identity, dir: Directory, c: Client, ms: seq<Message>, ns: seq<Message>,
                                     d: Client, e: Client)
    requires Reaches(who, dir, c, ms, d) && Reaches(who, dir, c, ns, e) && forall m :: m in ms <==> m in ns
    ensures EndAlike(d, e)
  {
    hide Judge, TextsOf, CacheOf, IsMaximum;
    forall s ensures LastRecv(d.file, s) == LastRecv(e.file, s) {
      assert OpenedSeqs(who, dir, c, ms, s) == OpenedSeqs(who, dir, c, ns, s);
      MaximumUnique(LastRecv(c.file, s), OpenedSeqs(who, dir, c, ms, s), LastRecv(d.file, s), LastRecv(e.file, s));
    }
    SameCounters(d.file, e.file);
    SameTexts(who, dir, c, ms, ns, d.texts, e.texts);
    SameTexts(who, dir, c, ns, ms, e.texts, d.texts);
    SameCache(who, dir, c, ms, ns, d.cache, e.cache);
    SameCache(who, dir, c, ns, ms, e.cache, d.cache);
  }

  // ----- two orders agree exactly when their pins give the same verdicts -----

  ghost predicate SameVerdicts(who: Identity, dir: Directory, c: Client, c': Client, ms: seq<Message>)
  {
    forall m :: m in ms ==> Judge(who, dir, c', m) == Judge(who, dir, c, m)
  }

  /** Texts and cache tell the verdict: the same label counts as opened in the one only if it does in the other. */
  lemma {:induction false} EndsTellVerdict(who: Identity, dir: Directory, c: Client, c': Client, ms: seq<Message>,
                                           ns: seq<Message>, d: Client, e: Client, m: Message)
    requires c'.cache == c.cache && DistinctIds(ms) && m in ms && forall x :: x in ms <==> x in ns
    requires Reaches(who, dir, c, ms, d) && Reaches(who, dir, c', ns, e) && d.texts == e.texts && d.cache == e.cache
    ensures Judge(who, dir, c', m) == Judge(who, dir, c, m)
  {
    JudgedKind(who, dir, c, m);
    JudgedKind(who, dir, c', m);
    hide Judge, CountersOf;
    assert Shows(who, dir, c, d.texts, m) && Shows(who, dir, c', e.texts, m);
    if Fetches(who, c, m) {
      CachedIfOpened(who, dir, c, ms, d.cache, m, ms);
      CachedIfOpened(who, dir, c', ns, e.cache, m, ms);
    }
  }

  lemma JudgedKind(who: Identity, dir: Directory, c: Client, m: Message)
    ensures var v := Judge(who, dir, c, m);
            && (Fetches(who, c, m) ==> v.Opened? || v.Placeholder?)
            && (!Fetches(who, c, m) ==>
                  v == if m.id in c.cache then Cached(c.cache[m.id])
                       else if m.env.ciphertext == [] then Blank else Placeholder(LOCKED))
  {
    hide OpenMessage, FetchAndPin;
  }

  lemma CachedIfOpened(who: Identity, dir: Directory, c: Client, ms: seq<Message>, cache: map<string, string>,
                       m: Message, all: seq<Message>)
    requires CacheOf(who, dir, c, ms, cache) && DistinctIds(all) && m in all && forall x :: x in ms <==> x in all
    requires m.id !in c.cache
    ensures Judge(who, dir, c, m).Opened? <==> m.id in cache
  {
    hide Judge;
    if m.id in cache {
      var x :| x in ms && x.id == m.id && Judge(who, dir, c, x).Opened?;
      var i :| 0 <= i < |all| && all[i] == x;
      var j :| 0 <= j < |all| && all[j] == m;
      assert i == j;
    }
  }

  lemma AlikeWhenSame(who: Identity, dir: Directory, c: Client, c': Client, ms: seq<Message>, e: Client)
    requires c'.cache == c.cache && c'.file.seqRecv == c.file.seqRecv && SameVerdicts(who, dir, c, c', ms)
    requires Reaches(who, dir, c', ms, e)
    ensures Reaches(who, dir, c, ms, e.(file := c.file.(seqRecv := e.file.seqRecv)))
  {
    hide Judge, IsMaximum;
    forall s ensures OpenedSeqs(who, dir, c', ms, s) == OpenedSeqs(who, dir, c, ms, s) {
    }
    forall s ensures IsMaximum(LastRecv(c.file, s), OpenedSeqs(who, dir, c, ms, s), LastRecv(e.file, s)) {
      assert IsMaximum(LastRecv(c'.file, s), OpenedSeqs(who, dir, c', ms, s), LastRecv(e.file, s));
    }
  }

  /** Two orders of one inbox leave the same texts, cache and counters exactly when every message is judged the same
      by the pins the one fetches as by the pins the other does. */
  lemma {:induction false} OrdersAgreeExactlyWhen(who: Identity, dir: Directory, c: Client, ms: seq<Message>,
                                                  ns: seq<Message>)
    requires DistinctIds(ms) && Reorders(ns, ms) && c.texts == map[]
    ensures EndAlike(Pass(who, dir, c, ms), Pass(who, dir, c, ns))
       <==> SameVerdicts(who, dir, Settled(who, dir, c, ms), Settled(who, dir, c, ns), ms)
  {
    FirstOfferIsPinned(who, dir, c, ms, "", X25519);
    FirstOfferIsPinned(who, dir, c, ns, "", X25519);
    PassIsFetchesThenVerdicts(who, dir, c, ms);
    PassIsFetchesThenVerdicts(who, dir, c, ns);
    hide Judge, Pass, PinAll, Reaches, DistinctIds, SameVerdicts;
    var c1, c2 := Settled(who, dir, c, ms), Settled(who, dir, c, ns);
    var d, e := Pass(who, dir, c, ms), Pass(who, dir, c, ns);
    if EndAlike(d, e) {
      forall m | m in ms ensures Judge(who, dir, c2, m) == Judge(who, dir, c1, m) {
        EndsTellVerdict(who, dir, c1, c2, ms, ns, d, e, m);
      }
      assert SameVerdicts(who, dir, c1, c2, ms);
    }
    if SameVerdicts(who, dir, c1, c2, ms) {
      assert SameVerdicts(who, dir, c1, c2, ns);
      AlikeWhenSame(who, dir, c1, c2, ns, e);
      SameReach(who, dir, c1, ms, ns, d, e.(file := c1.file.(seqRecv := e.file.seqRecv)));
      ReachedFile(who, dir, c1, ms, d);
      ReachedFile(who, dir, c2, ns, e);
    }
  }

  lemma ReachedFile(who: Identity, dir: Directory, c: Client, ms: seq<Message>, d: Client)
    requires Reaches(who, dir, c, ms, d)
    ensures d.file == c.file.(seqRecv := d.file.seqRecv)
  {
  }

  // ----- the pins are the same in every order exactly when fetched answers do not clash -----

  lemma PassPins(who: Identity, dir: Directory, c: Client, ms: seq<Message>, user: string, kind: KeyKind)
    requires DistinctIds(ms) && c.texts == map[]
    ensures Pinned(Pass(who, dir, c, ms).file, user, kind)
         == OrElse(Pinned(c.file, user, kind), FirstOffer(who, dir, c, ms, user, kind))
  {
    FirstOfferIsPinned(who, dir, c, ms, user, kind);
    PassIsFetchesThenVerdicts(who, dir, c, ms);
    hide Pass, PinAll, Reaches;
    ReachedFile(who, dir, Settled(who, dir, c, ms), ms, Pass(who, dir, c, ms));
  }

  lemma SteadyOffers(who: Identity, dir: Directory, c: Client, ms: seq<Message>, ns: seq<Message>, user: string,
                     kind: KeyKind)
    requires Steady(who, dir, c, ms) && (forall m :: m in ns <==> m in ms) && Pinned(c.file, user, kind).None?
    ensures FirstOffer(who, dir, c, ms, user, kind) == FirstOffer(who, dir, c, ns, user, kind)
  {
    hide Pinned, Offered, Fetches;
    var a, b := FirstOffer(who, dir, c, ms, user, kind), FirstOffer(who, dir, c, ns, user, kind);
    if a.Some? && b.Some? {
      var i :| 0 <= i < |ms| && OfferOf(who, dir, c, ms[i], user, kind) == a;
      var j :| 0 <= j < |ns| && OfferOf(who, dir, c, ns[j], user, kind) == b;
      assert ms[i] in ms && ns[j] in ns && (Clash(dir(ms[i]), dir(ns[j]), kind) <==> a != b);
    }
  }

  lemma ToFront(ms: seq<Message>, m: Message) returns (ns: seq<Message>)
    requires DistinctIds(ms) && m in ms
    ensures Reorders(ns, ms) && ns != [] && ns[0] == m
  {
    var i :| 0 <= i < |ms| && ms[i] == m;
    var p, q := ms[..i], ms[i + 1..];
    assert ms == p + [m] + q;
    ns := [m] + (p + q);
    FrontIsDistinct(p, m, q);
  }

  lemma FrontIsDistinct(p: seq<Message>, m: Message, q: seq<Message>)
    requires DistinctIds(p + [m] + q)
    ensures DistinctIds([m] + (p + q))
  {
    var ms, ns := p + [m] + q, [m] + (p + q);
    forall j, k | 0 <= j < k < |ns| ensures ns[j].id != ns[k].id {
      assert ns[k] == ms[if k <= |p| then k - 1 else k];
      assert ns[j] == ms[if j == 0 then |p| else if j <= |p| then j - 1 else j];
    }
  }

  lemma FrontOffers(who: Identity, dir: Directory, c: Client, ns: seq<Message>, user: string, kind: KeyKind)
    requires ns != [] && OfferOf(who, dir, c, ns[0], user, kind).Some?
    ensures FirstOffer(who, dir, c, ns, user, kind) == OfferOf(who, dir, c, ns[0], user, kind)
  {
    hide OfferOf;
    assert ns[0] in ns;
  }

  /** Every order of an inbox ends with the same pins exactly when no two answers the pass fetches for one sender clash
      over a kind that was not pinned before. */
  lemma {:induction false} PinsAreOrderFreeExactlyWhen(who: Identity, dir: Directory, c: Client, ms: seq<Message>)
    requires DistinctIds(ms) && c.texts == map[]
    ensures (forall ns :: Reorders(ns, ms) ==> SamePins(Pass(who, dir, c, ms).file, Pass(who, dir, c, ns).file))
       <==> Steady(who, dir, c, ms)
  {
    hide Pass, Pinned, Offered, Fetches, DistinctIds, FirstOffer;
    if Steady(who, dir, c, ms) {
      forall ns | Reorders(ns, ms) ensures SamePins(Pass(who, dir, c, ms).file, Pass(who, dir, c, ns).file) {
        forall user, kind
          ensures Pinned(Pass(who, dir, c, ms).file, user, kind) == Pinned(Pass(who, dir, c, ns).file, user, kind)
        {
          PassPins(who, dir, c, ms, user, kind);
          PassPins(who, dir, c, ns, user, kind);
          if Pinned(c.file, user, kind).None? {
            SteadyOffers(who, dir, c, ms, ns, user, kind);
          }
        }
      }
    } else {
      var m, n, kind :| m in ms && n in ms && Fetches(who, c, m) && Fetches(who, c, n) && m.sender == n.sender
                        && Clash(dir(m), dir(n), kind) && Pinned(c.file, m.sender, kind).None?;
      var first := ToFront(ms, m);
      var second := ToFront(ms, n);
      FrontPinned(who, dir, c, first, kind);
      FrontPinned(who, dir, c, second, kind);
      assert Reorders(first, ms) && Reorders(second, ms);
    }
  }

  lemma FrontPinned(who: Identity, dir: Directory, c: Client, ns: seq<Message>, kind: KeyKind)
    requires DistinctIds(ns) && c.texts == map[] && ns != [] && Fetches(who, c, ns[0])
    requires Offered(dir(ns[0]), kind).Some? && Pinned(c.file, ns[0].sender, kind).None?
    ensures Pinned(Pass(who, dir, c, ns).file, ns[0].sender, kind) == Offered(dir(ns[0]), kind)
  {
    hide Pass, Pinned, Offered, Fetches, FirstOffer;
    PassPins(who, dir, c, ns, ns[0].sender, kind);
    FrontOffers(who, dir, c, ns, ns[0].sender, kind);
  }

  // ----- steady answers: verdicts that need no pass at all -----

  /** With steady answers the pins a pass adds change nothing that is fetched for its messages. */
  lemma {:induction false} SteadyVerdicts(who: Identity, dir: Directory, c: Client, ms: seq<Message>)
    requires Steady(who, dir, c, ms)
    ensures JudgedAlike(who, dir, Settled(who, dir, c, ms), c, ms)
  {
    hide KeysFor, PinAll, FirstOffer, AlikeOn, Pinned, Steady;
    FirstOfferIsPinned(who, dir, c, ms, "", X25519);
    var c1 := Settled(who, dir, c, ms);
    forall m | m in ms ensures AlikeOn(who, dir, c1, c, m) {
      if Fetches(who, c, m) {
        SteadyKeys(who, dir, c, ms, m);
      }
      AlikeByKeys(who, dir, c1, c, m);
    }
  }

  lemma {:induction false} SteadyKeys(who: Identity, dir: Directory, c: Client, ms: seq<Message>, m: Message)
    requires Steady(who, dir, c, ms) && m in ms && Fetches(who, c, m)
    ensures KeysFor(dir, PinAll(who, dir, c, ms), m) == KeysFor(dir, c.file, m)
  {
    hide FetchAndPin, Pinned, First, Fetches;
    var g := PinAll(who, dir, c, ms);
    if dir(m).Some? {
      forall kind
        ensures PinAgrees(Pinned(c.file, m.sender, kind), Pinned(g, m.sender, kind), First(dir(m).value, kind))
      {
        var offer := FirstOffer(who, dir, c, ms, m.sender, kind);
        FirstOfferIsPinned(who, dir, c, ms, m.sender, kind);
        if Pinned(c.file, m.sender, kind).None? && Offered(dir(m), kind).Some? {
          assert OfferOf(who, dir, c, m, m.sender, kind).Some?;
          var i :| 0 <= i < |ms| && OfferOf(who, dir, c, ms[i], m.sender, kind) == offer;
          assert ms[i] in ms && (Clash(dir(m), dir(ms[i]), kind) <==> Offered(dir(m), kind) != offer);
        }
      }
      SameFetch(c.file, g, m.sender, dir(m).value);
    }
  }

  /** With steady answers every message is judged by the client as it was before the pass. */
  lemma {:induction false} SteadyPassIsOrderFree(who: Identity, dir: Directory, c: Client, ms: seq<Message>)
    requires DistinctIds(ms) && Steady(who, dir, c, ms) && c.texts == map[]
    ensures var d := Pass(who, dir, c, ms);
            && TextsOf(who, dir, c, ms, d.texts) && CacheOf(who, dir, c, ms, d.cache)
            && CountersOf(who, dir, c, ms, d.file)
            && (AscendingPerSender(ms) ==> AcceptsAllNew(who, dir, c, ms, d))
  {
    PassIsFetchesThenVerdicts(who, dir, c, ms);
    SteadyVerdicts(who, dir, c, ms);
    hide Pass, JudgedAlike, Settled, Steady, TextsOf, CacheOf, CountersOf, AcceptsAllNew, AscendingPerSender;
    AlikeReaches(who, dir, Settled(who, dir, c, ms), c, ms, Pass(who, dir, c, ms));
    if AscendingPerSender(ms) {
      AscendingPassAcceptsAllNew(who, dir, c, ms);
      AlikeAccepts(who, dir, Settled(who, dir, c, ms), c, ms, Pass(who, dir, c, ms));
    }
  }

  lemma SteadyReordered(who: Identity, dir: Directory, c: Client, ms: seq<Message>, ns: seq<Message>)
    requires Steady(who, dir, c, ms) && forall m :: m in ns <==> m in ms
    ensures Steady(who, dir, c, ns)
  {
    hide Clash, Pinned, Fetches;
  }

  lemma SamePinsSameVerdicts(who: Identity, dir: Directory, c: Client, c': Client, ms: seq<Message>)
    requires c'.cache == c.cache && c'.file.seqRecv == c.file.seqRecv && SamePins(c.file, c'.file)
    ensures SameVerdicts(who, dir, c, c', ms)
  {
    hide Judge, FetchAndPin, Pinned, Changed;
    forall m | m in ms ensures Judge(who, dir, c', m) == Judge(who, dir, c, m) {
      if dir(m).Some? {
        assert forall kind :: PinAgrees(Pinned(c.file, m.sender, kind), Pinned(c'.file, m.sender, kind),
                                        First(dir(m).value, kind));
        SameFetch(c.file, c'.file, m.sender, dir(m).value);
      }
      AlikeByKeys(who, dir, c, c', m);
    }
  }

  /** Two orders that end with the same pins, as all do when answers are steady, leave the same texts, cache and
      counters. */
  lemma {:induction false} PermutedPassesAgree(who: Identity, dir: Directory, c: Client, ms: seq<Message>,
                                               ns: seq<Message>)
    requires DistinctIds(ms) && Reorders(ns, ms) && c.texts == map[]
    ensures SamePins(Pass(who, dir, c, ms).file, Pass(who, dir, c, ns).file) ==>
              EndAlike(Pass(who, dir, c, ms), Pass(who, dir, c, ns))
    ensures Steady(who, dir, c, ms) ==> SamePins(Pass(who, dir, c, ms).file, Pass(who, dir, c, ns).file)
  {
    PinsAreOrderFreeExactlyWhen(who, dir, c, ms);
    hide Steady, Reaches, Pass, PinAll, SameVerdicts, EndAlike, Pinned, DistinctIds;
    var d, e := Pass(who, dir, c, ms), Pass(who, dir, c, ns);
    if SamePins(d.file, e.file) {
      var c1, c2 := Settled(who, dir, c, ms), Settled(who, dir, c, ns);
      forall user, kind ensures Pinned(c1.file, user, kind) == Pinned(c2.file, user, kind) {
        PassPins(who, dir, c, ms, user, kind);
        PassPins(who, dir, c, ns, user, kind);
        FirstOfferIsPinned(who, dir, c, ms, user, kind);
        FirstOfferIsPinned(who, dir, c, ns, user, kind);
      }
      FirstOfferIsPinned(who, dir, c, ms, "", X25519);
      FirstOfferIsPinned(who, dir, c, ns, "", X25519);
      SamePinsSameVerdicts(who, dir, c1, c2, ms);
      OrdersAgreeExactlyWhen(who, dir, c, ms, ns);
    }
  }

  // ----- and texts can depend on the order -----

  predicate SignatureFails(who: Identity, m: Message, key: Bytes)
  {
    who.p.ed.verify(SignedPayload(who.p, m.sender, who.me, m.env.seqNo, m.env.ciphertext, m.env.nonce),
                    m.env.signature, key)
    == Some(false)
  }

  lemma BadSignatureShows(who: Identity, served: seq<ServedKey>, c: Client, m: Message)
    requires var keys := FetchAndPin(c.file, m.sender, served).keys;
             keys.x25519.Some? && keys.ed25519.Some? && who.keys.Some? && SignatureFails(who, m, keys.ed25519.value)
    ensures FetchAndAttempt(who, served, c, m).texts == c.texts[m.id := UNVERIFIED]
  {
    hide FetchAndPin, SignedPayload;
  }

  /** What a verdict of Opened says about how it came about. */
  lemma OpenedMeans(who: Identity, dir: Directory, c: Client, m: Message)
    requires Judge(who, dir, c, m).Opened?
    ensures m.id !in c.cache && m.env.ciphertext != [] && who.available && who.keys.Some? && dir(m).Some?
    ensures Offered(dir(m), X25519).Some? && Offered(dir(m), Ed25519).Some?
  {
    hide OpenMessage, First;
  }

  lemma UnverifiedAfter(who: Identity, dir: Directory, c: Client, d: Client, m: Message, key: Bytes)
    requires Judge(who, dir, c, m).Opened? && m.id !in d.cache
    requires Pinned(d.file, m.sender, Ed25519) == Some(key) && SignatureFails(who, m, key)
    ensures ShowOne(who, dir, d, m).texts == d.texts[m.id := UNVERIFIED]
  {
    OpenedMeans(who, dir, c, m);
    hide Judge, First, FetchAndPin, FetchAndAttempt, SignatureFails, Pinned;
    ShowsFetched(who, dir, d, m);
    hide ShowOne;
    PinsAreForever(d.file, m.sender, dir(m).value, m.sender, X25519);
    PinsAreForever(d.file, m.sender, dir(m).value, m.sender, Ed25519);
    FetchReturnsThePin(d.file, m.sender, dir(m).value, X25519);
    FetchReturnsThePin(d.file, m.sender, dir(m).value, Ed25519);
    BadSignatureShows(who, dir(m).value, d, m);
  }

  lemma OwnCacheOnly(who: Identity, dir: Directory, c: Client, n: Message, id: string)
    requires id != n.id && id !in c.cache
    ensures id !in ShowOne(who, dir, c, n).cache
  {
    hide Judge, ShowOne, KeysFor;
    ShowOneEffect(who, dir, c, c, n);
  }

  /** The steadiness is needed: when the answer for another message of the same sender, come first, has a signing key
      pinned that the answer for this one would not have, a message that opens on its own shows as unverified. */
  lemma {:induction false} UnsteadyAnswersMatter(who: Identity, dir: Directory, c: Client, m: Message, n: Message,
                                                 key: Bytes)
    requires m.id != n.id && m.sender == n.sender && n.id !in c.cache && n.env.ciphertext != []
    requires Pinned(c.file, m.sender, Ed25519).None? && Offered(dir(n), Ed25519) == Some(key)
    requires Judge(who, dir, c, m).Opened? && SignatureFails(who, m, key)
    ensures var text := Judge(who, dir, c, m).text;
            && Pass(who, dir, c, [m]).texts == c.texts[m.id := text]
            && Pass(who, dir, c, [n, m]).texts == Pass(who, dir, c, [n]).texts[m.id := UNVERIFIED]
  {
    OpenedMeans(who, dir, c, m);
    hide Judge, First, Pinned, SignatureFails, Pass, ShowOne, KeysFor;
    PassOfOne(who, dir, c, m);
    PassOfOne(who, dir, c, n);
    PassOfTwo(who, dir, c, n, m);
    ShowOneEffect(who, dir, c, c, m);
    NowPinned(who, dir, c, n);
    OwnCacheOnly(who, dir, c, n, m.id);
    UnverifiedAfter(who, dir, c, ShowOne(who, dir, c, n), m, key);
  }

  lemma PassOfOne(who: Identity, dir: Directory, c: Client, m: Message)
    ensures Pass(who, dir, c, [m]) == ShowOne(who, dir, c, m)
  {
    hide ShowOne;
    assert [m][..0] == [];
  }

  lemma PassOfTwo(who: Identity, dir: Directory, c: Client, n: Message, m: Message)
    ensures Pass(who, dir, c, [n, m]) == ShowOne(who, dir, ShowOne(who, dir, c, n), m)
  {
    hide ShowOne;
    assert [n, m][..1] == [n];
    PassOfOne(who, dir, c, n);
  }

  lemma ShowsFetched(who: Identity, dir: Directory, d: Client, m: Message)
    requires m.id !in d.cache && m.env.ciphertext != [] && who.available && dir(m).Some?
    ensures ShowOne(who, dir, d, m) == FetchAndAttempt(who, dir(m).value, d, m)
  {
  }

  lemma PinnedByPeers(f: KeyFile, g: KeyFile, user: string, kind: KeyKind)
    requires f.peers == g.peers
    ensures Pinned(f, user, kind) == Pinned(g, user, kind)
  {
  }

  lemma NowPinned(who: Identity, dir: Directory, c: Client, n: Message)
    requires n.id !in c.cache && n.env.ciphertext != [] && who.available && Offered(dir(n), Ed25519).Some?
    requires Pinned(c.file, n.sender, Ed25519).None?
    ensures Pinned(ShowOne(who, dir, c, n).file, n.sender, Ed25519) == Offered(dir(n), Ed25519)
  {
    hide First, Attempt;
    ShowsFetched(who, dir, c, n);
    PinsAreForever(c.file, n.sender, dir(n).value, n.sender, Ed25519);
    var fetched := FetchAndPin(c.file, n.sender, dir(n).value);
    FetchAndAttemptEffect(who, dir(n).value, c.file, c, n, fetched.keys, fetched.changed);
    PinnedByPeers(FetchAndAttempt(who, dir(n).value, c, n).file, fetched.file, n.sender, Ed25519);
  }
}
