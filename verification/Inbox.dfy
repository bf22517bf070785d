// client/src/ui/main_frame.py, `_decrypt_inbox`: one message at a time as a step
// on the client's state, and what a whole pass amounts to: its fetches in order,
// and then a judgement of every message on its own.
module Inbox {
  import opened Wrappers
  import opened Encoding
  import opened Primitives
  import opened Messaging
  import opened Keystore
  import opened KeyService
  import opened MessageService

  datatype Message = Message(id: string, sender: string, env: Envelope)

  /** What the key directory answers to the request made for each message, for its sender; None when that raises. */
  type Directory = Message -> Option<seq<ServedKey>>

  /** The signed-in user: `available` is whether the app holds a keystore at all. */
  datatype Identity = Identity(p: Primitives, me: string, keys: Option<PrivateKeys>, available: bool)

  datatype Accepted = Accepted(sender: string, seqNo: int, text: string)

  /** Key file and plaintext cache, the texts and key warnings put on messages so far,
      and the history of what passed the replay gate. */
  datatype Client = Client(file: KeyFile, cache: map<string, string>, texts: map<string, string>,
                           warned: set<string>, accepted: seq<Accepted>)

  const LOCKED := "[encrypted — keys locked]"
  const CANNOT_FETCH := "[encrypted — cannot fetch sender key]"
  const KEY_MISSING := "[encrypted — sender key missing]"
  const UNVERIFIED := "[unverified — signature check failed]"
  const CANNOT_DECRYPT := "[encrypted — cannot decrypt]"

  function Label(c: Client, id: string, text: string): Client
  {
    c.(texts := c.texts[id := text])
  }

  function Remember(c: Client, id: string, text: string): Client
  {
    c.(texts := c.texts[id := text], cache := c.cache[id := text])
  }

  /** The loop body. */
  function ShowOne(who: Identity, dir: Directory, c: Client, m: Message): Client
  {
    if m.id in c.cache then Label(c, m.id, c.cache[m.id])
    else if m.env.ciphertext == [] then c
    else if !who.available then Label(c, m.id, LOCKED)
    else if dir(m).None? then Label(c, m.id, CANNOT_FETCH)
    else FetchAndAttempt(who, dir(m).value, c, m)
  }

  function FetchAndAttempt(who: Identity, served: seq<ServedKey>, c: Client, m: Message): Client
  {
    var fetched := FetchAndPin(c.file, m.sender, served);
    var c1 := c.(file := fetched.file);
    if fetched.keys.x25519.None? || fetched.keys.ed25519.None? then Label(c1, m.id, KEY_MISSING)
    else Attempt(who, c1, m, fetched.keys, fetched.changed)
  }

  /** The try block: receive with replay enforced; on a replay, re-open for display only. */
  function Attempt(who: Identity, c: Client, m: Message, pinned: PeerKeys, changed: bool): Client
  {
    var gated := Receive(who.p, c.file, who.keys, who.me, m.sender, m.env, pinned, true);
    match gated.result
    case Ok(text) =>
      Remember(c.(file := gated.file, warned := if changed then c.warned + {m.id} else c.warned,
                  accepted := c.accepted + [Accepted(m.sender, m.env.seqNo, text)]), m.id, text)
    case Err(Refused(BadSignature)) => Label(c, m.id, UNVERIFIED)
    case Err(Refused(Replay)) =>
      (match Receive(who.p, c.file, who.keys, who.me, m.sender, m.env, pinned, false).result
       case Ok(text) => Remember(c, m.id, text)
       case Err(_) => Label(c, m.id, CANNOT_DECRYPT))
    case Err(_) => Label(c, m.id, CANNOT_DECRYPT)
  }

  function Pass(who: Identity, dir: Directory, c: Client, ms: seq<Message>): Client
  {
    if ms == [] then c else ShowOne(who, dir, Pass(who, dir, c, ms[..|ms| - 1]), ms[|ms| - 1])
  }

  // ----- a message judged on its own -----

  datatype Verdict = Cached(text: string) | Blank | Opened(text: string) | Placeholder(text: string)

  /** What a message shows, by the pins and the cache of c and the message alone; no counter and no other message has
      a say. */
  function Judge(who: Identity, dir: Directory, c: Client, m: Message): Verdict
  {
    if m.id in c.cache then Cached(c.cache[m.id])
    else if m.env.ciphertext == [] then Blank
    else if !who.available then Placeholder(LOCKED)
    else if dir(m).None? then Placeholder(CANNOT_FETCH)
    else JudgeFetched(who, c.file, m, FetchAndPin(c.file, m.sender, dir(m).value).keys)
  }

  function JudgeFetched(who: Identity, f: KeyFile, m: Message, keys: PeerKeys): Verdict
  {
    if keys.x25519.None? || keys.ed25519.None? then Placeholder(KEY_MISSING)
    else JudgeOpening(Receive(who.p, f, who.keys, who.me, m.sender, m.env, keys, false).result)
  }

  function JudgeOpening(plain: Result<string, ServiceError>): Verdict
  {
    match plain
    case Ok(text) => Opened(text)
    case Err(Refused(BadSignature)) => Placeholder(UNVERIFIED)
    case Err(_) => Placeholder(CANNOT_DECRYPT)
  }

  ghost predicate Shows(who: Identity, dir: Directory, c: Client, texts: map<string, string>, m: Message)
  {
    match Judge(who, dir, c, m)
    case Blank => m.id !in texts
    case v => m.id in texts && texts[m.id] == v.text
  }

  ghost function OpenedSeqs(who: Identity, dir: Directory, c: Client, ms: seq<Message>, sender: string): set<int>
  {
    set m | m in ms && m.sender == sender && Judge(who, dir, c, m).Opened? :: m.env.seqNo
  }

  /** after is the largest of the old counter and the new numbers; no counter appears from nothing. */
  ghost predicate IsMaximum(before: Option<int>, seqs: set<int>, after: Option<int>)
  {
    if after.None? then before.None? && seqs == {}
    else
      && (after == before || after.value in seqs)
      && (before.Some? ==> before.value <= after.value)
      && (forall q :: q in seqs ==> q <= after.value)
  }

  ghost predicate DistinctIds(ms: seq<Message>)
  {
    forall i, j :: 0 <= i < j < |ms| ==> ms[i].id != ms[j].id
  }

  /** Within each sender, strictly ascending numbers. */
  ghost predicate AscendingPerSender(ms: seq<Message>)
  {
    forall i, j :: 0 <= i < j < |ms| && ms[i].sender == ms[j].sender ==> ms[i].env.seqNo < ms[j].env.seqNo
  }

  /** What a fetch returns, given the answer, pinning aside. */
  function KeysFrom(answer: Option<seq<ServedKey>>, f: KeyFile, user: string): Option<(PeerKeys, bool)>
  {
    if answer.None? then None
    else
      var fetched := FetchAndPin(f, user, answer.value);
      Some((fetched.keys, fetched.changed))
  }

  function KeysFor(dir: Directory, f: KeyFile, m: Message): Option<(PeerKeys, bool)>
  {
    KeysFrom(dir(m), f, m.sender)
  }

  function Changed(dir: Directory, c: Client, m: Message): bool
  {
    KeysFor(dir, c.file, m).Some? && KeysFor(dir, c.file, m).value.1
  }

  /** The key of that kind an answer offers, if any. */
  function Offered(answer: Option<seq<ServedKey>>, kind: KeyKind): Option<Bytes>
  {
    if answer.None? then None else First(answer.value, kind)
  }

  // ----- the fetches of a pass, apart from everything else -----

  /** Whether a pass that starts from c comes to ask for the keys of m's sender. */
  predicate Fetches(who: Identity, c: Client, m: Message)
  {
    m.id !in c.cache && m.env.ciphertext != [] && who.available
  }

  /** The key file after the fetches alone, in the order of the pass. */
  function PinAll(who: Identity, dir: Directory, c: Client, ms: seq<Message>): KeyFile
  {
    if ms == [] then c.file
    else
      var f, m := PinAll(who, dir, c, ms[..|ms| - 1]), ms[|ms| - 1];
      if Fetches(who, c, m) && dir(m).Some? then FetchAndPin(f, m.sender, dir(m).value).file else f
  }

  /** The client once every key is fetched and nothing is opened yet. */
  function Settled(who: Identity, dir: Directory, c: Client, ms: seq<Message>): Client
  {
    c.(file := PinAll(who, dir, c, ms))
  }

  /** The user's key of that kind that fetching for m is offered, if any. */
  function OfferOf(who: Identity, dir: Directory, c: Client, m: Message, user: string, kind: KeyKind): Option<Bytes>
  {
    if m.sender == user && Fetches(who, c, m) then Offered(dir(m), kind) else None
  }

  /** The first such offer of a pass. */
  function FirstOffer(who: Identity, dir: Directory, c: Client, ms: seq<Message>, user: string, kind: KeyKind)
    : (r: Option<Bytes>)
    ensures r.None? ==> forall m :: m in ms ==> OfferOf(who, dir, c, m, user, kind).None?
    ensures r.Some? ==> exists i :: 0 <= i < |ms| && OfferOf(who, dir, c, ms[i], user, kind) == r
                                    && forall j :: 0 <= j < i ==> OfferOf(who, dir, c, ms[j], user, kind).None?
  {
    if ms == [] then None
    else OrElse(FirstOffer(who, dir, c, ms[..|ms| - 1], user, kind), OfferOf(who, dir, c, ms[|ms| - 1], user, kind))
  }

  // ----- the state d that a pass over ms reaches, in terms of c, the client the messages are judged by -----

  ghost predicate TextsOf(who: Identity, dir: Directory, c: Client, ms: seq<Message>, texts: map<string, string>)
  {
    && (forall m :: m in ms ==> Shows(who, dir, c, texts, m))
    && (forall id :: id in texts ==> exists m :: m in ms && m.id == id)
  }

  /** The old cache together with exactly the newly opened texts. */
  ghost predicate CacheOf(who: Identity, dir: Directory, c: Client, ms: seq<Message>, cache: map<string, string>)
  {
    && (forall id :: id in c.cache ==> id in cache && cache[id] == c.cache[id])
    && (forall m :: m in ms && Judge(who, dir, c, m).Opened? ==>
          m.id in cache && cache[m.id] == Judge(who, dir, c, m).text)
    && (forall id :: id in cache ==>
          id in c.cache || exists m :: m in ms && m.id == id && Judge(who, dir, c, m).Opened?)
  }

  ghost predicate CountersOf(who: Identity, dir: Directory, c: Client, ms: seq<Message>, f: KeyFile)
  {
    forall s :: IsMaximum(LastRecv(c.file, s), OpenedSeqs(who, dir, c, ms, s), LastRecv(f, s))
  }

  ghost predicate Reaches(who: Identity, dir: Directory, c: Client, ms: seq<Message>, d: Client)
  {
    && TextsOf(who, dir, c, ms, d.texts)
    && CacheOf(who, dir, c, ms, d.cache)
    && CountersOf(who, dir, c, ms, d.file)
    && d.file == c.file.(seqRecv := d.file.seqRecv)
  }

  /** The gate: whether an opened message goes through the accepting path. */
  ghost predicate Passes(who: Identity, dir: Directory, c: Client, f: KeyFile, m: Message)
  {
    Judge(who, dir, c, m).Opened? && !IsReplay(LastRecv(f, m.sender), m.env.seqNo)
  }

  /** Receiving with the gate is receiving without it, except that opened messages with old numbers are held back. */
  lemma GateIsAFilter(p: Primitives, f: KeyFile, g: KeyFile, keys: Option<PrivateKeys>, me: string, sender: string,
                      env: Envelope, pinned: PeerKeys)
    ensures var plain := Receive(p, f, keys, me, sender, env, pinned, false).result;
            var gated := Receive(p, g, keys, me, sender, env, pinned, true);
            && Receive(p, g, keys, me, sender, env, pinned, false) == Outcome(g, plain)
            && plain != Err(Refused(Replay))
            && (plain.Ok? ==> gated == if IsReplay(LastRecv(g, sender), env.seqNo) then Outcome(g, Err(Refused(Replay)))
                                       else Outcome(SetRecv(g, sender, env.seqNo), plain))
            && (plain.Err? ==> gated.file == g && (gated.result == plain || gated.result == Err(Refused(Replay))))
            && (plain == Err(Refused(BadSignature)) ==> gated.result == plain)
            && (gated.result == Err(Refused(BadSignature)) ==> plain == gated.result)
  {
    if pinned.x25519.Some? && pinned.ed25519.Some? && keys.Some? {
      EnforcementIsAFilter(p, env, sender, me, keys.value.x25519, pinned.x25519.value, pinned.ed25519.value,
                           LastRecv(g, sender));
      EnforcementIsAFilter(p, env, sender, me, keys.value.x25519, pinned.x25519.value, pinned.ed25519.value,
                           LastRecv(f, sender));
    }
  }

  /** The verdict of a message that is fetched for and opened, and the label of each way to fail. */
  lemma VerdictAndLabel(who: Identity, dir: Directory, c: Client, m: Message)
    requires m.id !in c.cache && m.env.ciphertext != []
    ensures !who.available ==> Judge(who, dir, c, m) == Placeholder("[encrypted — keys locked]")
    ensures who.available && dir(m).None? ==>
              Judge(who, dir, c, m) == Placeholder("[encrypted — cannot fetch sender key]")
    ensures who.available && dir(m).Some? ==>
              var keys := FetchAndPin(c.file, m.sender, dir(m).value).keys;
              Judge(who, dir, c, m) ==
                if keys.x25519.None? || keys.ed25519.None? then Placeholder("[encrypted — sender key missing]")
                else if who.keys.None? then Placeholder("[encrypted — cannot decrypt]")
                else
                  match OpenMessage(who.p, m.env, m.sender, who.me, who.keys.value.x25519, keys.x25519.value,
                                    keys.ed25519.value, None, false)
                  case Ok((text, _)) => Opened(text)
                  case Err(BadSignature) => Placeholder("[unverified — signature check failed]")
                  case Err(_) => Placeholder("[encrypted — cannot decrypt]")
  {
    hide OpenMessage, FetchAndPin;
    if who.available && dir(m).Some? && who.keys.Some? {
      var keys := FetchAndPin(c.file, m.sender, dir(m).value).keys;
      if keys.x25519.Some? && keys.ed25519.Some? {
        EnforcementIsAFilter(who.p, m.env, m.sender, who.me, who.keys.value.x25519, keys.x25519.value,
                             keys.ed25519.value, LastRecv(c.file, m.sender));
      }
    }
  }

  /** e is d after m was judged v, with `passed` telling whether it went through the gate. */
  ghost predicate Effect(d: Client, m: Message, v: Verdict, passed: bool, changed: bool, e: Client)
  {
    && e.texts == (if v.Blank? then d.texts else d.texts[m.id := v.text])
    && e.cache == (if v.Opened? then d.cache[m.id := v.text] else d.cache)
    && e.file.seqRecv == (if passed then d.file.seqRecv[m.sender := m.env.seqNo] else d.file.seqRecv)
    && e.accepted
       == (if passed && v.Opened? then d.accepted + [Accepted(m.sender, m.env.seqNo, v.text)] else d.accepted)
    && e.warned == (if passed && changed then d.warned + {m.id} else d.warned)
  }

  lemma AttemptEffect(who: Identity, f: KeyFile, d: Client, m: Message, pinned: PeerKeys, changed: bool)
    ensures var v := JudgeOpening(Receive(who.p, f, who.keys, who.me, m.sender, m.env, pinned, false).result);
            var passed := v.Opened? && !IsReplay(LastRecv(d.file, m.sender), m.env.seqNo);
            && Effect(d, m, v, passed, changed, Attempt(who, d, m, pinned, changed))
            && Attempt(who, d, m, pinned, changed).file
               == (if passed then SetRecv(d.file, m.sender, m.env.seqNo) else d.file)
  {
    hide Receive;
    GateIsAFilter(who.p, f, d.file, who.keys, who.me, m.sender, m.env, pinned);
  }

  lemma {:induction false} FetchAndAttemptEffect(who: Identity, served: seq<ServedKey>, f: KeyFile, d: Client,
                                                 m: Message, keys: PeerKeys, changed: bool)
    requires FetchAndPin(d.file, m.sender, served).keys == keys
    requires FetchAndPin(d.file, m.sender, served).changed == changed
    ensures var v := JudgeFetched(who, f, m, keys);
            var passed := v.Opened? && !IsReplay(LastRecv(d.file, m.sender), m.env.seqNo);
            var e := FetchAndAttempt(who, served, d, m);
            var g := FetchAndPin(d.file, m.sender, served).file;
            && Effect(d, m, v, passed, changed, e)
            && (e.file == g || e.file == SetRecv(g, m.sender, m.env.seqNo))
  {
    PinsAreForever(d.file, m.sender, served, m.sender, X25519);
    hide Receive, Attempt, FetchAndPin, JudgeOpening;
    var fetched := FetchAndPin(d.file, m.sender, served);
    AttemptEffect(who, f, d.(file := fetched.file), m, keys, changed);
  }

  /** The only pins a step can make are those of the message's sender, from what was answered for it. */
  lemma ShowOnePeers(who: Identity, dir: Directory, d: Client, m: Message)
    ensures var e := ShowOne(who, dir, d, m);
            && e.file == d.file.(peers := e.file.peers, seqRecv := e.file.seqRecv)
            && e.file.peers == (if Fetches(who, d, m) && dir(m).Some?
                                then FetchAndPin(d.file, m.sender, dir(m).value).file.peers else d.file.peers)
  {
    hide FetchAndAttempt;
    if dir(m).Some? {
      PinsAreForever(d.file, m.sender, dir(m).value, m.sender, X25519);
      hide FetchAndPin;
      var fetched := FetchAndPin(d.file, m.sender, dir(m).value);
      FetchAndAttemptEffect(who, dir(m).value, d.file, d, m, fetched.keys, fetched.changed);
    }
  }

  /** A pin made meanwhile is the key now offered, or none is offered. */
  predicate PinAgrees(before: Option<Bytes>, after: Option<Bytes>, offered: Option<Bytes>)
  {
    after == before || (before.None? && (offered.None? || offered == after))
  }

  lemma SameFetch(f: KeyFile, g: KeyFile, user: string, served: seq<ServedKey>)
    requires forall kind :: PinAgrees(Pinned(f, user, kind), Pinned(g, user, kind), First(served, kind))
    ensures FetchAndPin(g, user, served).keys == FetchAndPin(f, user, served).keys
    ensures FetchAndPin(g, user, served).changed == FetchAndPin(f, user, served).changed
  {
    hide First;
    assert PinAgrees(PeerOf(f, user).x25519, PeerOf(g, user).x25519, First(served, X25519)) by {
      assert Pinned(f, user, X25519) == PeerOf(f, user).x25519;
    }
    assert PinAgrees(PeerOf(f, user).ed25519, PeerOf(g, user).ed25519, First(served, Ed25519)) by {
      assert Pinned(f, user, Ed25519) == PeerOf(f, user).ed25519;
    }
  }

  /** One step, in terms of the verdict reached from c. */
  lemma {:induction false} ShowOneEffect(who: Identity, dir: Directory, c: Client, d: Client, m: Message)
    requires Fetches(who, c, m) ==> KeysFor(dir, d.file, m) == KeysFor(dir, c.file, m)
    requires m.id in d.cache <==> m.id in c.cache
    requires m.id in c.cache ==> d.cache[m.id] == c.cache[m.id]
    ensures Effect(d, m, Judge(who, dir, c, m), Passes(who, dir, c, d.file, m), Changed(dir, c, m),
                   ShowOne(who, dir, d, m))
  {
    hide FetchAndAttempt, FetchAndPin, JudgeFetched;
    if Fetches(who, c, m) && dir(m).Some? {
      var keys, changed := KeysFor(dir, c.file, m).value.0, KeysFor(dir, c.file, m).value.1;
      FetchAndAttemptEffect(who, dir(m).value, c.file, d, m, keys, changed);
    }
  }

  lemma NewId(ms: seq<Message>, m: Message, x: Message)
    requires DistinctIds(ms + [m]) && x in ms
    ensures x.id != m.id
  {
    var i :| 0 <= i < |ms| && ms[i] == x;
    assert (ms + [m])[i] == x && (ms + [m])[|ms|] == m;
  }

  lemma TextsStep(who: Identity, dir: Directory, c: Client, ms: seq<Message>, texts: map<string, string>, m: Message)
    requires DistinctIds(ms + [m]) && TextsOf(who, dir, c, ms, texts)
    ensures var v := Judge(who, dir, c, m);
            TextsOf(who, dir, c, ms + [m], if v.Blank? then texts else texts[m.id := v.text])
  {
    hide Judge, DistinctIds;
    var v := Judge(who, dir, c, m);
    var texts' := if v.Blank? then texts else texts[m.id := v.text];
    forall x | x in ms + [m] ensures Shows(who, dir, c, texts', x) {
      if x in ms {
        NewId(ms, m, x);
        assert Shows(who, dir, c, texts, x);
      } else if m.id in texts {
        var y :| y in ms && y.id == m.id;
        NewId(ms, m, y);
      }
    }
    forall id | id in texts' ensures exists x :: x in ms + [m] && x.id == id {
      if id in texts {
        var y :| y in ms && y.id == id;
        assert y in ms + [m];
      } else {
        assert m in ms + [m];
      }
    }
  }

  lemma {:induction false} CacheStep(who: Identity, dir: Directory, c: Client, ms: seq<Message>,
                                     cache: map<string, string>, m: Message)
    requires DistinctIds(ms + [m]) && CacheOf(who, dir, c, ms, cache)
    ensures m.id in cache <==> m.id in c.cache
    ensures var v := Judge(who, dir, c, m);
            (m.id in c.cache ==> !v.Opened?)
            && CacheOf(who, dir, c, ms + [m], if v.Opened? then cache[m.id := v.text] else cache)
  {
    var v := Judge(who, dir, c, m);
    assert m.id in c.cache ==> !v.Opened?;
    hide Judge, DistinctIds;
    if m.id in cache && m.id !in c.cache {
      var y :| y in ms && y.id == m.id && Judge(who, dir, c, y).Opened?;
      NewId(ms, m, y);
    }
    var cache' := if v.Opened? then cache[m.id := v.text] else cache;
    forall x | x in ms + [m] && Judge(who, dir, c, x).Opened?
      ensures x.id in cache' && cache'[x.id] == Judge(who, dir, c, x).text
    {
      if x in ms {
        NewId(ms, m, x);
      }
    }
    forall id | id in cache' && id !in c.cache
      ensures exists x :: x in ms + [m] && x.id == id && Judge(who, dir, c, x).Opened?
    {
      if id in cache {
        var y :| y in ms && y.id == id && Judge(who, dir, c, y).Opened?;
        assert y in ms + [m];
      } else {
        assert m in ms + [m];
      }
    }
  }

  lemma {:induction false} CountersStep(who: Identity, dir: Directory, c: Client, ms: seq<Message>, f: KeyFile,
                                        m: Message, g: KeyFile)
    requires CountersOf(who, dir, c, ms, f)
    requires g.seqRecv == if Passes(who, dir, c, f, m) then f.seqRecv[m.sender := m.env.seqNo] else f.seqRecv
    ensures CountersOf(who, dir, c, ms + [m], g)
  {
    hide Judge;
    forall s ensures IsMaximum(LastRecv(c.file, s), OpenedSeqs(who, dir, c, ms + [m], s), LastRecv(g, s)) {
      var extra := if m.sender == s && Judge(who, dir, c, m).Opened? then {m.env.seqNo} else {};
      assert OpenedSeqs(who, dir, c, ms + [m], s) == OpenedSeqs(who, dir, c, ms, s) + extra;
      assert IsMaximum(LastRecv(c.file, s), OpenedSeqs(who, dir, c, ms, s), LastRecv(f, s));
    }
  }

  // ----- a pass is its fetches, and then every message judged on its own -----

  lemma {:induction false} FirstOfferIsPinned(who: Identity, dir: Directory, c: Client, ms: seq<Message>, user: string,
                                              kind: KeyKind)
    ensures var f := PinAll(who, dir, c, ms);
            && Pinned(f, user, kind) == OrElse(Pinned(c.file, user, kind), FirstOffer(who, dir, c, ms, user, kind))
            && f == c.file.(peers := f.peers)
  {
    hide Pinned, FetchAndPin, Fetches;
    if ms != [] {
      var init, m := ms[..|ms| - 1], ms[|ms| - 1];
      FirstOfferIsPinned(who, dir, c, init, user, kind);
      if dir(m).Some? {
        PinsAreForever(PinAll(who, dir, c, init), m.sender, dir(m).value, user, kind);
      }
    }
  }

  /** Fetching for x again, now or after a fetch for m, gives what it gave. */
  lemma KeysStay(f: KeyFile, dir: Directory, m: Message, x: Message)
    requires dir(m).Some?
    requires x == m || forall kind :: Offered(dir(x), kind).Some? ==> Pinned(f, x.sender, kind).Some?
    ensures KeysFor(dir, FetchAndPin(f, m.sender, dir(m).value).file, x) == KeysFor(dir, f, x)
  {
    hide FetchAndPin, Pinned;
    if dir(x).Some? {
      var g := FetchAndPin(f, m.sender, dir(m).value).file;
      forall kind ensures PinAgrees(Pinned(f, x.sender, kind), Pinned(g, x.sender, kind), First(dir(x).value, kind)) {
        PinsAreForever(f, m.sender, dir(m).value, x.sender, kind);
      }
      SameFetch(f, g, x.sender, dir(x).value);
    }
  }

  lemma {:induction false} KeysSettle(who: Identity, dir: Directory, c: Client, ms: seq<Message>, m: Message,
                                      x: Message)
    requires x in ms + [m] && Fetches(who, c, x)
    ensures KeysFor(dir, PinAll(who, dir, c, ms + [m]), x) == KeysFor(dir, PinAll(who, dir, c, ms), x)
  {
    hide FetchAndPin, Pinned, Fetches, KeysFor;
    assert (ms + [m])[..|ms|] == ms;
    if Fetches(who, c, m) && dir(m).Some? {
      var f := PinAll(who, dir, c, ms);
      if x != m {
        forall kind | Offered(dir(x), kind).Some? ensures Pinned(f, x.sender, kind).Some? {
          FirstOfferIsPinned(who, dir, c, ms, x.sender, kind);
          assert x in ms && OfferOf(who, dir, c, x, x.sender, kind).Some?;
        }
      }
      KeysStay(f, dir, m, x);
    }
  }

  /** Judging by c or by c' is all the same for the messages ms, warnings included. */
  ghost predicate JudgedAlike(who: Identity, dir: Directory, c: Client, c': Client, ms: seq<Message>)
  {
    && c'.cache == c.cache && c'.warned == c.warned && c'.file.seqRecv == c.file.seqRecv
    && forall m :: m in ms ==> AlikeOn(who, dir, c, c', m)
  }

  ghost predicate AlikeOn(who: Identity, dir: Directory, c: Client, c': Client, m: Message)
  {
    && Judge(who, dir, c', m) == Judge(who, dir, c, m)
    && (Judge(who, dir, c, m).Opened? ==> Changed(dir, c', m) == Changed(dir, c, m))
  }

  lemma AlikeByKeys(who: Identity, dir: Directory, c: Client, c': Client, m: Message)
    requires c'.cache == c.cache && c'.file.seqRecv == c.file.seqRecv
    requires Fetches(who, c, m) ==> KeysFor(dir, c'.file, m) == KeysFor(dir, c.file, m)
    ensures AlikeOn(who, dir, c, c', m)
  {
    hide FetchAndPin, OpenMessage;
  }

  lemma {:induction false} SettlingMore(who: Identity, dir: Directory, c: Client, ms: seq<Message>, m: Message)
    ensures JudgedAlike(who, dir, Settled(who, dir, c, ms), Settled(who, dir, c, ms + [m]), ms + [m])
  {
    hide KeysFor, PinAll, FirstOffer, AlikeOn;
    FirstOfferIsPinned(who, dir, c, ms, "", X25519);
    FirstOfferIsPinned(who, dir, c, ms + [m], "", X25519);
    var c1, c2 := Settled(who, dir, c, ms), Settled(who, dir, c, ms + [m]);
    forall x | x in ms + [m] ensures AlikeOn(who, dir, c1, c2, x) {
      if Fetches(who, c, x) {
        KeysSettle(who, dir, c, ms, m, x);
      }
      AlikeByKeys(who, dir, c1, c2, x);
    }
  }

  lemma AlikeReaches(who: Identity, dir: Directory, c: Client, c': Client, ms: seq<Message>, d: Client)
    requires JudgedAlike(who, dir, c, c', ms)
    ensures TextsOf(who, dir, c, ms, d.texts) ==> TextsOf(who, dir, c', ms, d.texts)
    ensures CacheOf(who, dir, c, ms, d.cache) ==> CacheOf(who, dir, c', ms, d.cache)
    ensures CountersOf(who, dir, c, ms, d.file) ==> CountersOf(who, dir, c', ms, d.file)
  {
    hide Judge, Changed, IsMaximum;
    assert forall m :: m in ms ==> AlikeOn(who, dir, c, c', m);
    forall s ensures OpenedSeqs(who, dir, c', ms, s) == OpenedSeqs(who, dir, c, ms, s) {
    }
    if CacheOf(who, dir, c, ms, d.cache) {
      forall id | id in d.cache && id !in c'.cache
        ensures exists m :: m in ms && m.id == id && Judge(who, dir, c', m).Opened?
      {
        var m :| m in ms && m.id == id && Judge(who, dir, c, m).Opened?;
        assert AlikeOn(who, dir, c, c', m);
      }
    }
    if CountersOf(who, dir, c, ms, d.file) {
      forall s ensures IsMaximum(LastRecv(c'.file, s), OpenedSeqs(who, dir, c', ms, s), LastRecv(d.file, s)) {
        assert IsMaximum(LastRecv(c.file, s), OpenedSeqs(who, dir, c, ms, s), LastRecv(d.file, s));
      }
    }
  }

  lemma FetchIgnoresCounters(f: KeyFile, seqRecv: map<string, int>, user: string, served: seq<ServedKey>)
    ensures var fetched := FetchAndPin(f, user, served);
            FetchAndPin(f.(seqRecv := seqRecv), user, served) == fetched.(file := fetched.file.(seqRecv := seqRecv))
  {
  }

  /** The step for m, from a state d that the pass over ms has reached. */
  lemma {:induction false} StepFile(who: Identity, dir: Directory, c: Client, ms: seq<Message>, d: Client, m: Message)
    requires d.file == PinAll(who, dir, c, ms).(seqRecv := d.file.seqRecv) && (m.id in d.cache <==> m.id in c.cache)
    ensures var e, f := ShowOne(who, dir, d, m).file, PinAll(who, dir, c, ms + [m]);
            && e == f.(seqRecv := e.seqRecv)
            && (Fetches(who, c, m) ==> KeysFor(dir, d.file, m) == KeysFor(dir, f, m))
  {
    hide FetchAndPin, ShowOne;
    assert (ms + [m])[..|ms|] == ms;
    ShowOnePeers(who, dir, d, m);
    if Fetches(who, c, m) && dir(m).Some? {
      FetchIgnoresCounters(PinAll(who, dir, c, ms), d.file.seqRecv, m.sender, dir(m).value);
      PinsAreForever(PinAll(who, dir, c, ms), m.sender, dir(m).value, m.sender, X25519);
      KeysSettle(who, dir, c, ms, m, m);
    }
  }

  lemma {:induction false} StepReaches(who: Identity, dir: Directory, c: Client, ms: seq<Message>, d: Client,
                                       m: Message)
    requires DistinctIds(ms + [m]) && Reaches(who, dir, Settled(who, dir, c, ms), ms, d)
    ensures var c1, e := Settled(who, dir, c, ms + [m]), ShowOne(who, dir, d, m);
            && Reaches(who, dir, c1, ms + [m], e)
            && Effect(d, m, Judge(who, dir, c1, m), Passes(who, dir, c1, d.file, m), Changed(dir, c1, m), e)
            && CountersOf(who, dir, c1, ms, d.file)
  {
    hide Judge, ShowOne, KeysFor, DistinctIds, PinAll, AlikeOn, TextsOf, CountersOf;
    var c1 := Settled(who, dir, c, ms + [m]);
    SettlingMore(who, dir, c, ms, m);
    AlikeReaches(who, dir, Settled(who, dir, c, ms), c1, ms, d);
    TextsStep(who, dir, c1, ms, d.texts, m);
    CacheStep(who, dir, c1, ms, d.cache, m);
    assert m.id in c1.cache ==> d.cache[m.id] == c1.cache[m.id];
    hide CacheOf;
    StepFile(who, dir, c, ms, d, m);
    ShowOneEffect(who, dir, c1, d, m);
    CountersStep(who, dir, c1, ms, d.file, m, ShowOne(who, dir, d, m).file);
  }

  /** A pass, in whatever order and whatever the directory answers, amounts to its fetches in that order, and then to
      every message judged on its own by the pins they end with: no counter and no other message has a say in a text,
      in what is cached, or in what a counter becomes. */
  lemma {:induction false} PassIsFetchesThenVerdicts(who: Identity, dir: Directory, c: Client, ms: seq<Message>)
    requires DistinctIds(ms) && c.texts == map[]
    ensures Reaches(who, dir, Settled(who, dir, c, ms), ms, Pass(who, dir, c, ms))
  {
    hide Judge, ShowOne, KeysFor;
    if ms == [] {
      assert forall s :: OpenedSeqs(who, dir, c, ms, s) == {};
    } else {
      hide Reaches, Settled;
      var init, m := ms[..|ms| - 1], ms[|ms| - 1];
      assert ms == init + [m];
      PassIsFetchesThenVerdicts(who, dir, c, init);
      StepReaches(who, dir, c, init, Pass(who, dir, c, init), m);
    }
  }

  /** The warnings and acceptances of a pass whose gate opened for exactly the new messages. */
  ghost predicate AcceptsAllNew(who: Identity, dir: Directory, c: Client, ms: seq<Message>, d: Client)
  {
    && (forall m :: m in ms ==>
          (m.id in d.warned <==> m.id in c.warned || (Passes(who, dir, c, c.file, m) && Changed(dir, c, m))))
    && (forall id :: id in d.warned ==> id in c.warned || exists m :: m in ms && m.id == id)
    && (forall m :: m in ms && Passes(who, dir, c, c.file, m) ==>
          Accepted(m.sender, m.env.seqNo, Judge(who, dir, c, m).text) in d.accepted)
    && c.warned <= d.warned
  }

  /** Ascending numbers: nothing opened earlier in the pass can hold a later message back. */
  lemma AscendingGate(who: Identity, dir: Directory, c: Client, ms: seq<Message>, f: KeyFile, m: Message)
    requires AscendingPerSender(ms + [m]) && CountersOf(who, dir, c, ms, f)
    ensures Passes(who, dir, c, f, m) <==> Passes(who, dir, c, c.file, m)
  {
    hide Judge;
    var seqs := OpenedSeqs(who, dir, c, ms, m.sender);
    assert IsMaximum(LastRecv(c.file, m.sender), seqs, LastRecv(f, m.sender));
    forall q | q in seqs ensures q < m.env.seqNo {
      var x :| x in ms && x.sender == m.sender && Judge(who, dir, c, x).Opened? && x.env.seqNo == q;
      var i :| 0 <= i < |ms| && ms[i] == x;
      assert (ms + [m])[i] == x && (ms + [m])[|ms|] == m;
    }
  }

  lemma {:induction false} AcceptsStep(who: Identity, dir: Directory, c: Client, ms: seq<Message>, d: Client,
                                       m: Message, e: Client)
    requires DistinctIds(ms + [m]) && AcceptsAllNew(who, dir, c, ms, d)
    requires Effect(d, m, Judge(who, dir, c, m), Passes(who, dir, c, c.file, m), Changed(dir, c, m), e)
    ensures AcceptsAllNew(who, dir, c, ms + [m], e)
  {
    hide Judge, DistinctIds, Changed;
    forall x | x in ms ensures x.id != m.id {
      NewId(ms, m, x);
    }
    forall id | id in e.warned && id !in c.warned ensures exists x :: x in ms + [m] && x.id == id {
      if id in d.warned {
        var y :| y in ms && y.id == id;
        assert y in ms + [m];
      } else {
        assert m in ms + [m];
      }
    }
  }

  lemma AlikeAccepts(who: Identity, dir: Directory, c: Client, c': Client, ms: seq<Message>, d: Client)
    requires JudgedAlike(who, dir, c, c', ms) && AcceptsAllNew(who, dir, c, ms, d)
    ensures AcceptsAllNew(who, dir, c', ms, d)
  {
    hide Judge, Changed, IsReplay;
    assert forall m :: m in ms ==> AlikeOn(who, dir, c, c', m);
  }

  /** What the sort is for: in ascending order the accepting path, and with it the key warning, is taken by exactly
      the messages opened above the counter the pass began with. */
  lemma {:induction false} AscendingPassAcceptsAllNew(who: Identity, dir: Directory, c: Client, ms: seq<Message>)
    requires DistinctIds(ms) && AscendingPerSender(ms) && c.texts == map[]
    ensures AcceptsAllNew(who, dir, Settled(who, dir, c, ms), ms, Pass(who, dir, c, ms))
  {
    if ms != [] {
      var init, m := ms[..|ms| - 1], ms[|ms| - 1];
      assert ms == init + [m];
      hide Judge, ShowOne, Reaches, CountersOf, AcceptsAllNew, Effect, Passes, Changed, JudgedAlike, Settled;
      AscendingPassAcceptsAllNew(who, dir, c, init);
      PassIsFetchesThenVerdicts(who, dir, c, init);
      AcceptsNext(who, dir, c, init, Pass(who, dir, c, init), m);
    }
  }

  lemma {:induction false} AcceptsNext(who: Identity, dir: Directory, c: Client, ms: seq<Message>, d: Client,
                                       m: Message)
    requires DistinctIds(ms + [m]) && AscendingPerSender(ms + [m])
    requires Reaches(who, dir, Settled(who, dir, c, ms), ms, d)
    requires AcceptsAllNew(who, dir, Settled(who, dir, c, ms), ms, d)
    ensures AcceptsAllNew(who, dir, Settled(who, dir, c, ms + [m]), ms + [m], ShowOne(who, dir, d, m))
  {
    hide Judge, ShowOne, Reaches, CountersOf, AcceptsAllNew, Effect, Passes, Changed, AlikeOn, Settled;
    var c0, c1 := Settled(who, dir, c, ms), Settled(who, dir, c, ms + [m]);
    SettlingMore(who, dir, c, ms, m);
    assert JudgedAlike(who, dir, c0, c1, ms);
    AlikeAccepts(who, dir, c0, c1, ms, d);
    StepReaches(who, dir, c, ms, d, m);
    AscendingGate(who, dir, c1, ms, d.file, m);
    AcceptsStep(who, dir, c1, ms, d, m, ShowOne(who, dir, d, m));
  }
}
