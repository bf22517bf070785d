// client/src/ui/main_frame.py: `_decrypt_sent`, which re-opens the user's own
// messages and may give up on a recipient half way, and `_populate`, which
// makes up for it and builds the conversations.
module SentPane {
  import opened Wrappers
  import opened Encoding
  import opened Keystore
  import opened KeyService
  import opened Messaging
  import opened MessageService
  import Sorting
  import opened Grouping
  import opened Inbox
  import opened MainFrame
  import Primitives
  import Protocol

  class SentMessage {
    const id: string
    const recipient: string
    const env: Envelope
    var plaintext: Option<string>

    constructor (id: string, recipient: string, env: Envelope)
      ensures this.id == id && this.recipient == recipient && this.env == env && plaintext == None
    {
      this.id, this.recipient, this.env, plaintext := id, recipient, env, None;
    }
  }

  const SENT := "[sent]"

  /** What the key directory answers for each recipient, asked at most once in a pass; None when the request raises. */
  type RecipientKeys = string -> Option<seq<ServedKey>>

  function KeysFor(dir: RecipientKeys, f: KeyFile, user: string): Option<(PeerKeys, bool)>
  {
    KeysFrom(dir(user), f, user)
  }

  /** Pins may have been completed, which changes nothing that fetching will return. */
  ghost predicate SamePins(dir: RecipientKeys, f: KeyFile, g: KeyFile)
  {
    && g.seqSend == f.seqSend && g.own == f.own && g.wrapped == f.wrapped && g.salt == f.salt
    && (forall s :: KeysFor(dir, g, s) == KeysFor(dir, f, s))
  }

  lemma SamePinsItself(dir: RecipientKeys, f: KeyFile)
    ensures SamePins(dir, f, f)
  {
  }

  lemma SamePinsTransitive(dir: RecipientKeys, f: KeyFile, g: KeyFile, h: KeyFile)
    requires SamePins(dir, f, g) && SamePins(dir, g, h)
    ensures SamePins(dir, f, h)
  {
    hide KeysFor;
    forall s ensures KeysFor(dir, h, s) == KeysFor(dir, f, s) {
      assert KeysFor(dir, g, s) == KeysFor(dir, f, s);
    }
  }

  lemma FetchedSamePins(dir: RecipientKeys, f: KeyFile, user: string)
    requires dir(user).Some?
    ensures var g := FetchAndPin(f, user, dir(user).value).file;
            SamePins(dir, f, g) && g.seqRecv == f.seqRecv
  {
    var g := FetchAndPin(f, user, dir(user).value).file;
    forall s ensures KeysFor(dir, g, s) == KeysFor(dir, f, s) {
      if s == user {
        FetchAgain(f, user, dir(user).value);
      } else {
        assert PeerOf(g, s) == PeerOf(f, s);
      }
    }
  }

  function RecipientOf(m: SentMessage): string
  {
    m.recipient
  }

  /** What an own message is, from the client as it was before the pass and the message alone. */
  function JudgeSent(who: Identity, dir: RecipientKeys, f: KeyFile, cache: map<string, string>, m: SentMessage): Verdict
  {
    if m.id in cache then Cached(cache[m.id])
    else if !who.available || m.env.ciphertext == [] || KeysFor(dir, f, m.recipient).None? then Blank
    else
      match DecryptOwn(who.p, f, who.keys, who.me, m.recipient, m.env, KeysFor(dir, f, m.recipient).value.0)
      case Ok(text) => Opened(text)
      case Err(_) => Blank
  }

  /** When an own message opens: it is not cached, the recipient's exchange key is served or pinned and ours can be
      used, and it opens under that key and our own signing key. */
  lemma OwnVerdict(who: Identity, dir: RecipientKeys, f: KeyFile, cache: map<string, string>, m: SentMessage,
                   text: string)
    ensures JudgeSent(who, dir, f, cache, m) == Opened(text)
       <==> && m.id !in cache && who.available && m.env.ciphertext != [] && dir(m.recipient).Some?
            && var keys := FetchAndPin(f, m.recipient, dir(m.recipient).value).keys;
               && keys.x25519.Some? && who.keys.Some? && f.own.ed25519.Some?
               && OpenMessage(who.p, m.env, who.me, m.recipient, who.keys.value.x25519, keys.x25519.value,
                              f.own.ed25519.value, None, false) == Ok((text, m.env.seqNo))
    ensures m.id in cache ==> JudgeSent(who, dir, f, cache, m) == Cached(cache[m.id])
  {
    if m.id !in cache && who.available && dir(m.recipient).Some? {
      var keys := FetchAndPin(f, m.recipient, dir(m.recipient).value).keys;
      hide FetchAndPin;
      if keys.x25519.Some? && who.keys.Some? && f.own.ed25519.Some? {
        EnforcementIsAFilter(who.p, m.env, who.me, m.recipient, who.keys.value.x25519, keys.x25519.value,
                             f.own.ed25519.value, None);
      }
    }
  }

  ghost predicate DistinctSent(sent: seq<SentMessage>)
  {
    forall m, n :: m in sent && n in sent && m != n ==> m.id != n.id
  }

  /** The text a pass leaves on a message: a cached text may have been left for later. */
  predicate Labelled(v: Verdict, before: Option<string>, now: Option<string>)
  {
    match v
    case Opened(text) => now == Some(text)
    case Cached(text) => now == Some(text) || now == before
    case _ => now == before
  }

  predicate Standing(v: Verdict, seen: bool, before: Option<string>, now: Option<string>)
  {
    if seen then Labelled(v, before, now) else now == before
  }

  predicate Kept(v: Verdict, id: string, cache: map<string, string>)
  {
    v.Opened? && id != "" ==> id in cache && cache[id] == v.text
  }

  /** The old cache together with exactly the opened texts of the messages seen, those without an id apart. */
  ghost predicate CachedAll(who: Identity, dir: RecipientKeys, f: KeyFile, cache0: map<string, string>,
                            seen: set<SentMessage>, cache: map<string, string>)
  {
    && (forall id :: id in cache0 ==> id in cache && cache[id] == cache0[id])
    && (forall m :: m in seen ==> Kept(JudgeSent(who, dir, f, cache0, m), m.id, cache))
    && (forall id :: id in cache ==>
          (id in cache0
           || exists m :: m in seen && m.id == id && id != "" && JudgeSent(who, dir, f, cache0, m).Opened?))
  }

  /** The pass that began with file f and cache cache0 has dealt with the messages seen. */
  ghost predicate Progress(frame: MainFrame, sent: seq<SentMessage>, before: map<SentMessage, Option<string>>,
                           who: Identity, dir: RecipientKeys, f: KeyFile, cache0: map<string, string>,
                           seen: set<SentMessage>)
    reads frame, frame.svc.keystore, sent
  {
    && frame.Valid() && frame.Who() == who
    && SamePins(dir, f, frame.svc.keystore.file.value) && frame.svc.keystore.file.value.seqRecv == f.seqRecv
    && (forall m :: m in sent ==>
          m in before && Standing(JudgeSent(who, dir, f, cache0, m), m in seen, before[m], m.plaintext))
    && CachedAll(who, dir, f, cache0, seen, frame.cache)
  }

  /** Pins completed meanwhile change nothing about an own message. */
  lemma SamePinsSameVerdict(who: Identity, dir: RecipientKeys, f: KeyFile, g: KeyFile, m: SentMessage)
    requires SamePins(dir, f, g)
    ensures KeysFor(dir, g, m.recipient) == KeysFor(dir, f, m.recipient)
    ensures KeysFor(dir, f, m.recipient).Some? ==>
              var keys := KeysFor(dir, f, m.recipient).value.0;
              DecryptOwn(who.p, g, who.keys, who.me, m.recipient, m.env, keys)
              == DecryptOwn(who.p, f, who.keys, who.me, m.recipient, m.env, keys)
  {
    hide KeysFor, OpenMessage;
  }

  /** A message not dealt with yet is in the cache exactly when it was at first. */
  lemma NotYetCached(who: Identity, dir: RecipientKeys, f: KeyFile, cache0: map<string, string>, sent: seq<SentMessage>,
                     seen: set<SentMessage>, cache: map<string, string>, m: SentMessage)
    requires CachedAll(who, dir, f, cache0, seen, cache) && DistinctSent(sent)
    requires m in sent && m !in seen && forall x :: x in seen ==> x in sent
    ensures m.id in cache <==> m.id in cache0
    ensures m.id in cache ==> cache[m.id] == cache0[m.id]
  {
    hide JudgeSent;
  }

  lemma {:induction false} CachedMore(who: Identity, dir: RecipientKeys, f: KeyFile, cache0: map<string, string>,
                                      sent: seq<SentMessage>,
                   seen: set<SentMessage>, cache: map<string, string>, m: SentMessage, cache': map<string, string>)
    requires CachedAll(who, dir, f, cache0, seen, cache) && DistinctSent(sent)
    requires m in sent && m !in seen && forall x :: x in seen ==> x in sent
    requires var v := JudgeSent(who, dir, f, cache0, m);
             cache' == if v.Opened? && m.id != "" then cache[m.id := v.text] else cache
    ensures CachedAll(who, dir, f, cache0, seen + {m}, cache')
  {
    hide KeysFor, DecryptOwn;
    NotYetCached(who, dir, f, cache0, sent, seen, cache, m);
    assert JudgeSent(who, dir, f, cache0, m).Opened? ==> m.id !in cache0;
    hide JudgeSent;
  }

  /** When the recipient's exchange key cannot be had, none of the messages to them opens. */
  lemma NothingOpens(who: Identity, dir: RecipientKeys, f: KeyFile, cache0: map<string, string>, sent: seq<SentMessage>,
                     seen: set<SentMessage>, rest: set<SentMessage>, recipient: string, cache: map<string, string>)
    requires CachedAll(who, dir, f, cache0, seen, cache) && forall m :: m in rest ==> m.recipient == recipient
    requires KeysFor(dir, f, recipient).None? || KeysFor(dir, f, recipient).value.0.x25519.None?
    ensures forall m :: m in rest ==>
              JudgeSent(who, dir, f, cache0, m).Cached? || JudgeSent(who, dir, f, cache0, m).Blank?
    ensures CachedAll(who, dir, f, cache0, seen + rest, cache)
  {
    hide KeysFor;
    forall m | m in rest ensures JudgeSent(who, dir, f, cache0, m).Cached? || JudgeSent(who, dir, f, cache0, m).Blank? {
    }
    hide JudgeSent;
  }

  /** The lazy fetch; None where the loop gives up on the recipient. */
  method FetchFor(frame: MainFrame, recipient: string, dir: RecipientKeys, ghost sent: seq<SentMessage>,
                  ghost before: map<SentMessage, Option<string>>, ghost who: Identity, ghost f: KeyFile,
                  ghost cache0: map<string, string>, ghost seen: set<SentMessage>)
    returns (keys: Option<PeerKeys>)
    requires Progress(frame, sent, before, who, dir, f, cache0, seen)
    modifies frame.svc.keystore`file
    ensures Progress(frame, sent, before, who, dir, f, cache0, seen)
    ensures keys.Some? ==> KeysFor(dir, f, recipient).Some? && KeysFor(dir, f, recipient).value.0 == keys.value
    ensures keys.None? ==> KeysFor(dir, f, recipient).None? || KeysFor(dir, f, recipient).value.0.x25519.None?
  {
    ghost var g := frame.svc.keystore.file.value;
    assert KeysFor(dir, g, recipient) == KeysFor(dir, f, recipient);
    hide SamePins, FetchAndPin, JudgeSent, CachedAll;
    var served := dir(recipient);
    if served.None? {
      return None;
    }
    FetchedSamePins(dir, g, recipient);
    SamePinsTransitive(dir, f, g, FetchAndPin(g, recipient, served.value).file);
    var result, _ := frame.svc.keySvc.FetchAndPinKeys(recipient, served.value);
    keys := if result.x25519.None? then None else Some(result);
  }

  method DecryptOneSent(frame: MainFrame, m: SentMessage, pinned: Option<PeerKeys>, ghost dir: RecipientKeys,
                        ghost f: KeyFile, ghost cache0: map<string, string>)
    returns (added: bool)
    requires frame.Valid() && frame.available && SamePins(dir, f, frame.svc.keystore.file.value)
    requires (m.id in frame.cache <==> m.id in cache0) && (m.id in cache0 ==> frame.cache[m.id] == cache0[m.id])
    requires m.id !in frame.cache && m.env.ciphertext != [] ==> pinned.Some?
    requires pinned.Some? ==> KeysFor(dir, f, m.recipient).Some? && KeysFor(dir, f, m.recipient).value.0 == pinned.value
    modifies frame`cache, m
    ensures var v := JudgeSent(frame.Who(), dir, f, cache0, m);
            && m.plaintext == (if v.Blank? then old(m.plaintext) else Some(v.text))
            && frame.cache == (if v.Opened? && m.id != "" then old(frame.cache)[m.id := v.text] else old(frame.cache))
            && added == (v.Opened? && m.id != "") && (v.Cached? || v.Opened? || v.Blank?)
            && (v.Opened? ==> m.id !in old(frame.cache))
  {
    SamePinsSameVerdict(frame.Who(), dir, f, frame.svc.keystore.file.value, m);
    hide SamePins, KeysFor, DecryptOwn;
    added := false;
    if m.id in frame.cache {
      m.plaintext := Some(frame.cache[m.id]);
      return;
    }
    if m.env.ciphertext == [] {
      return;
    }
    var svc := frame.svc;
    var plain := DecryptOwn(svc.keystore.p, svc.keystore.file.value, svc.keystore.keys, svc.userId, m.recipient, m.env,
                              pinned.value);
    if plain.Ok? {
      m.plaintext := Some(plain.value);
      if m.id != "" {
        frame.cache := frame.cache[m.id := plain.value];
        added := true;
      }
    }
  }

  /** One turn of the inner loop past the fetch. */
  method DecryptNext(frame: MainFrame, m: SentMessage, pinned: Option<PeerKeys>, ghost sent: seq<SentMessage>,
                     ghost before: map<SentMessage, Option<string>>, ghost who: Identity, ghost dir: RecipientKeys,
                     ghost f: KeyFile, ghost cache0: map<string, string>, ghost seen: set<SentMessage>)
    returns (added: bool)
    requires Progress(frame, sent, before, who, dir, f, cache0, seen) && DistinctSent(sent) && frame.available
    requires m in sent && m !in seen && forall x :: x in seen ==> x in sent
    requires m.id !in frame.cache && m.env.ciphertext != [] ==> pinned.Some?
    requires pinned.Some? ==> KeysFor(dir, f, m.recipient).Some? && KeysFor(dir, f, m.recipient).value.0 == pinned.value
    modifies frame`cache, m
    ensures Progress(frame, sent, before, who, dir, f, cache0, seen + {m})
    ensures old(frame.cache).Keys <= frame.cache.Keys && (added <==> old(frame.cache).Keys != frame.cache.Keys)
  {
    hide JudgeSent, KeysFor, SamePins, CachedAll;
    NotYetCached(who, dir, f, cache0, sent, seen, frame.cache, m);
    ghost var cache := frame.cache;
    added := DecryptOneSent(frame, m, pinned, dir, f, cache0);
    CachedMore(who, dir, f, cache0, sent, seen, cache, m, frame.cache);
  }

  lemma GivingUp(frame: MainFrame, sent: seq<SentMessage>, before: map<SentMessage, Option<string>>, who: Identity,
                 dir: RecipientKeys, f: KeyFile, cache0: map<string, string>, seen: set<SentMessage>,
                 rest: set<SentMessage>, recipient: string)
    requires Progress(frame, sent, before, who, dir, f, cache0, seen)
    requires forall m :: m in rest ==> m.recipient == recipient
    requires KeysFor(dir, f, recipient).None? || KeysFor(dir, f, recipient).value.0.x25519.None?
    ensures Progress(frame, sent, before, who, dir, f, cache0, seen + rest)
  {
    hide JudgeSent, KeysFor, SamePins, CachedAll;
    NothingOpens(who, dir, f, cache0, sent, seen, rest, recipient, frame.cache);
  }

  /** The inner loop: the messages to one recipient, whose keys are fetched at most once and only when needed. */
  method DecryptSentBucket(frame: MainFrame, msgs: seq<SentMessage>, recipient: string, dir: RecipientKeys,
                           ghost sent: seq<SentMessage>, ghost before: map<SentMessage, Option<string>>,
                           ghost who: Identity, ghost f: KeyFile, ghost cache0: map<string, string>,
                           ghost seen0: set<SentMessage>)
    returns (added: bool)
    requires Progress(frame, sent, before, who, dir, f, cache0, seen0) && DistinctSent(sent) && NoRepeats(msgs)
    requires frame.available
    requires forall m :: m in seen0 ==> m in sent
    requires forall m :: m in msgs ==> m in sent && m !in seen0 && m.recipient == recipient
    modifies frame`cache, frame.svc.keystore`file, sent
    ensures Progress(frame, sent, before, who, dir, f, cache0, seen0 + set m | m in msgs)
    ensures old(frame.cache).Keys <= frame.cache.Keys && (added <==> old(frame.cache).Keys != frame.cache.Keys)
  {
    hide KeysFor, Progress;
    added := false;
    var pinned: Option<PeerKeys> := None;
    ghost var seen := seen0;
    for j := 0 to |msgs|
      invariant seen == seen0 + set m | m in msgs[..j]
      invariant Progress(frame, sent, before, who, dir, f, cache0, seen)
      invariant old(frame.cache).Keys <= frame.cache.Keys && (added <==> old(frame.cache).Keys != frame.cache.Keys)
      invariant pinned.Some? ==> KeysFor(dir, f, recipient).Some? && KeysFor(dir, f, recipient).value.0 == pinned.value
    {
      var m := msgs[j];
      assert m !in seen && forall x :: x in seen ==> x in sent;
      if m.id !in frame.cache && m.env.ciphertext != [] && pinned.None? {
        pinned := FetchFor(frame, recipient, dir, sent, before, who, f, cache0, seen);
        if pinned.None? {
          ghost var rest := set x | x in msgs[j..];
          GivingUp(frame, sent, before, who, dir, f, cache0, seen, rest, recipient);
          assert msgs == msgs[..j] + msgs[j..];
          seen := seen + rest;
          assert seen == seen0 + set x | x in msgs;
          return;
        }
      }
      var now := DecryptNext(frame, m, pinned, sent, before, who, dir, f, cache0, seen);
      assert msgs[..j + 1] == msgs[..j] + [m];
      seen := seen + {m};
      added := added || now;
    }
    assert msgs[..|msgs|] == msgs;
  }

  lemma OneBucket(sent: seq<SentMessage>, order: seq<string>, i: nat)
    requires NoRepeats(sent) && NoRepeats(order) && i < |order|
    ensures var msgs := Bucket(RecipientOf, sent, order[i]);
            && NoRepeats(msgs)
            && (forall m :: m in msgs ==> m in sent && m.recipient == order[i] && m.recipient !in order[..i])
            && (set m | m in sent && m.recipient in order[..i]) + (set m | m in msgs)
               == set m | m in sent && m.recipient in order[..i + 1]
  {
    var msgs := Bucket(RecipientOf, sent, order[i]);
    forall m ensures m in msgs <==> m in sent && m.recipient == order[i] {
      BucketMembers(RecipientOf, sent, order[i], m);
    }
    BucketNoRepeats(RecipientOf, sent, order[i]);
    assert order[..i + 1] == order[..i] + [order[i]];
  }

  ghost function Texts(sent: seq<SentMessage>): map<SentMessage, Option<string>>
    reads sent
  {
    map m | m in sent :: m.plaintext
  }

  lemma NothingSeen(frame: MainFrame, sent: seq<SentMessage>, dir: RecipientKeys)
    requires frame.Valid()
    ensures Progress(frame, sent, Texts(sent), frame.Who(), dir, frame.svc.keystore.file.value, frame.cache, {})
  {
    hide JudgeSent;
    SamePinsItself(dir, frame.svc.keystore.file.value);
  }

  /** Without a keystore nothing opens, so a pass that does nothing has dealt with every message. */
  lemma NothingToDo(frame: MainFrame, sent: seq<SentMessage>, dir: RecipientKeys)
    requires frame.Valid() && !frame.available
    ensures Progress(frame, sent, Texts(sent), frame.Who(), dir, frame.svc.keystore.file.value, frame.cache,
                     set m | m in sent)
  {
    hide KeysFor, DecryptOwn;
    SamePinsItself(dir, frame.svc.keystore.file.value);
  }

  /** `_decrypt_sent`: no counter moves; pins are at most completed; each message shows its own verdict, except
      that a cached one may be left for `_populate`; the cache gains exactly the opened texts and is saved when it
      gained any. */
  method DecryptSent(frame: MainFrame, sent: seq<SentMessage>, dir: RecipientKeys, nonce: Bytes)
    requires frame.Valid() && DistinctSent(sent) && NoRepeats(sent)
    modifies frame`cache, frame.svc.keystore`file, frame.svc.keystore`cacheFile, sent
    ensures Progress(frame, sent, old(Texts(sent)), old(frame.Who()), dir, old(frame.svc.keystore.file.value),
                     old(frame.cache), set m | m in sent)
    ensures !frame.available ==>
              frame.cache == old(frame.cache) && frame.svc.keystore.file == old(frame.svc.keystore.file)
    ensures frame.svc.keystore.cacheFile ==
              if frame.cache.Keys == old(frame.cache).Keys then old(frame.svc.keystore.cacheFile)
              else SaveCache(frame.svc.keystore.p, old(frame.svc.keystore.State()), frame.cache, nonce).cacheFile
  {
    if !frame.available {
      NothingToDo(frame, sent, dir);
      return;
    }
    var added := DecryptBuckets(frame, sent, dir);
    assert frame.svc.keystore.cacheFile == old(frame.svc.keystore.cacheFile);
    hide JudgeSent, SamePins, CachedAll;
    if added {
      frame.svc.keystore.SaveMessageCache(frame.cache, nonce);
    }
  }

  method DecryptBuckets(frame: MainFrame, sent: seq<SentMessage>, dir: RecipientKeys) returns (added: bool)
    requires frame.Valid() && frame.available && DistinctSent(sent) && NoRepeats(sent)
    modifies frame`cache, frame.svc.keystore`file, sent
    ensures Progress(frame, sent, old(Texts(sent)), old(frame.Who()), dir, old(frame.svc.keystore.file.value),
                     old(frame.cache), set m | m in sent)
    ensures added <==> old(frame.cache).Keys != frame.cache.Keys
  {
    hide Bucket, Progress;
    ghost var before, who, f, cache0 := Texts(sent), frame.Who(), frame.svc.keystore.file.value, frame.cache;
    NothingSeen(frame, sent, dir);
    var order, byRecipient := GroupBy(RecipientOf, sent);
    added := false;
    ghost var seen: set<SentMessage> := {};
    for i := 0 to |order|
      invariant seen == set m | m in sent && m.recipient in order[..i]
      invariant Progress(frame, sent, before, who, dir, f, cache0, seen)
      invariant cache0.Keys <= frame.cache.Keys && (added <==> cache0.Keys != frame.cache.Keys)
    {
      OneBucket(sent, order, i);
      var msgs := byRecipient[order[i]];
      var now := DecryptSentBucket(frame, msgs, order[i], dir, sent, before, who, f, cache0, seen);
      added := added || now;
      seen := seen + set m | m in msgs;
    }
    assert order[..|order|] == order;
    assert seen == set m | m in sent;
  }

  // ----- `_populate` -----

  datatype Line = In(received: InboxMessage) | Out(sent: SentMessage)

  datatype Conversation = Conversation(lines: seq<Line>, keyWarning: bool)

  function PeerOfLine(line: Line): string
  {
    match line case In(m) => m.msg.sender case Out(m) => m.recipient
  }

  function Lines(inbox: seq<InboxMessage>, sent: seq<SentMessage>): (r: seq<Line>)
    ensures |r| == |inbox| + |sent|
    ensures forall i :: 0 <= i < |inbox| ==> r[i] == In(inbox[i])
    ensures forall i :: |inbox| <= i < |r| ==> r[i] == Out(sent[i - |inbox|])
  {
    seq(|inbox|, i requires 0 <= i < |inbox| => In(inbox[i])) + seq(|sent|, i requires 0 <= i < |sent| => Out(sent[i]))
  }

  /** A text that is empty, like one that is missing, falls back to the cache and then to the placeholder. */
  function FinalText(cache: map<string, string>, id: string, now: Option<string>): string
  {
    if now.Some? && now.value != "" then now.value
    else if id != "" && id in cache && cache[id] != "" then cache[id]
    else SENT
  }

  ghost predicate Warned(lines: seq<Line>, warned: set<InboxMessage>)
  {
    exists m :: In(m) in lines && m in warned
  }

  ghost function WarnedOf(inbox: seq<InboxMessage>): set<InboxMessage>
    reads inbox
  {
    set m | m in inbox && m.keyWarning
  }

  /** Every message in its peer's conversation and nowhere else, in time order; the warning is on exactly the
      conversations with a warned message. */
  ghost predicate Arranged(inbox: seq<InboxMessage>, sent: seq<SentMessage>, created: Line -> int,
                           warned: set<InboxMessage>, conversations: map<string, Conversation>)
  {
    && (forall peer :: peer in conversations ==>
          && conversations[peer].lines == Sorting.Sort(created, Bucket(PeerOfLine, Lines(inbox, sent), peer))
          && (conversations[peer].keyWarning <==> Warned(conversations[peer].lines, warned)))
    && (forall line :: line in Lines(inbox, sent) ==> PeerOfLine(line) in conversations)
  }

  /** The conversations, told from the two lists alone: every message is in its peer's thread as often as in its list,
      and in no other; threads never go back in time; a peer has a thread exactly when some message has that peer, and
      a warning exactly when some received message there has one. */
  ghost predicate Filed(inbox: seq<InboxMessage>, sent: seq<SentMessage>, created: Line -> int,
                        warned: set<InboxMessage>, conversations: map<string, Conversation>)
  {
    && (forall peer :: peer in conversations <==>
          || (exists m :: m in inbox && m.msg.sender == peer)
          || (exists m :: m in sent && m.recipient == peer))
    && (forall peer :: peer in conversations ==>
          ThreadOf(inbox, sent, created, warned, conversations[peer], peer))
  }

  ghost predicate ThreadOf(inbox: seq<InboxMessage>, sent: seq<SentMessage>, created: Line -> int,
                           warned: set<InboxMessage>, thread: Conversation, peer: string)
  {
    var lines := thread.lines;
    && (forall m :: m in inbox ==> multiset(lines)[In(m)] == if m.msg.sender == peer then multiset(inbox)[m] else 0)
    && (forall m :: m in sent ==> multiset(lines)[Out(m)] == if m.recipient == peer then multiset(sent)[m] else 0)
    && (forall line :: line in lines ==> BelongsTo(inbox, sent, line, peer))
    && (forall i, j :: 0 <= i < j < |lines| ==> created(lines[i]) <= created(lines[j]))
    && (thread.keyWarning <==> exists m :: m in inbox && m.msg.sender == peer && m in warned)
  }

  predicate BelongsTo(inbox: seq<InboxMessage>, sent: seq<SentMessage>, line: Line, peer: string)
  {
    match line
    case In(m) => m in inbox && m.msg.sender == peer
    case Out(m) => m in sent && m.recipient == peer
  }

  lemma {:induction false} BucketCounts(lines: seq<Line>, peer: string, x: Line)
    ensures multiset(Bucket(PeerOfLine, lines, peer))[x]
         == if PeerOfLine(x) == peer then multiset(lines)[x] else 0
  {
    if lines != [] {
      hide PeerOfLine;
      BucketCounts(lines[..|lines| - 1], peer, x);
      assert lines == lines[..|lines| - 1] + [lines[|lines| - 1]];
    }
  }

  /** How often a message is in its list. */
  ghost function Listed(inbox: seq<InboxMessage>, sent: seq<SentMessage>, line: Line): nat
  {
    match line case In(m) => multiset(inbox)[m] case Out(m) => multiset(sent)[m]
  }

  lemma {:induction false} InCount(inbox: seq<InboxMessage>, lines: seq<Line>, line: Line)
    requires |lines| == |inbox| && forall i :: 0 <= i < |inbox| ==> lines[i] == In(inbox[i])
    ensures multiset(lines)[line] == match line case In(m) => multiset(inbox)[m] case Out(_) => 0
  {
    if inbox != [] {
      InCount(inbox[..|inbox| - 1], lines[..|inbox| - 1], line);
      assert lines == lines[..|inbox| - 1] + [In(inbox[|inbox| - 1])];
      assert inbox == inbox[..|inbox| - 1] + [inbox[|inbox| - 1]];
    }
  }

  lemma {:induction false} OutCount(sent: seq<SentMessage>, lines: seq<Line>, line: Line)
    requires |lines| == |sent| && forall i :: 0 <= i < |sent| ==> lines[i] == Out(sent[i])
    ensures multiset(lines)[line] == match line case In(_) => 0 case Out(m) => multiset(sent)[m]
  {
    if sent != [] {
      OutCount(sent[..|sent| - 1], lines[..|sent| - 1], line);
      assert lines == lines[..|sent| - 1] + [Out(sent[|sent| - 1])];
      assert sent == sent[..|sent| - 1] + [sent[|sent| - 1]];
    }
  }

  lemma {:induction false} LinesCount(inbox: seq<InboxMessage>, sent: seq<SentMessage>, line: Line)
    ensures multiset(Lines(inbox, sent))[line] == Listed(inbox, sent, line)
  {
    var lines := Lines(inbox, sent);
    hide Lines;
    InCount(inbox, lines[..|inbox|], line);
    OutCount(sent, lines[|inbox|..], line);
    assert lines == lines[..|inbox|] + lines[|inbox|..];
  }

  lemma ThreadCounts(inbox: seq<InboxMessage>, sent: seq<SentMessage>, created: Line -> int, peer: string, line: Line)
    ensures multiset(Sorting.Sort(created, Bucket(PeerOfLine, Lines(inbox, sent), peer)))[line]
         == if PeerOfLine(line) == peer then Listed(inbox, sent, line) else 0
  {
    hide Sorting.Sort, Bucket, Lines, PeerOfLine;
    Sorting.SortSorts(created, Bucket(PeerOfLine, Lines(inbox, sent), peer));
    BucketCounts(Lines(inbox, sent), peer, line);
    LinesCount(inbox, sent, line);
  }

  lemma {:induction false} ArrangedThread(inbox: seq<InboxMessage>, sent: seq<SentMessage>, created: Line -> int,
                                          warned: set<InboxMessage>, thread: Conversation, peer: string)
    requires thread.lines == Sorting.Sort(created, Bucket(PeerOfLine, Lines(inbox, sent), peer))
    requires thread.keyWarning <==> Warned(thread.lines, warned)
    ensures ThreadOf(inbox, sent, created, warned, thread, peer)
  {
    hide Sorting.Sort, Bucket, Lines;
    Sorting.SortSorts(created, Bucket(PeerOfLine, Lines(inbox, sent), peer));
    forall m | m in inbox
      ensures multiset(thread.lines)[In(m)] == if m.msg.sender == peer then multiset(inbox)[m] else 0
    {
      ThreadCounts(inbox, sent, created, peer, In(m));
    }
    forall m | m in sent
      ensures multiset(thread.lines)[Out(m)] == if m.recipient == peer then multiset(sent)[m] else 0
    {
      ThreadCounts(inbox, sent, created, peer, Out(m));
    }
    forall line | line in thread.lines ensures BelongsTo(inbox, sent, line, peer) {
      ThreadCounts(inbox, sent, created, peer, line);
      assert multiset(thread.lines)[line] > 0;
    }
    forall m | m in inbox && m.msg.sender == peer ensures In(m) in thread.lines {
      assert multiset(thread.lines)[In(m)] > 0;
    }
  }

  /** What the loops build is what the two lists say. */
  lemma {:induction false} ArrangedIsFiled(inbox: seq<InboxMessage>, sent: seq<SentMessage>, created: Line -> int,
                                           warned: set<InboxMessage>, conversations: map<string, Conversation>)
    requires Arranged(inbox, sent, created, warned, conversations)
    requires forall peer :: peer in conversations ==> conversations[peer].lines != []
    ensures Filed(inbox, sent, created, warned, conversations)
  {
    hide Sorting.Sort, Bucket, ThreadOf, Lines;
    forall peer | peer in conversations
      ensures ThreadOf(inbox, sent, created, warned, conversations[peer], peer)
      ensures (exists m :: m in inbox && m.msg.sender == peer) || (exists m :: m in sent && m.recipient == peer)
    {
      ArrangedThread(inbox, sent, created, warned, conversations[peer], peer);
      SomePeer(inbox, sent, created, warned, conversations[peer], peer);
    }
    forall m | m in inbox ensures m.msg.sender in conversations {
      LinesCount(inbox, sent, In(m));
      assert In(m) in Lines(inbox, sent);
    }
    forall m | m in sent ensures m.recipient in conversations {
      LinesCount(inbox, sent, Out(m));
      assert Out(m) in Lines(inbox, sent);
    }
  }

  lemma SomePeer(inbox: seq<InboxMessage>, sent: seq<SentMessage>, created: Line -> int, warned: set<InboxMessage>,
                 thread: Conversation, peer: string)
    requires ThreadOf(inbox, sent, created, warned, thread, peer) && thread.lines != []
    ensures (exists m :: m in inbox && m.msg.sender == peer) || (exists m :: m in sent && m.recipient == peer)
  {
    assert thread.lines[0] in thread.lines;
  }

  method LabelSent(frame: MainFrame, sent: seq<SentMessage>)
    requires NoRepeats(sent)
    modifies sent
    ensures forall m :: m in sent ==> m.plaintext == Some(FinalText(frame.cache, m.id, old(m.plaintext)))
  {
    for i := 0 to |sent|
      invariant forall j :: 0 <= j < i ==>
                  sent[j].plaintext == Some(FinalText(frame.cache, sent[j].id, old(sent[j].plaintext)))
      invariant forall j :: i <= j < |sent| ==> sent[j].plaintext == old(sent[j].plaintext)
    {
      var m := sent[i];
      if m.plaintext.None? || m.plaintext.value == "" {
        var cached := if m.id != "" && m.id in frame.cache then frame.cache[m.id] else "";
        m.plaintext := Some(if cached != "" then cached else SENT);
      }
    }
  }

  method AnyWarned(lines: seq<Line>, ghost warned: set<InboxMessage>) returns (r: bool)
    requires forall m :: In(m) in lines ==> (m in warned <==> m.keyWarning)
    ensures r <==> Warned(lines, warned)
  {
    for i := 0 to |lines|
      invariant forall j :: 0 <= j < i ==> lines[j].In? ==> lines[j].received !in warned
    {
      match lines[i] {
        case Out(_) =>
        case In(m) =>
          assert In(m) in lines;
          if m.keyWarning {
            return true;
          }
      }
    }
    r := false;
  }

  method Populate(frame: MainFrame, inbox: seq<InboxMessage>, sent: seq<SentMessage>, created: Line -> int)
    returns (conversations: map<string, Conversation>)
    requires NoRepeats(sent)
    modifies sent
    ensures forall m :: m in sent ==> m.plaintext == Some(FinalText(frame.cache, m.id, old(m.plaintext)))
    ensures forall m :: m in sent ==>
              if old(m.plaintext).Some? && old(m.plaintext).value != "" then m.plaintext == old(m.plaintext)
              else if m.id != "" && m.id in frame.cache && frame.cache[m.id] != ""
                   then m.plaintext == Some(frame.cache[m.id]) else m.plaintext == Some("[sent]")
    ensures Arranged(inbox, sent, created, WarnedOf(inbox), conversations)
    ensures Filed(inbox, sent, created, WarnedOf(inbox), conversations)
  {
    LabelSent(frame, sent);
    conversations := Arrange(inbox, sent, created);
  }

  method Arrange(inbox: seq<InboxMessage>, sent: seq<SentMessage>, created: Line -> int)
    returns (conversations: map<string, Conversation>)
    ensures Arranged(inbox, sent, created, WarnedOf(inbox), conversations)
    ensures Filed(inbox, sent, created, WarnedOf(inbox), conversations)
  {
    hide Sorting.Sort, Bucket, Filed;
    ghost var warned := WarnedOf(inbox);
    var order, groups := GroupBy(PeerOfLine, Lines(inbox, sent));
    conversations := map[];
    for i := 0 to |order|
      invariant forall peer :: peer in conversations ==>
                  && peer in order && conversations[peer].lines != []
                  && conversations[peer].lines == Sorting.Sort(created, Bucket(PeerOfLine, Lines(inbox, sent), peer))
                  && (conversations[peer].keyWarning <==> Warned(conversations[peer].lines, warned))
      invariant forall j :: 0 <= j < i ==> order[j] in conversations
    {
      var lines := Sorting.Sort(created, groups[order[i]]);
      Sorting.SortSorts(created, groups[order[i]]);
      forall m | In(m) in lines ensures m in warned <==> m.keyWarning {
        SortedBucketMembers(PeerOfLine, created, Lines(inbox, sent), order[i], In(m));
        FromInbox(inbox, sent, m);
      }
      var warn := AnyWarned(lines, warned);
      conversations := conversations[order[i] := Conversation(lines, warn)];
    }
    forall line | line in Lines(inbox, sent) ensures PeerOfLine(line) in conversations {
      var j :| 0 <= j < |order| && order[j] == PeerOfLine(line);
    }
    ArrangedIsFiled(inbox, sent, created, warned, conversations);
  }

  lemma FromInbox(inbox: seq<InboxMessage>, sent: seq<SentMessage>, m: InboxMessage)
    requires In(m) in Lines(inbox, sent)
    ensures m in inbox
  {
    var i :| 0 <= i < |Lines(inbox, sent)| && Lines(inbox, sent)[i] == In(m);
  }

  /** The text a sent message ends up with, from the start of the pass and the message alone. */
  function Shown(v: Verdict): string
  {
    if (v.Cached? || v.Opened?) && v.text != "" then v.text else SENT
  }

  /** The two together: however early the pass gave up on a recipient, and in whatever order recipients came, every
      message of the user's own shows its cached text, else the text it opens to, else the placeholder; the empty
      text too is shown as the placeholder. */
  method ShowSent(frame: MainFrame, inbox: seq<InboxMessage>, sent: seq<SentMessage>, dir: RecipientKeys, nonce: Bytes,
                  created: Line -> int)
    returns (conversations: map<string, Conversation>)
    requires frame.Valid() && DistinctSent(sent) && NoRepeats(sent)
    modifies frame`cache, frame.svc.keystore`file, frame.svc.keystore`cacheFile, sent
    ensures forall m :: m in sent && old(m.plaintext) == None && m.id != "" ==>
              var v := JudgeSent(old(frame.Who()), dir, old(frame.svc.keystore.file.value), old(frame.cache), m);
              m.plaintext == Some(if (v.Cached? || v.Opened?) && v.text != "" then v.text else "[sent]")
    ensures frame.Valid() && frame.svc.keystore.file.value.seqRecv == old(frame.svc.keystore.file.value.seqRecv)
    ensures Arranged(inbox, sent, created, WarnedOf(inbox), conversations)
    ensures Filed(inbox, sent, created, WarnedOf(inbox), conversations)
  {
    hide SamePins, Arranged, Filed;
    ghost var who, f, cache0, before := frame.Who(), frame.svc.keystore.file.value, frame.cache, Texts(sent);
    DecryptSent(frame, sent, dir, nonce);
    forall m | m in sent && before[m] == None && m.id != ""
      ensures FinalText(frame.cache, m.id, m.plaintext) == Shown(JudgeSent(who, dir, f, cache0, m))
    {
      ShownInTheEnd(who, dir, f, cache0, frame.cache, sent, m, m.plaintext);
    }
    hide JudgeSent, CachedAll;
    conversations := Populate(frame, inbox, sent, created);
  }

  lemma {:induction false} ShownInTheEnd(who: Identity, dir: RecipientKeys, f: KeyFile, cache0: map<string, string>,
                                         cache: map<string, string>, sent: seq<SentMessage>, m: SentMessage,
                                         now: Option<string>)
    requires CachedAll(who, dir, f, cache0, (set x | x in sent), cache) && DistinctSent(sent) && m in sent && m.id != ""
    requires Labelled(JudgeSent(who, dir, f, cache0, m), None, now)
    ensures FinalText(cache, m.id, now) == Shown(JudgeSent(who, dir, f, cache0, m))
  {
    hide KeysFor, DecryptOwn;
  }

  /** The step the system takes for one own message caches exactly what its verdict opened. */
  lemma StepCachesTheVerdict(p: Primitives.Primitives, user: string, d: Protocol.Device, dir: RecipientKeys,
                             m: SentMessage)
    ensures var v := JudgeSent(Protocol.WhoIs(p, user, d), dir, d.file, d.cache, m);
            var d' := Protocol.ShowOwn(p, user, d, m.id, m.recipient, m.env, dir(m.recipient));
            && d'.cache == (if v.Opened? && m.id != "" then d.cache[m.id := v.text] else d.cache)
            && d'.file.seqRecv == d.file.seqRecv && d'.file.seqSend == d.file.seqSend
  {
    hide OpenMessage;
    PinsAreForever(d.file, m.recipient, if dir(m.recipient).Some? then dir(m.recipient).value else [], m.recipient,
                   X25519);
  }
}
