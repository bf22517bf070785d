// client/src/ui/main_frame.py: the inbox pass as it runs, on message objects
// changed in place, against the fetches and verdicts of Inbox.
module MainFrame {
  import opened Wrappers
  import opened Encoding
  import opened Keystore
  import opened Messaging
  import MessageService
  import opened Sorting
  import opened Grouping
  import opened Inbox
  import opened InboxOrder

  class InboxMessage {
    const msg: Message
    var plaintext: Option<string>
    var keyWarning: bool

    constructor (msg: Message)
      ensures this.msg == msg && plaintext == None && !keyWarning
    {
      this.msg, plaintext, keyWarning := msg, None, false;
    }
  }

  function SenderOf(m: InboxMessage): string
  {
    m.msg.sender
  }

  function SeqNoOf(m: InboxMessage): int
  {
    m.msg.env.seqNo
  }

  function Messages(ms: seq<InboxMessage>): (r: seq<Message>)
    ensures |r| == |ms| && forall i :: 0 <= i < |ms| ==> r[i] == ms[i].msg
  {
    seq(|ms|, i requires 0 <= i < |ms| => ms[i].msg)
  }

  ghost predicate DistinctSeqs(ms: seq<Message>)
  {
    forall i, j :: 0 <= i < j < |ms| && ms[i].sender == ms[j].sender ==> ms[i].env.seqNo != ms[j].env.seqNo
  }

  lemma SameObjectsSameMessages(xs: seq<InboxMessage>, ys: seq<InboxMessage>)
    requires DistinctIds(Messages(xs)) && multiset(xs) == multiset(ys)
    ensures DistinctIds(Messages(ys))
    ensures forall x :: x in ys <==> x in xs
    ensures forall m :: m in Messages(ys) <==> m in Messages(xs)
  {
    var ms, ns := Messages(xs), Messages(ys);
    forall i, j | 0 <= i < j < |xs| ensures xs[i] != xs[j] {
      assert ms[i].id != ms[j].id;
    }
    PermutationKeepsNoRepeats(xs, ys);
    forall x ensures x in ys <==> x in xs {
      assert x in multiset(xs) <==> x in multiset(ys);
    }
    forall i, j | 0 <= i < j < |ys| ensures ns[i].id != ns[j].id {
      assert ys[i] in xs && ys[j] in xs;
      var k :| 0 <= k < |xs| && xs[k] == ys[i];
      var l :| 0 <= l < |xs| && xs[l] == ys[j];
      assert ms[k] == ns[i] && ms[l] == ns[j];
      assert k != l;
    }
    forall m ensures m in ns <==> m in ms {
      if m in ns {
        var i :| 0 <= i < |ns| && ns[i] == m;
        assert ys[i] in xs;
        var k :| 0 <= k < |xs| && xs[k] == ys[i];
        assert ms[k] == m;
      }
      if m in ms {
        var i :| 0 <= i < |ms| && ms[i] == m;
        assert xs[i] in ys;
        var k :| 0 <= k < |ys| && ys[k] == xs[i];
        assert ns[k] == m;
      }
    }
  }

  /** The order in which the pass visits the inbox: all of it, once, ascending within each sender. */
  lemma VisitingOrder(inbox: seq<InboxMessage>, order: seq<string>)
    requires DistinctIds(Messages(inbox)) && NoRepeats(order) && forall m :: m in inbox ==> SenderOf(m) in order
    ensures var done := Grouped(SenderOf, SeqNoOf, inbox, order);
            && multiset(done) == multiset(inbox)
            && DistinctIds(Messages(done))
            && (forall x :: x in done <==> x in inbox)
            && (forall m :: m in Messages(done) <==> m in Messages(inbox))
            && (DistinctSeqs(Messages(inbox)) ==> AscendingPerSender(Messages(done)))
  {
    var done := Grouped(SenderOf, SeqNoOf, inbox, order);
    GroupingPartitions(SenderOf, SeqNoOf, inbox, order);
    SameObjectsSameMessages(inbox, done);
    if DistinctSeqs(Messages(inbox)) {
      var ns := Messages(done);
      forall i, j | 0 <= i < j < |ns| && ns[i].sender == ns[j].sender ensures ns[i].env.seqNo < ns[j].env.seqNo {
        GroupedAscending(SenderOf, SeqNoOf, inbox, order, i, j);
        assert done[i] in inbox && done[j] in inbox && ns[i].id != ns[j].id;
        DistinctNumbers(inbox, done[i], done[j]);
      }
    }
  }

  lemma DistinctNumbers(inbox: seq<InboxMessage>, x: InboxMessage, y: InboxMessage)
    requires DistinctSeqs(Messages(inbox)) && x in inbox && y in inbox
    requires x.msg.sender == y.msg.sender && x.msg.id != y.msg.id
    ensures x.msg.env.seqNo != y.msg.env.seqNo
  {
    var ms := Messages(inbox);
    var k :| 0 <= k < |inbox| && inbox[k] == x;
    var l :| 0 <= l < |inbox| && inbox[l] == y;
    assert ms[k] == x.msg && ms[l] == y.msg;
  }

  lemma PassSnoc(who: Identity, dir: Directory, c: Client, done: seq<InboxMessage>, m: InboxMessage)
    ensures Pass(who, dir, c, Messages(done + [m])) == ShowOne(who, dir, Pass(who, dir, c, Messages(done)), m.msg)
  {
    hide ShowOne;
    assert Messages(done + [m])[..|done|] == Messages(done);
  }

  lemma DistinctObjects(inbox: seq<InboxMessage>, x: InboxMessage, m: InboxMessage)
    requires DistinctIds(Messages(inbox)) && x in inbox && m in inbox && x != m
    ensures x.msg.id != m.msg.id
  {
    var ms := Messages(inbox);
    var i :| 0 <= i < |inbox| && inbox[i] == x;
    var j :| 0 <= j < |inbox| && inbox[j] == m;
    assert ms[i].id != ms[j].id;
  }

  /** The results on passes, carried over from the visiting order to the inbox as given. */
  lemma {:induction false} PassOutcome(who: Identity, dir: Directory, c: Client, inbox: seq<InboxMessage>,
                                       done: seq<InboxMessage>, d: Client)
    requires c.texts == map[] && c.warned == {} && d == Pass(who, dir, c, Messages(done))
    requires DistinctIds(Messages(done)) && forall m :: m in Messages(done) <==> m in Messages(inbox)
    requires DistinctSeqs(Messages(inbox)) ==> AscendingPerSender(Messages(done))
    ensures Ends(who, dir, Settled(who, dir, c, Messages(done)), Messages(inbox), d)
  {
    var ns, ms := Messages(done), Messages(inbox);
    PassIsFetchesThenVerdicts(who, dir, c, ns);
    if AscendingPerSender(ns) {
      AscendingPassAcceptsAllNew(who, dir, c, ns);
    }
    hide Judge, Pass, IsMaximum, Messages, Passes, Changed, PinAll, DistinctIds, DistinctSeqs, AscendingPerSender;
    SameMembersEnd(who, dir, Settled(who, dir, c, ns), ns, ms, d);
  }

  /** A pass over the messages has ended in d, as judging them by c says. */
  ghost predicate Ends(who: Identity, dir: Directory, c: Client, ms: seq<Message>, d: Client)
  {
    && (forall m :: m in ms ==> Shows(who, dir, c, d.texts, m))
    && CacheOf(who, dir, c, ms, d.cache)
    && CountersOf(who, dir, c, ms, d.file)
    && (DistinctSeqs(ms) ==> WarnedOf(who, dir, c, ms, d.warned))
  }

  ghost predicate WarnedOf(who: Identity, dir: Directory, c: Client, ms: seq<Message>, warned: set<string>)
  {
    forall m :: m in ms ==>
      (m.id in warned <==> m.id in c.warned || (Passes(who, dir, c, c.file, m) && Changed(dir, c, m)))
  }

  lemma AlikeWarned(who: Identity, dir: Directory, c: Client, c': Client, ms: seq<Message>, warned: set<string>)
    requires JudgedAlike(who, dir, c, c', ms) && WarnedOf(who, dir, c, ms, warned)
    ensures WarnedOf(who, dir, c', ms, warned)
  {
    hide Judge, Changed, IsReplay;
    assert forall m :: m in ms ==> AlikeOn(who, dir, c, c', m);
  }

  lemma {:induction false} SameMembersEnd(who: Identity, dir: Directory, c: Client, ns: seq<Message>,
                                          ms: seq<Message>, d: Client)
    requires Reaches(who, dir, c, ns, d) && forall m :: m in ns <==> m in ms
    requires DistinctSeqs(ms) ==> AcceptsAllNew(who, dir, c, ns, d)
    ensures Ends(who, dir, c, ms, d)
  {
    hide Judge, IsMaximum, Passes, Changed, DistinctSeqs;
    forall s ensures OpenedSeqs(who, dir, c, ms, s) == OpenedSeqs(who, dir, c, ns, s) {
    }
    forall s ensures IsMaximum(LastRecv(c.file, s), OpenedSeqs(who, dir, c, ms, s), LastRecv(d.file, s)) {
      assert IsMaximum(LastRecv(c.file, s), OpenedSeqs(who, dir, c, ns, s), LastRecv(d.file, s));
    }
  }

  lemma {:induction false} AllEnds(who: Identity, dir: Directory, c: Client, inbox: seq<InboxMessage>,
                                   done: seq<InboxMessage>, d: Client)
    requires c.texts == map[] && c.warned == {} && d == Pass(who, dir, c, Messages(done))
    requires DistinctIds(Messages(done)) && forall m :: m in Messages(done) <==> m in Messages(inbox)
    requires DistinctSeqs(Messages(inbox)) ==> AscendingPerSender(Messages(done))
    ensures Ends(who, dir, Settled(who, dir, c, Messages(done)), Messages(inbox), d)
    ensures Steady(who, dir, c, Messages(inbox)) ==> Ends(who, dir, c, Messages(inbox), d)
    ensures d.file == PinAll(who, dir, c, Messages(done)).(seqRecv := d.file.seqRecv)
  {
    PassOutcome(who, dir, c, inbox, done, d);
    PassIsFetchesThenVerdicts(who, dir, c, Messages(done));
    hide Pass, Messages, Steady, Ends, TextsOf, CacheOf, CountersOf;
    if Steady(who, dir, c, Messages(inbox)) {
      SteadyEnds(who, dir, c, Messages(inbox), Messages(done), d);
    }
  }

  /** With steady answers the client that begins the pass already judges as the settled one does. */
  lemma {:induction false} SteadyEnds(who: Identity, dir: Directory, c: Client, ms: seq<Message>, ns: seq<Message>,
                                      d: Client)
    requires Steady(who, dir, c, ms) && Ends(who, dir, Settled(who, dir, c, ns), ms, d)
    requires forall m :: m in ns <==> m in ms
    ensures Ends(who, dir, c, ms, d)
  {
    hide Judge, Changed, Steady, Settled, PinAll, TextsOf, CacheOf, CountersOf, WarnedOf, AlikeOn, DistinctSeqs;
    SteadyReordered(who, dir, c, ms, ns);
    SteadyVerdicts(who, dir, c, ns);
    var c1 := Settled(who, dir, c, ns);
    assert JudgedAlike(who, dir, c1, c, ms);
    EndsShow(who, dir, c1, c, ms, d);
    AlikeReaches(who, dir, c1, c, ms, d);
    if DistinctSeqs(ms) {
      AlikeWarned(who, dir, c1, c, ms, d.warned);
    }
  }

  lemma EndsShow(who: Identity, dir: Directory, c: Client, c': Client, ms: seq<Message>, d: Client)
    requires JudgedAlike(who, dir, c, c', ms) && forall m :: m in ms ==> Shows(who, dir, c, d.texts, m)
    ensures forall m :: m in ms ==> Shows(who, dir, c', d.texts, m)
  {
    hide Judge, Changed;
    forall m | m in ms ensures Shows(who, dir, c', d.texts, m) {
      assert Shows(who, dir, c, d.texts, m) && AlikeOn(who, dir, c, c', m);
    }
  }

  /** What the inbox objects carried before a pass: text and key warning. */
  type Carried = map<InboxMessage, (Option<string>, bool)>

  /** The objects carry what they carried before, overlaid with the labels and warnings of c. */
  ghost predicate Carries(inbox: seq<InboxMessage>, before: Carried, c: Client)
    reads inbox
  {
    forall m :: m in inbox ==>
      && m in before
      && m.plaintext == LabelledText(c.texts, m.msg.id, before[m].0)
      && m.keyWarning == (before[m].1 || m.msg.id in c.warned)
  }

  ghost function Carrying(inbox: seq<InboxMessage>): Carried
    reads inbox
  {
    map m | m in inbox :: (m.plaintext, m.keyWarning)
  }

  lemma CarriesItself(inbox: seq<InboxMessage>)
    ensures forall c: Client :: c.texts == map[] && c.warned == {} ==> Carries(inbox, Carrying(inbox), c)
  {
  }

  function TextAfter(v: Verdict, before: Option<string>): Option<string>
  {
    if v.Blank? then before else Some(v.text)
  }

  /** The text on a message object once the labels `texts` have been put on. */
  function LabelledText(texts: map<string, string>, id: string, before: Option<string>): Option<string>
  {
    if id in texts then Some(texts[id]) else before
  }

  class MainFrame {
    const svc: MessageService.MessageService
    const available: bool
    var cache: map<string, string>

    constructor (svc: MessageService.MessageService, available: bool, cache: map<string, string>)
      ensures this.svc == svc && this.available == available && this.cache == cache
    {
      this.svc, this.available, this.cache := svc, available, cache;
    }

    ghost predicate Valid()
      reads this, svc.keystore
    {
      svc.Valid()
    }

    ghost function Who(): Identity
      reads svc.keystore
    {
      Identity(svc.keystore.p, svc.userId, svc.keystore.keys, available)
    }

    /** The state a pass starts from. */
    ghost function Start(): Client
      requires Valid()
      reads this, svc.keystore
    {
      Client(svc.keystore.file.value, cache, map[], {}, [])
    }

    /** The try block for one message, given its sender's keys. */
    method ReceiveOrReopen(m: InboxMessage, pinned: PeerKeys, changed: bool, ghost c: Client)
      returns (added: bool, ghost d: Client)
      requires Valid() && c.file == svc.keystore.file.value && c.cache == cache
      requires m.msg.id in c.warned ==> m.keyWarning
      modifies this`cache, svc.keystore`file, m
      ensures Valid() && d.file == svc.keystore.file.value && d.cache == cache
      ensures d == Attempt(Who(), c, m.msg, pinned, changed)
      ensures m.plaintext.Some? && d.texts == c.texts[m.msg.id := m.plaintext.value]
      ensures m.keyWarning == (old(m.keyWarning) || m.msg.id in d.warned)
      ensures c.warned <= d.warned <= c.warned + {m.msg.id}
      ensures d.cache.Keys == if added then c.cache.Keys + {m.msg.id} else c.cache.Keys
    {
      GateIsAFilter(svc.keystore.p, c.file, c.file, svc.keystore.keys, svc.userId, m.msg.sender, m.msg.env, pinned);
      hide MessageService.Receive;
      d := Attempt(Who(), c, m.msg, pinned, changed);
      var gated := svc.ReceiveMessage(m.msg.sender, m.msg.env, pinned, true);
      match gated
      case Ok(text) =>
        if changed {
          m.keyWarning := true;
        }
        m.plaintext := Some(text);
        cache := cache[m.msg.id := text];
        added := true;
      case Err(Refused(BadSignature)) =>
        m.plaintext := Some(UNVERIFIED);
        added := false;
      case Err(Refused(Replay)) =>
        var again := svc.ReceiveMessage(m.msg.sender, m.msg.env, pinned, false);
        if again.Ok? {
          m.plaintext := Some(again.value);
          cache := cache[m.msg.id := again.value];
          added := true;
        } else {
          m.plaintext := Some(CANNOT_DECRYPT);
          added := false;
        }
      case Err(_) =>
        m.plaintext := Some(CANNOT_DECRYPT);
        added := false;
    }

    /** One turn of the inner loop. */
    method DecryptOne(m: InboxMessage, dir: Directory, ghost c: Client) returns (added: bool, ghost d: Client)
      requires Valid() && c.file == svc.keystore.file.value && c.cache == cache
      requires m.msg.id in c.warned ==> m.keyWarning
      modifies this`cache, svc.keystore`file, m
      ensures Valid() && d.file == svc.keystore.file.value && d.cache == cache
      ensures d == ShowOne(Who(), dir, c, m.msg)
      ensures added <==> m.msg.id !in c.cache && m.msg.id in d.cache
      ensures d.cache.Keys == if added then c.cache.Keys + {m.msg.id} else c.cache.Keys
      ensures || (d.texts == c.texts && m.plaintext == old(m.plaintext))
              || (m.plaintext.Some? && d.texts == c.texts[m.msg.id := m.plaintext.value])
      ensures m.keyWarning == (old(m.keyWarning) || m.msg.id in d.warned)
      ensures c.warned <= d.warned <= c.warned + {m.msg.id}
    {
      hide MessageService.Receive, Attempt;
      added := false;
      d := ShowOne(Who(), dir, c, m.msg);
      if m.msg.id in cache {
        m.plaintext := Some(cache[m.msg.id]);
        return;
      }
      if m.msg.env.ciphertext == [] {
        return;
      }
      if !available {
        m.plaintext := Some(LOCKED);
        return;
      }
      var served := dir(m.msg);
      if served.None? {
        m.plaintext := Some(CANNOT_FETCH);
        return;
      }
      var pinned, changed := svc.keySvc.FetchAndPinKeys(m.msg.sender, served.value);
      if pinned.x25519.None? || pinned.ed25519.None? {
        m.plaintext := Some(KEY_MISSING);
        return;
      }
      ghost var e;
      GateIsAFilter(svc.keystore.p, c.file, svc.keystore.file.value, svc.keystore.keys, svc.userId, m.msg.sender,
                    m.msg.env,
                    pinned);
      added, e := ReceiveOrReopen(m, pinned, changed, c.(file := svc.keystore.file.value));
    }

    /** The pass begun at `start` has dealt with the messages `done` and stands at d. */
    ghost predicate Doing(who: Identity, inbox: seq<InboxMessage>, before: Carried, dir: Directory, start: Client,
                          d: Client, done: seq<InboxMessage>)
      reads this, svc.keystore, inbox
    {
      && Valid() && Who() == who && d.file == svc.keystore.file.value && d.cache == cache
      && Carries(inbox, before, d) && d == Pass(who, dir, start, Messages(done))
      && start.cache.Keys <= d.cache.Keys
    }

    lemma NothingDone(inbox: seq<InboxMessage>, dir: Directory)
      requires Valid()
      ensures Doing(Who(), inbox, Carrying(inbox), dir, Start(), Start(), [])
    {
      CarriesItself(inbox);
      assert Messages([]) == [];
    }

    /** One turn of the inner loop, as a step of the pass. */
    method VisitOne(m: InboxMessage, dir: Directory, ghost who: Identity, ghost inbox: seq<InboxMessage>,
                    ghost before: Carried, ghost start: Client, ghost c: Client, ghost done: seq<InboxMessage>)
      returns (added: bool, ghost d: Client)
      requires Doing(who, inbox, before, dir, start, c, done) && DistinctIds(Messages(inbox)) && m in inbox
      modifies this`cache, svc.keystore`file, inbox
      ensures Doing(who, inbox, before, dir, start, d, done + [m])
      ensures c.cache.Keys <= d.cache.Keys && (added <==> c.cache.Keys != d.cache.Keys)
    {
      hide ShowOne, Judge, Pass, DistinctIds, Messages;
      added, d := DecryptOne(m, dir, c);
      forall x | x in inbox
        ensures x.plaintext == LabelledText(d.texts, x.msg.id, before[x].0)
             && x.keyWarning == (before[x].1 || x.msg.id in d.warned)
      {
        if x != m {
          DistinctObjects(inbox, x, m);
        }
      }
      PassSnoc(who, dir, start, done, m);
    }

    /** The inner loop over one sender's messages; `before` is what the inbox objects carried at first. */
    method DecryptBucket(msgs: seq<InboxMessage>, dir: Directory, ghost who: Identity, ghost inbox: seq<InboxMessage>,
                         ghost before: Carried, ghost start: Client, ghost c: Client, ghost done: seq<InboxMessage>)
      returns (added: bool, ghost d: Client)
      requires Doing(who, inbox, before, dir, start, c, done)
      requires DistinctIds(Messages(inbox)) && forall m :: m in msgs ==> m in inbox
      modifies this`cache, svc.keystore`file, inbox
      ensures Doing(who, inbox, before, dir, start, d, done + msgs)
      ensures c.cache.Keys <= d.cache.Keys && (added <==> c.cache.Keys != d.cache.Keys)
    {
      hide Doing, Messages;
      added, d := false, c;
      assert done + msgs[..0] == done;
      for j := 0 to |msgs|
        invariant Doing(who, inbox, before, dir, start, d, done + msgs[..j])
        invariant c.cache.Keys <= d.cache.Keys && (added <==> c.cache.Keys != d.cache.Keys)
      {
        var m := msgs[j];
        assert m in msgs && m in inbox;
        var now;
        now, d := VisitOne(m, dir, who, inbox, before, start, d, done + msgs[..j]);
        added := added || now;
        assert done + msgs[..j] + [m] == done + msgs[..j + 1];
      }
      assert msgs[..|msgs|] == msgs;
    }

    /** The finished pass, its messages judged by `start`: every message shows what its own verdict says, the cache
        gained exactly the opened texts, each counter is the maximum, and with distinct numbers the key warning fell
        on exactly the newly accepted messages of a sender whose key changed. */
    ghost predicate Finished(who: Identity, inbox: seq<InboxMessage>, before: Carried, dir: Directory, start: Client)
      reads this, svc.keystore, inbox
    {
      && Valid() && Who() == who
      && (forall m :: m in inbox ==>
            m in before && m.plaintext == TextAfter(Judge(who, dir, start, m.msg), before[m].0))
      && CacheOf(who, dir, start, Messages(inbox), cache)
      && CountersOf(who, dir, start, Messages(inbox), svc.keystore.file.value)
      && (DistinctSeqs(Messages(inbox)) ==> WarnedAsNew(who, inbox, before, dir, start))
    }

    ghost predicate WarnedAsNew(who: Identity, inbox: seq<InboxMessage>, before: Carried, dir: Directory, start: Client)
      reads inbox
    {
      forall m :: m in inbox ==>
        && m in before
        && m.keyWarning == (before[m].1 || (Passes(who, dir, start, start.file, m.msg) && Changed(dir, start, m.msg)))
    }

    lemma DoingFinishes(who: Identity, inbox: seq<InboxMessage>, before: Carried, dir: Directory, start: Client,
                        d: Client, done: seq<InboxMessage>, judge: Client)
      requires start.warned == {} && judge.warned == {} && Doing(who, inbox, before, dir, start, d, done)
      requires Ends(who, dir, judge, Messages(inbox), d)
      ensures Finished(who, inbox, before, dir, judge)
    {
      hide Pass, Judge, CacheOf, CountersOf, Passes, Changed, DistinctIds, DistinctSeqs;
      forall m | m in inbox ensures m.msg in Messages(inbox) {
        var i :| 0 <= i < |inbox| && inbox[i] == m;
        assert Messages(inbox)[i] == m.msg;
      }
      forall m | m in inbox ensures m.plaintext == TextAfter(Judge(who, dir, judge, m.msg), before[m].0) {
        assert Shows(who, dir, judge, d.texts, m.msg);
      }
    }

    /** `_decrypt_inbox`, saving the cache when the pass added to it. Whatever the directory answers, it is
        the pass in its visiting order, and ends as judging each message by the keys that are then pinned says; where
        the answers are steady, as judging it by the keys pinned at the start says. */
    method DecryptInbox(inbox: seq<InboxMessage>, dir: Directory, nonce: Bytes)
      returns (ghost d: Client, ghost done: seq<InboxMessage>)
      requires Valid() && DistinctIds(Messages(inbox))
      modifies this`cache, svc.keystore`file, svc.keystore`cacheFile, inbox
      ensures Doing(old(Who()), inbox, old(Carrying(inbox)), dir, old(Start()), d, done)
      ensures multiset(done) == multiset(inbox)
      ensures DistinctSeqs(Messages(inbox)) ==> AscendingPerSender(Messages(done))
      ensures var settled := Settled(old(Who()), dir, old(Start()), Messages(done));
              && Finished(old(Who()), inbox, old(Carrying(inbox)), dir, settled)
              && svc.keystore.file.value == settled.file.(seqRecv := svc.keystore.file.value.seqRecv)
      ensures Steady(old(Who()), dir, old(Start()), Messages(inbox)) ==>
                Finished(old(Who()), inbox, old(Carrying(inbox)), dir, old(Start()))
      ensures svc.keystore.cacheFile
              == if cache.Keys == old(cache).Keys then old(svc.keystore.cacheFile)
                 else SaveCache(svc.keystore.p, old(svc.keystore.State()), cache, nonce).cacheFile
    {
      hide Pass, Carries, DistinctIds, DistinctSeqs, AscendingPerSender, Messages, Finished, Carrying, Steady;
      ghost var who, start, before := Who(), Start(), Carrying(inbox);
      NothingDone(inbox, dir);
      var added;
      added, d, done := VisitBuckets(inbox, dir, who, start, before);
      assert svc.keystore.cacheFile == old(svc.keystore.cacheFile);
      assert d.cache == cache;
      if added {
        svc.keystore.SaveMessageCache(cache, nonce);
      }
      AllEnds(who, dir, start, inbox, done, d);
      var settled := Settled(who, dir, start, Messages(done));
      DoingFinishes(who, inbox, before, dir, start, d, done, settled);
      if Steady(who, dir, start, Messages(inbox)) {
        DoingFinishes(who, inbox, before, dir, start, d, done, start);
      }
    }

    /** Both loops: every bucket in turn, each sorted by sequence number. */
    method VisitBuckets(inbox: seq<InboxMessage>, dir: Directory, ghost who: Identity, ghost start: Client,
                        ghost before: Carried)
      returns (added: bool, ghost d: Client, ghost done: seq<InboxMessage>)
      requires DistinctIds(Messages(inbox)) && Doing(who, inbox, before, dir, start, start, [])
      modifies this`cache, svc.keystore`file, inbox
      ensures Doing(who, inbox, before, dir, start, d, done)
      ensures added <==> start.cache.Keys != d.cache.Keys
      ensures multiset(done) == multiset(inbox)
      ensures DistinctIds(Messages(done)) && forall m :: m in Messages(done) <==> m in Messages(inbox)
      ensures DistinctSeqs(Messages(inbox)) ==> AscendingPerSender(Messages(done))
    {
      hide Doing, Pass, Sort, Bucket, Grouped, DistinctIds, DistinctSeqs, AscendingPerSender, Messages, NoRepeats;
      added, d, done := false, start, [];
      var order, bySender := GroupBy(SenderOf, inbox);
      GroupedNone(SenderOf, SeqNoOf, inbox);
      assert order[..0] == [];
      for i := 0 to |order|
        invariant done == Grouped(SenderOf, SeqNoOf, inbox, order[..i])
        invariant Doing(who, inbox, before, dir, start, d, done)
        invariant start.cache.Keys <= d.cache.Keys && (added <==> start.cache.Keys != d.cache.Keys)
      {
        var msgs := Sort(SeqNoOf, bySender[order[i]]);
        SortedBucketWithin(SenderOf, SeqNoOf, inbox, order[i]);
        GroupedSnoc(SenderOf, SeqNoOf, inbox, order, i);
        var now;
        now, d := DecryptBucket(msgs, dir, who, inbox, before, start, d, done);
        added, done := added || now, done + msgs;
      }
      assert order[..|order|] == order;
      VisitingOrder(inbox, order);
    }
  }
}
