// message-store/MessageStore.cpp: the stored messages grouped per sender.
module Conversations {
  import opened Grouping

  datatype Message = Message(id: string, senderId: string, recipientId: string, ciphertext: string, nonce: string,
                             senderPublicKey: string, createdAt: string)

  datatype Conversation = Conversation(peerId: string, messages: seq<Message>)

  // ----- std::string's operator< -----

  predicate Less(a: string, b: string)
  {
    b != "" && (a == "" || a[0] < b[0] || (a[0] == b[0] && Less(a[1..], b[1..])))
  }

  /** i is the first position where the two differ, and a is smaller there or ends there. */
  predicate SmallerAt(a: string, b: string, i: nat)
  {
    i < |b| && i <= |a| && a[..i] == b[..i] && (i == |a| || a[i] < b[i])
  }

  lemma {:induction false} FirstDifference(a: string, b: string) returns (i: nat)
    requires Less(a, b)
    ensures SmallerAt(a, b, i)
  {
    i := 0;
    if a != "" && a[0] == b[0] {
      i := FirstDifference(a[1..], b[1..]);
      assert a[..i + 1] == [a[0]] + a[1..][..i] && b[..i + 1] == [b[0]] + b[1..][..i];
      i := i + 1;
    }
  }

  lemma {:induction false} DifferenceDecides(a: string, b: string, i: nat)
    requires SmallerAt(a, b, i)
    ensures Less(a, b)
  {
    if i > 0 {
      assert a[..i][0] == b[..i][0];
      assert a[1..][..i - 1] == a[..i][1..] && b[1..][..i - 1] == b[..i][1..];
      DifferenceDecides(a[1..], b[1..], i - 1);
    }
  }

  /** Less is decided at the first position where the two differ, the end of a string coming before any character. */
  lemma {:induction false} LessByFirstDifference(a: string, b: string)
    ensures Less(a, b) <==>
              exists i: nat :: i < |b| && i <= |a| && a[..i] == b[..i] && (i == |a| || a[i] < b[i])
  {
    if Less(a, b) {
      var i := FirstDifference(a, b);
      assert a[..i] == b[..i];
    }
    if i: nat :| i < |b| && i <= |a| && a[..i] == b[..i] && (i == |a| || a[i] < b[i]) {
      DifferenceDecides(a, b, i);
    }
  }

  lemma {:induction false} LessIsTotal(a: string, b: string)
    ensures Less(a, b) || a == b || Less(b, a)
    ensures !(Less(a, b) && Less(b, a)) && !Less(a, a)
    decreases |a|
  {
    if a != "" {
      LessIsTotal(a[1..], a[1..]);
      if b != "" {
        LessIsTotal(a[1..], b[1..]);
        assert a == [a[0]] + a[1..] && b == [b[0]] + b[1..];
      }
    }
  }

  lemma {:induction false} LessIsTransitive(a: string, b: string, c: string)
    requires Less(a, b) && Less(b, c)
    ensures Less(a, c)
    decreases |a|
  {
    if a != "" && a[0] == b[0] == c[0] {
      LessIsTransitive(a[1..], b[1..], c[1..]);
    }
  }

  /** A set of strings has a smallest. */
  lemma Smallest(ks: set<string>) returns (k: string)
    requires ks != {}
    ensures k in ks && forall x :: x in ks && x != k ==> Less(k, x)
    decreases |ks|
  {
    k :| k in ks;
    if ks != {k} {
      var m := Smallest(ks - {k});
      LessIsTotal(k, m);
      var least := if Less(k, m) then k else m;
      forall x | x in ks && x != least ensures Less(least, x) {
        if least == k && x != m {
          LessIsTransitive(k, m, x);
        }
      }
      k := least;
    }
  }

  // ----- threads -----

  /** Never later before earlier. */
  ghost predicate Chronological(ms: seq<Message>)
  {
    forall i, j :: 0 <= i < j < |ms| ==> !Less(ms[j].createdAt, ms[i].createdAt)
  }

  /** A sort by createdAt. Like std::sort it promises nothing about messages of the same moment. */
  method SortThread(ms: seq<Message>) returns (sorted: seq<Message>)
    ensures Chronological(sorted) && multiset(sorted) == multiset(ms)
  {
    sorted := [];
    for i := 0 to |ms|
      invariant Chronological(sorted) && multiset(sorted) == multiset(ms[..i])
    {
      assert ms[..i + 1] == ms[..i] + [ms[i]];
      sorted := Place(sorted, ms[i]);
    }
    assert ms[..|ms|] == ms;
  }

  method Place(sorted: seq<Message>, m: Message) returns (placed: seq<Message>)
    requires Chronological(sorted)
    ensures Chronological(placed) && multiset(placed) == multiset(sorted) + multiset{m}
  {
    var j := |sorted|;
    while j > 0 && Less(m.createdAt, sorted[j - 1].createdAt)
      invariant 0 <= j <= |sorted|
      invariant forall k :: j <= k < |sorted| ==> Less(m.createdAt, sorted[k].createdAt)
    {
      j := j - 1;
    }
    PlacedWell(sorted, m, j);
    PlacedOnce(sorted, m, j);
    placed := sorted[..j] + [m] + sorted[j..];
  }

  lemma PlacedWell(sorted: seq<Message>, m: Message, j: nat)
    requires Chronological(sorted) && j <= |sorted|
    requires j > 0 ==> !Less(m.createdAt, sorted[j - 1].createdAt)
    requires forall k :: j <= k < |sorted| ==> Less(m.createdAt, sorted[k].createdAt)
    ensures Chronological(sorted[..j] + [m] + sorted[j..])
  {
    hide Less;
    forall i | 0 <= i < j ensures !Less(m.createdAt, sorted[i].createdAt) {
      if Less(m.createdAt, sorted[i].createdAt) {
        NotLater(m.createdAt, sorted[i].createdAt, sorted[j - 1].createdAt);
      }
    }
    forall k | j <= k < |sorted| ensures !Less(sorted[k].createdAt, m.createdAt) {
      LessIsTotal(m.createdAt, sorted[k].createdAt);
    }
  }

  lemma PlacedOnce(sorted: seq<Message>, m: Message, j: nat)
    requires j <= |sorted|
    ensures multiset(sorted[..j] + [m] + sorted[j..]) == multiset(sorted) + multiset{m}
  {
    assert sorted == sorted[..j] + sorted[j..];
  }

  lemma NotLater(a: string, b: string, c: string)
    requires Less(a, b) && !Less(c, b)
    ensures Less(a, c)
  {
    LessIsTotal(b, c);
    if Less(b, c) {
      LessIsTransitive(a, b, c);
    }
  }

  // ----- conversations -----

  function Sender(): Message -> string
  {
    (m: Message) => m.senderId
  }

  /** Everything in the conversations, one after another. */
  ghost function Contents(convs: seq<Conversation>): seq<Message>
  {
    if convs == [] then [] else Contents(convs[..|convs| - 1]) + convs[|convs| - 1].messages
  }

  ghost function Peers(convs: seq<Conversation>): (r: seq<string>)
    ensures |r| == |convs| && forall i :: 0 <= i < |r| ==> r[i] == convs[i].peerId
  {
    seq(|convs|, i requires 0 <= i < |convs| => convs[i].peerId)
  }

  ghost predicate Ascending(convs: seq<Conversation>)
  {
    forall i, j :: 0 <= i < j < |convs| ==> Less(convs[i].peerId, convs[j].peerId)
  }

  /** The thread of a peer is what that peer sent, in time order. */
  ghost predicate IsThread(stored: seq<Message>, c: Conversation)
  {
    Chronological(c.messages) && multiset(c.messages) == multiset(Bucket(Sender(), stored, c.peerId))
  }

  lemma PeersDiffer(convs: seq<Conversation>)
    requires Ascending(convs)
    ensures NoRepeats(Peers(convs))
  {
    hide Less;
    forall i, j | 0 <= i < j < |convs| ensures convs[i].peerId != convs[j].peerId {
      LessIsTotal(convs[i].peerId, convs[j].peerId);
    }
  }

  /** Threads of distinct peers hold the stored messages of those peers, each once. */
  lemma {:induction false} ThreadsHold(stored: seq<Message>, convs: seq<Conversation>)
    requires NoRepeats(Peers(convs)) && forall c :: c in convs ==> IsThread(stored, c)
    ensures multiset(Contents(convs)) == multiset(Keep(Sender(), stored, Peers(convs)))
  {
    hide Chronological, Keep, Bucket;
    if convs == [] {
      KeepNothing(Sender(), stored);
    } else {
      var init := convs[..|convs| - 1];
      assert Peers(convs)[..|convs| - 1] == Peers(init);
      ThreadsHold(stored, init);
      KeepSplits(Sender(), stored, Peers(convs));
      assert convs[|convs| - 1] in convs;
    }
  }

  /** When every sender has a thread, the threads partition the store. */
  lemma {:induction false} ThreadsPartition(stored: seq<Message>, convs: seq<Conversation>)
    requires Ascending(convs) && forall c :: c in convs ==> IsThread(stored, c)
    requires forall m :: m in stored ==> m.senderId in Peers(convs)
    ensures multiset(Contents(convs)) == multiset(stored)
    ensures forall m, i :: m in stored && 0 <= i < |convs| ==>
                             (m in convs[i].messages <==> convs[i].peerId == m.senderId)
  {
    PeersDiffer(convs);
    ThreadsHold(stored, convs);
    KeepAll(Sender(), stored, Peers(convs));
    forall m, i | m in stored && 0 <= i < |convs| ensures m in convs[i].messages <==> convs[i].peerId == m.senderId {
      assert IsThread(stored, convs[i]);
      assert m in convs[i].messages <==> m in multiset(convs[i].messages);
      BucketMembers(Sender(), stored, convs[i].peerId, m);
    }
  }

  class MessageStore {
    var messages: seq<Message>

    constructor ()
      ensures messages == []
    {
      messages := [];
    }

    method Add(m: Message)
      modifies this
      ensures messages == old(messages) + [m]
    {
      messages := messages + [m];
    }

    /** Each message is in exactly one conversation, its sender's; nothing is lost or made up; peers ascend
        strictly and each thread is in time order. */
    method GetConversations() returns (convs: seq<Conversation>)
      ensures Ascending(convs)
      ensures forall c :: c in convs ==> IsThread(messages, c) && c.messages != []
      ensures multiset(Contents(convs)) == multiset(messages)
      ensures forall m, i :: m in messages && 0 <= i < |convs| ==>
                               (m in convs[i].messages <==> convs[i].peerId == m.senderId)
    {
      var _, convMap := GroupBy(Sender(), messages);
      var left := convMap.Keys;
      convs := [];
      while left != {}
        invariant left <= convMap.Keys && Ascending(convs)
        invariant forall i, k :: 0 <= i < |convs| && k in left ==> Less(convs[i].peerId, k)
        invariant forall c :: c in convs ==> c.peerId in convMap && IsThread(messages, c) && c.messages != []
        invariant forall k :: k in convMap.Keys - left ==> k in Peers(convs)
      {
        ghost var first := Smallest(left);
        var k :| k in left && forall x :: x in left && x != k ==> Less(k, x);
        var thread := SortThread(convMap[k]);
        assert |multiset(thread)| == |multiset(convMap[k])|;
        ghost var before := convs;
        convs := convs + [Conversation(k, thread)];
        left := left - {k};
        PeersGrow(before, Conversation(k, thread));
      }
      ThreadsPartition(messages, convs);
    }
  }

  lemma PeersGrow(convs: seq<Conversation>, c: Conversation)
    ensures Peers(convs + [c]) == Peers(convs) + [c.peerId]
  {
  }
}
