// The directory and the clients that pin from it: publishKey transactions
// interleaved with first contacts and with the two requests of `reconcile`.
module Reconciliation {
  import opened Wrappers
  import opened Encoding
  import opened KeyDirectory
  import KeyService

  /** One client's pin for this user and key type, the key answers it has received and may yet act on, and the
      check it has under way. */
  datatype Client = Client(pin: Option<Bytes>, answers: seq<Option<Bytes>>, check: Option<Check>)

  /** A check after its first request: the tables that request saw, whether there was a pin by then, and the pin as
      read since, when it has been read and differed from the key. */
  datatype Check = Check(seen: Tables, hadPin: bool, pin: Option<Bytes>)

  /** A finished check: `at` are the tables when it finished, which the history was read from if it was read. */
  datatype Verdict = Verdict(seen: Tables, hadPin: bool, pin: Option<Bytes>, at: Tables, historyRead: bool,
                             result: bool)

  datatype World = World(db: Db, clients: map<nat, Client>, verdicts: seq<Verdict>)

  datatype Event =
    | Directory(action: KeyDirectory.Action)
    | StartFetch(client: nat)                            // GET /api/keys/:userId, for fetch_and_pin
    | FinishFetch(client: nat, answer: nat)              // pin what that request answered, if nothing is pinned
    | StartReconcile(client: nat)                        // GET /api/keys/:userId, for reconcile
    | ReadPin(client: nat)                               // and the comparison with what it answered
    | FinishReconcile(client: nat, historyRead: bool)    // GET .../history, or its failure

  function CurrentKey(t: Tables): Option<Bytes>
  {
    match t.current case None => None case Some(row) => Some(row.key)
  }

  function HistoryKeys(t: Tables): (r: seq<Bytes>)
    ensures |r| == |t.history| && forall i :: 0 <= i < |r| ==> r[i] == t.history[i].key
  {
    seq(|t.history|, i requires 0 <= i < |t.history| => t.history[i].key)
  }

  predicate Possible(w: World, e: Event)
  {
    match e
    case Directory(a) => Enabled(w.db, a)
    case StartFetch(c) => c in w.clients
    case FinishFetch(c, i) => c in w.clients && i < |w.clients[c].answers|
    case StartReconcile(c) => c in w.clients
    case ReadPin(c) => c in w.clients && w.clients[c].check.Some? && w.clients[c].check.value.pin.None?
    case FinishReconcile(c, _) => c in w.clients && w.clients[c].check.Some? && w.clients[c].check.value.pin.Some?
  }

  function With(w: World, c: nat, k: Client): World
  {
    w.(clients := w.clients[c := k])
  }

  function Next(w: World, e: Event): World
    requires Possible(w, e)
  {
    match e
    case Directory(a) => w.(db := Step(w.db, a))
    case StartFetch(c) =>
      With(w, c, w.clients[c].(answers := w.clients[c].answers + [CurrentKey(w.db.tables)]))
    case FinishFetch(c, i) =>
      With(w, c, w.clients[c].(pin := KeyService.OrElse(w.clients[c].pin, w.clients[c].answers[i])))
    case StartReconcile(c) =>
      With(w, c, w.clients[c].(check := Some(Check(w.db.tables, w.clients[c].pin.Some?, None))))
    case ReadPin(c) =>
      var k, check := w.clients[c], w.clients[c].check.value;
      if KeyService.Reconcile(k.pin, CurrentKey(check.seen), None)
      then Conclude(With(w, c, k.(check := None)), check.(pin := k.pin), false, true)
      else With(w, c, k.(check := Some(check.(pin := k.pin))))
    case FinishReconcile(c, historyRead) =>
      var k, check := w.clients[c], w.clients[c].check.value;
      var history := if historyRead then Some(HistoryKeys(w.db.tables)) else None;
      Conclude(With(w, c, k.(check := None)), check, historyRead,
               KeyService.Reconcile(check.pin, CurrentKey(check.seen), history))
  }

  function Conclude(w: World, check: Check, historyRead: bool, result: bool): World
  {
    w.(verdicts := w.verdicts + [Verdict(check.seen, check.hadPin, check.pin, w.db.tables, historyRead, result)])
  }

  /** Clients begin without pins or checks; the directory begins empty. */
  ghost predicate Begins(w: World)
  {
    && w.db == KeyDirectory.After([]) && w.verdicts == []
    && forall c :: c in w.clients ==> w.clients[c] == Client(None, [], None)
  }

  ghost predicate ValidHistory(w0: World, events: seq<Event>)
    decreases |events|, 0
  {
    events == [] ||
    (ValidHistory(w0, events[..|events| - 1]) && Possible(Later(w0, events[..|events| - 1]), events[|events| - 1]))
  }

  ghost function Later(w0: World, events: seq<Event>): World
    requires ValidHistory(w0, events)
    decreases |events|, 1
  {
    if events == [] then w0 else Next(Later(w0, events[..|events| - 1]), events[|events| - 1])
  }

  // ----- what the directory has served -----

  /** Is or was the served key, as far as the tables can tell. */
  ghost predicate Served(t: Tables, key: Bytes)
  {
    CurrentKey(t) == Some(key) || key in HistoryKeys(t)
  }

  /** The history is append-only, and a key leaves the current row only into the history. */
  lemma PublishKeepsServed(t: Tables, r: Request, key: Bytes)
    ensures t.history <= Publish(t, r).0.history
    ensures key in HistoryKeys(t) ==> key in HistoryKeys(Publish(t, r).0)
    ensures Served(t, key) ==> Served(Publish(t, r).0, key)
    ensures Served(Publish(t, r).0, key) ==> Served(t, key) || CurrentKey(Publish(t, r).0) == Some(key)
  {
    if t.current.Some? && t.current.value.key != r.key && r.acknowledge {
      assert HistoryKeys(Publish(t, r).0) == HistoryKeys(t) + [t.current.value.key];
    }
  }

  lemma StepKeepsServed(db: Db, a: KeyDirectory.Action, key: Bytes)
    requires Inv(db) && Enabled(db, a)
    ensures db.tables.history <= Step(db, a).tables.history
    ensures key in HistoryKeys(db.tables) ==> key in HistoryKeys(Step(db, a).tables)
    ensures Served(db.tables, key) ==> Served(Step(db, a).tables, key)
    ensures Served(Step(db, a).tables, key) ==> Served(db.tables, key) || CurrentKey(Step(db, a).tables) == Some(key)
  {
    hide Inv, Publish, HistoryKeys, CurrentKey;
    if a.CommitNow? {
      CommitIsPublish(db, a.id, a.heard);
      PublishKeepsServed(db.tables, db.txns[a.id].request, key);
    }
  }

  ghost predicate CurrentAfter(acts: seq<KeyDirectory.Action>, key: Bytes)
  {
    ValidRun(acts) && CurrentKey(KeyDirectory.After(acts).tables) == Some(key)
  }

  /** The tables never forget: a key is in them exactly when it was the served key at some moment of the run. */
  lemma {:induction false} ServedMeansOnceCurrent(acts: seq<KeyDirectory.Action>, key: Bytes)
    requires ValidRun(acts)
    ensures forall i :: 0 <= i <= |acts| ==> ValidRun(acts[..i])
    ensures Served(KeyDirectory.After(acts).tables, key)
       <==> exists i :: 0 <= i <= |acts| && CurrentAfter(acts[..i], key)
  {
    hide Step, Inv, CurrentKey;
    assert acts[..|acts|] == acts;
    if acts == [] {
      NothingServed(key);
      assert KeyDirectory.After(acts).tables == EMPTY;
    } else {
      var init := acts[..|acts| - 1];
      ServedMeansOnceCurrent(init, key);
      RunKeepsInv(init);
      StepKeepsServed(KeyDirectory.After(init), acts[|acts| - 1], key);
      assert forall i :: 0 <= i <= |init| ==> init[..i] == acts[..i];
      hide Served;
      if Served(KeyDirectory.After(acts).tables, key) {
        if Served(KeyDirectory.After(init).tables, key) {
          var i :| 0 <= i <= |init| && CurrentAfter(init[..i], key);
          assert init[..i] == acts[..i];
        }
      }
      if i :| 0 <= i <= |acts| && CurrentAfter(acts[..i], key) {
        if i < |acts| {
          assert init[..i] == acts[..i];
        } else {
          CurrentIsServed(KeyDirectory.After(acts).tables, key);
        }
      }
    }
  }

  lemma NothingServed(key: Bytes)
    ensures CurrentKey(EMPTY) != Some(key) && !Served(EMPTY, key)
  {
  }

  lemma CurrentIsServed(t: Tables, key: Bytes)
    requires CurrentKey(t) == Some(key)
    ensures Served(t, key)
  {
  }

  /** A check whose first request saw the tables t and whose second saw u, with publications in between,
      for a pin k: true when k was served by the first request, false when it was not served by the second,
      and otherwise true exactly when k had come and gone in between. */
  lemma ReconcileExactly(t: Tables, u: Tables, k: Bytes)
    requires forall key :: key in HistoryKeys(t) ==> key in HistoryKeys(u)
    ensures var verdict := KeyService.Reconcile(Some(k), CurrentKey(t), Some(HistoryKeys(u)));
            && (Served(t, k) ==> verdict)
            && (!Served(t, k) && !Served(u, k) ==> !verdict)
            && (!Served(t, k) ==> (verdict <==> k in HistoryKeys(u)))
  {
  }

  // ----- every run of directory and clients -----

  /** What u can tell was served, it can tell at least as much of as t. */
  ghost predicate Remembers(t: Tables, u: Tables)
  {
    forall key :: (Served(t, key) ==> Served(u, key)) && (key in HistoryKeys(t) ==> key in HistoryKeys(u))
  }

  ghost predicate OnceServed(t: Tables, key: Option<Bytes>)
  {
    key.Some? ==> Served(t, key.value)
  }

  ghost predicate CheckOk(t: Tables, k: Client, check: Check)
  {
    && Remembers(check.seen, t)
    && (check.hadPin ==> k.pin.Some? && Served(check.seen, k.pin.value))
    && (check.pin.Some? ==> check.pin == k.pin && check.pin != CurrentKey(check.seen))
  }

  ghost predicate ClientOk(t: Tables, k: Client)
  {
    && OnceServed(t, k.pin)
    && (forall a :: a in k.answers ==> OnceServed(t, a))
    && (k.check.Some? ==> CheckOk(t, k, k.check.value))
  }

  /** The check reported a substitution exactly when the pin it compared was first served after the check had read
      the key, and was still only the current key, not yet in the history, when the history was read; or, with the
      history unreadable, whenever the pin differs from the key. */
  ghost predicate VerdictOk(v: Verdict)
  {
    && (v.hadPin && v.historyRead ==> v.result)
    && (v.historyRead ==>
          (!v.result <==> v.pin.Some? && !Served(v.seen, v.pin.value) && CurrentKey(v.at) == v.pin
                          && v.pin.value !in HistoryKeys(v.at)))
    && (!v.historyRead ==> (!v.result <==> v.pin.Some? && v.pin != CurrentKey(v.seen)))
  }

  ghost predicate WorldOk(w: World)
  {
    && Inv(w.db)
    && (forall c :: c in w.clients ==> ClientOk(w.db.tables, w.clients[c]))
    && (forall v :: v in w.verdicts ==> VerdictOk(v))
  }

  lemma StepRemembers(db: Db, a: KeyDirectory.Action)
    requires Inv(db) && Enabled(db, a)
    ensures Remembers(db.tables, Step(db, a).tables)
  {
    hide Step, Inv, HistoryKeys, Served;
    forall key ensures (Served(db.tables, key) ==> Served(Step(db, a).tables, key))
                    && (key in HistoryKeys(db.tables) ==> key in HistoryKeys(Step(db, a).tables)) {
      StepKeepsServed(db, a, key);
    }
  }

  lemma ClientStaysOk(t: Tables, u: Tables, k: Client)
    requires Remembers(t, u) && ClientOk(t, k)
    ensures ClientOk(u, k)
  {
    hide HistoryKeys, Served, CurrentKey;
  }

  lemma RemembersItself(t: Tables)
    ensures Remembers(t, t)
  {
  }

  lemma CurrentOnceServed(t: Tables)
    ensures OnceServed(t, CurrentKey(t))
  {
  }

  lemma ClientMoves(w: World, e: Event, c: nat)
    requires Inv(w.db) && Possible(w, e) && !e.Directory? && c == e.client && ClientOk(w.db.tables, w.clients[c])
    ensures ClientOk(Next(w, e).db.tables, Next(w, e).clients[c])
  {
    hide HistoryKeys, Served, CurrentKey;
    RemembersItself(w.db.tables);
    CurrentOnceServed(w.db.tables);
  }

  lemma FinishedOk(v: Verdict)
    requires Remembers(v.seen, v.at) && OnceServed(v.at, v.pin)
    requires v.hadPin ==> v.pin.Some? && Served(v.seen, v.pin.value)
    requires v.result == KeyService.Reconcile(v.pin, CurrentKey(v.seen),
                                              if v.historyRead then Some(HistoryKeys(v.at)) else None)
    ensures VerdictOk(v)
  {
    hide HistoryKeys, CurrentKey;
  }

  lemma NewVerdictOk(w: World, e: Event, c: nat)
    requires Possible(w, e) && (e.ReadPin? || e.FinishReconcile?)
    requires c == e.client && ClientOk(w.db.tables, w.clients[c])
    requires |Next(w, e).verdicts| > |w.verdicts|
    ensures VerdictOk(Next(w, e).verdicts[|w.verdicts|])
  {
    hide Served, HistoryKeys, CurrentKey, Remembers, VerdictOk;
    FinishedOk(Next(w, e).verdicts[|w.verdicts|]);
  }

  lemma NextKeepsOk(w: World, e: Event)
    requires WorldOk(w) && Possible(w, e)
    ensures WorldOk(Next(w, e))
  {
    hide Step, Inv, HistoryKeys, ClientOk, VerdictOk;
    var w' := Next(w, e);
    if e.Directory? {
      StepKeepsInv(w.db, e.action);
      StepRemembers(w.db, e.action);
      forall c | c in w'.clients ensures ClientOk(w'.db.tables, w'.clients[c]) {
        ClientStaysOk(w.db.tables, w'.db.tables, w.clients[c]);
      }
    } else {
      ClientMoves(w, e, e.client);
      if |w'.verdicts| > |w.verdicts| {
        NewVerdictOk(w, e, e.client);
      }
    }
  }

  lemma {:induction false} HistoryKeepsOk(w0: World, events: seq<Event>)
    requires Begins(w0) && ValidHistory(w0, events)
    ensures WorldOk(Later(w0, events))
  {
    if events == [] {
      KeyDirectory.RunKeepsInv([]);
    } else {
      hide WorldOk, Next, Begins;
      HistoryKeepsOk(w0, events[..|events| - 1]);
      NextKeepsOk(Later(w0, events[..|events| - 1]), events[|events| - 1]);
    }
  }

  /** While keys change only through publishKey, no client that held a pin when its check began, and could
      read the history, is ever told that the key was substituted: whatever rotations commit before, during
      or between its requests. */
  lemma {:induction false} HonestRotationsNeverAlarm(w0: World, events: seq<Event>, v: Verdict)
    requires Begins(w0) && ValidHistory(w0, events) && v in Later(w0, events).verdicts
    ensures v.hadPin && v.historyRead ==> v.result
  {
    HistoryKeepsOk(w0, events);
    hide Begins, Inv;
  }

  /** And exactly when a check that could read the history does report one, in such a run: its client had no pin when
      it began, has pinned a key meanwhile that had never been served before the check's first request, and that key
      is current, and not in the history as well, at its second. One that could not read it reports every pin that
      differs from the key. */
  lemma {:induction false} FalseAlarmExactlyWhen(w0: World, events: seq<Event>, v: Verdict)
    requires Begins(w0) && ValidHistory(w0, events) && v in Later(w0, events).verdicts
    ensures v.historyRead ==>
              (!v.result <==> !v.hadPin && v.pin.Some? && !Served(v.seen, v.pin.value)
                              && CurrentKey(v.at) == v.pin && v.pin.value !in HistoryKeys(v.at))
    ensures !v.historyRead ==> (!v.result <==> v.pin.Some? && v.pin != CurrentKey(v.seen))
  {
    HistoryKeepsOk(w0, events);
    hide Begins, Inv;
  }

  // ----- and it happens -----

  lemma OneMore(w0: World, events: seq<Event>, e: Event)
    requires ValidHistory(w0, events) && Possible(Later(w0, events), e)
    ensures ValidHistory(w0, events + [e]) && Later(w0, events + [e]) == Next(Later(w0, events), e)
  {
    assert (events + [e])[..|events + [e]| - 1] == events;
  }

  /** One event of the directory, appended. */
  lemma OneAction(w0: World, events: seq<Event>, a: KeyDirectory.Action) returns (longer: seq<Event>)
    requires ValidHistory(w0, events) && Enabled(Later(w0, events).db, a)
    ensures ValidHistory(w0, longer)
    ensures Later(w0, longer) == Later(w0, events).(db := Step(Later(w0, events).db, a))
  {
    hide ValidHistory, Later, Step, Enabled;
    OneMore(w0, events, Directory(a));
    longer := events + [Directory(a)];
  }

  /** A first key published: four events of the directory. */
  lemma {:induction false} PublishFirst(w0: World, key: Bytes) returns (events: seq<Event>)
    requires Begins(w0)
    ensures ValidHistory(w0, events)
    ensures var w := Later(w0, events);
            && w.clients == w0.clients && w.db.tables == Tables(Some(KeyRow(key, 1)), []) && w.db.holder == None
            && w.db.txns.Keys == {1} && w.verdicts == []
  {
    hide ValidHistory, Later, Begins;
    NoEvents(w0);
    events := OneAction(w0, [], Begin(1, Request(key, true)));
    events := OneAction(w0, events, SelectForUpdate(1));
    events := OneAction(w0, events, InsertFirst(1));
    events := OneAction(w0, events, CommitNow(1, true));
  }

  lemma NoEvents(w0: World)
    requires Begins(w0)
    ensures ValidHistory(w0, []) && Later(w0, []) == w0 && w0.db == Db(EMPTY, None, map[], []) && w0.verdicts == []
  {
  }

  /** That key replaced by another. */
  lemma {:induction false} Rotate(w0: World, before: seq<Event>, k1: Bytes, k2: Bytes) returns (events: seq<Event>)
    requires ValidHistory(w0, before) && k1 != k2
    requires var db := Later(w0, before).db;
             db.tables == Tables(Some(KeyRow(k1, 1)), []) && db.holder == None && 2 !in db.txns
    ensures ValidHistory(w0, events)
    ensures var w := Later(w0, events);
            && w.db.tables == Tables(Some(KeyRow(k2, 2)), [KeyRow(k1, 1)])
            && w.clients == Later(w0, before).clients && w.verdicts == Later(w0, before).verdicts
  {
    hide ValidHistory, Later;
    events := OneAction(w0, before, Begin(2, Request(k2, true)));
    events := OneAction(w0, events, SelectForUpdate(2));
    events := OneAction(w0, events, InsertHistory(2));
    events := OneAction(w0, events, UpdateRow(2));
    events := OneAction(w0, events, CommitNow(2, true));
  }

  /** A client without a pin begins a check, a rotation commits, the client pins the new key, and the check it had
      begun reports that key as substituted. */
  lemma {:induction false} PinMadeDuringCheckAlarms(w0: World, c: nat, k1: Bytes, k2: Bytes)
    returns (events: seq<Event>)
    requires Begins(w0) && c in w0.clients && k1 != k2
    ensures ValidHistory(w0, events)
    ensures |Later(w0, events).verdicts| == 1
    ensures var v := Later(w0, events).verdicts[0]; v.historyRead && !v.result && v.pin == Some(k2)
  {
    hide ValidHistory, Later, Step, Enabled;
    events := PublishFirst(w0, k1);
    OneMore(w0, events, StartReconcile(c));
    events := Rotate(w0, events + [StartReconcile(c)], k1, k2);
    OneMore(w0, events, StartFetch(c));
    events := events + [StartFetch(c)];
    OneMore(w0, events, FinishFetch(c, 0));
    events := events + [FinishFetch(c, 0)];
    OneMore(w0, events, ReadPin(c));
    events := events + [ReadPin(c)];
    OneMore(w0, events, FinishReconcile(c, true));
    events := events + [FinishReconcile(c, true)];
  }
}
