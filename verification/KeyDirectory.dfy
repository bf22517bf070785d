// backend/src/repositories/KeyRepository.js: any interleaving of publishKey
// transactions on one (user, key type), against running them one at a time.
module KeyDirectory {
  import opened Wrappers
  import opened Encoding

  datatype KeyRow = KeyRow(key: Bytes, version: int)

  /** The public_keys row and the public_key_history rows of one (user, key type), as committed. */
  datatype Tables = Tables(current: Option<KeyRow>, history: seq<KeyRow>)

  datatype Request = Request(key: Bytes, acknowledge: bool)

  datatype Status =
    | Pinned(version: int)
    | Unchanged(version: int)
    | RotationRequired(version: int)
    | Rotated(version: int, previous: int)

  const EMPTY := Tables(None, [])

  /** The whole transaction run on its own. */
  function Publish(t: Tables, r: Request): (Tables, Status)
  {
    match t.current
    case None => (t.(current := Some(KeyRow(r.key, 1))), Pinned(1))
    case Some(row) =>
      if row.key == r.key then (t, Unchanged(row.version))
      else if !r.acknowledge then (t, RotationRequired(row.version))
      else (Tables(Some(KeyRow(r.key, row.version + 1)), t.history + [row]), Rotated(row.version + 1, row.version))
  }

  /** Where a transaction run on its own fails, if it does; AnswerLost is a commit that took effect unheard. */
  datatype Failure = Never | OnSelect | OnInsert | OnUpdate | OnCommit | AnswerLost

  /** publishKey with no other transaction about: its writes stand once it commits, heard or not, and are undone
      otherwise. None is the exception the caller gets. */
  class KeyRepository {
    var current: Option<KeyRow>
    var history: seq<KeyRow>

    constructor ()
      ensures State() == EMPTY
    {
      current, history := None, [];
    }

    function State(): Tables
      reads this
    {
      Tables(current, history)
    }

    method PublishKey(r: Request, fails: Failure) returns (status: Option<Status>)
      modifies this
      ensures status.Some? ==> (State(), status.value) == Publish(old(State()), r)
      ensures fails == Never ==> status.Some?
      ensures fails == AnswerLost ==> status.None? && State() == Publish(old(State()), r).0
      ensures status.None? ==>
                (State() != old(State()) <==>
                   fails == AnswerLost && (old(current).None? || (old(current).value.key != r.key && r.acknowledge)))
    {
      var before := State();
      status := None;
      if fails == OnSelect {
        return;
      }
      if current.None? {
        if fails != OnInsert {
          current, status := Some(KeyRow(r.key, 1)), Some(Pinned(1));
        }
      } else if current.value.key == r.key {
        status := Some(Unchanged(current.value.version));
      } else if !r.acknowledge {
        status := Some(RotationRequired(current.value.version));
      } else if fails != OnInsert {
        var row := current.value;
        history := history + [row];
        if fails != OnUpdate {
          current, status := Some(KeyRow(r.key, row.version + 1)), Some(Rotated(row.version + 1, row.version));
        }
      }
      if fails == AnswerLost {
        return None;
      }
      if status.None? || fails == OnCommit {
        current, history, status := before.current, before.history, None;
      }
    }
  }

  // ----- the transactions, await by await -----

  datatype Phase =
    | Begun
    | ReadNone                      // after SELECT ... FOR UPDATE found no row
    | ReadRow(row: KeyRow)          // after it found, and locked, this row
    | Inserted                      // after INSERT INTO public_keys
    | Archived(row: KeyRow)         // after INSERT INTO public_key_history
    | Updated(row: KeyRow)          // after UPDATE public_keys
    | Committed(status: Status, heard: bool)    // heard: the caller got the status; otherwise it got an exception
    | RolledBack

  datatype Txn = Txn(request: Request, phase: Phase)

  datatype Commit = Commit(id: nat, request: Request, status: Status)

  /** Committed tables, the holder of the row lock (taken by the locking read of an existing row, or
      by inserting it), the transactions, and the history of commits. Uncommitted writes are in the phases. */
  datatype Db = Db(tables: Tables, holder: Option<nat>, txns: map<nat, Txn>, log: seq<Commit>)

  datatype Action =
    | Begin(id: nat, request: Request)
    | SelectForUpdate(id: nat)
    | InsertFirst(id: nat)
    | InsertHistory(id: nat)
    | UpdateRow(id: nat)
    | CommitNow(id: nat, heard: bool)
    | Fail(id: nat)

  function At(db: Db, id: nat, phase: Phase): Db
    requires id in db.txns
  {
    db.(txns := db.txns[id := db.txns[id].(phase := phase)])
  }

  function Release(db: Db, id: nat): Db
  {
    if db.holder == Some(id) then db.(holder := None) else db
  }

  function Rollback(db: Db, id: nat): Db
    requires id in db.txns
  {
    At(Release(db, id), id, RolledBack)
  }

  /** An existing row is rotated when its key differs and the request acknowledges it. */
  predicate Rotates(row: KeyRow, r: Request)
  {
    row.key != r.key && r.acknowledge
  }

  predicate Enabled(db: Db, a: Action)
  {
    match a
    case Begin(id, _) => id !in db.txns
    // Waits while another transaction holds or has inserted the row.
    case SelectForUpdate(id) => id in db.txns && db.txns[id].phase == Begun && db.holder == None
    case InsertFirst(id) => id in db.txns && db.txns[id].phase == ReadNone && db.holder == None
    case InsertHistory(id) =>
      id in db.txns && db.txns[id].phase.ReadRow? && Rotates(db.txns[id].phase.row, db.txns[id].request)
    case UpdateRow(id) => id in db.txns && db.txns[id].phase.Archived?
    case CommitNow(id, _) =>
      id in db.txns &&
      (match db.txns[id].phase
       case Inserted => true
       case Updated(_) => true
       case ReadRow(row) => !Rotates(row, db.txns[id].request)
       case _ => false)
    // A connection error, a lock timeout or being chosen as a deadlock victim, at any await.
    case Fail(id) => id in db.txns && !db.txns[id].phase.Committed? && !db.txns[id].phase.RolledBack?
  }

  predicate HasVersion(history: seq<KeyRow>, version: int)
  {
    exists i :: 0 <= i < |history| && history[i].version == version
  }

  function Apply(db: Db, id: nat, heard: bool, tables: Tables, status: Status): Db
    requires id in db.txns
  {
    At(Release(db, id), id, Committed(status, heard))
      .(tables := tables, log := db.log + [Commit(id, db.txns[id].request, status)])
  }

  function Step(db: Db, a: Action): Db
    requires Enabled(db, a)
  {
    match a
    case Begin(id, r) => db.(txns := db.txns[id := Txn(r, Begun)])
    case SelectForUpdate(id) =>
      if db.tables.current.Some? then At(db.(holder := Some(id)), id, ReadRow(db.tables.current.value))
      else At(db, id, ReadNone)
    case InsertFirst(id) =>
      // uniq_user_keytype
      if db.tables.current.Some? then Rollback(db, id) else At(db.(holder := Some(id)), id, Inserted)
    case InsertHistory(id) =>
      // uniq_history_version
      var row := db.txns[id].phase.row;
      if HasVersion(db.tables.history, row.version) then Rollback(db, id) else At(db, id, Archived(row))
    case UpdateRow(id) => At(db, id, Updated(db.txns[id].phase.row))
    case CommitNow(id, heard) =>
      var r := db.txns[id].request;
      (match db.txns[id].phase
       case Inserted => Apply(db, id, heard, db.tables.(current := Some(KeyRow(r.key, 1))), Pinned(1))
       case Updated(row) =>
         Apply(db, id, heard, Tables(Some(KeyRow(r.key, row.version + 1)), db.tables.history + [row]),
               Rotated(row.version + 1, row.version))
       case ReadRow(row) =>
         Apply(db, id, heard, db.tables,
               if row.key == r.key then Unchanged(row.version) else RotationRequired(row.version)))
    case Fail(id) => Rollback(db, id)
  }

  // ----- runs -----

  ghost predicate ValidRun(acts: seq<Action>)
    decreases |acts|, 0
  {
    acts == [] || (ValidRun(acts[..|acts| - 1]) && Enabled(After(acts[..|acts| - 1]), acts[|acts| - 1]))
  }

  /** The database after a run that begins with no key published. */
  ghost function After(acts: seq<Action>): Db
    requires ValidRun(acts)
    decreases |acts|, 1
  {
    if acts == [] then Db(EMPTY, None, map[], []) else Step(After(acts[..|acts| - 1]), acts[|acts| - 1])
  }

  // ----- the serial order -----

  function Serial(log: seq<Commit>): Tables
  {
    if log == [] then EMPTY else Publish(Serial(log[..|log| - 1]), log[|log| - 1].request).0
  }

  /** Each committed transaction answered what it would have answered running alone at its place in the log. */
  ghost predicate AnsweredSerially(log: seq<Commit>)
  {
    log == [] ||
    (var init, last := log[..|log| - 1], log[|log| - 1];
     AnsweredSerially(init) && last.status == Publish(Serial(init), last.request).1)
  }

  /** Versions 1, 2, ... without gap or repeat up to the current one, and no key next to itself. */
  ghost predicate WellFormed(t: Tables)
  {
    && (forall i :: 0 <= i < |t.history| ==> t.history[i].version == i + 1)
    && (forall i :: 0 <= i < |t.history| - 1 ==> t.history[i].key != t.history[i + 1].key)
    && (t.current.None? ==> t.history == [])
    && (t.current.Some? ==>
          && t.current.value.version == |t.history| + 1
          && (t.history != [] ==> t.history[|t.history| - 1].key != t.current.value.key))
  }

  lemma {:induction false} SerialIsWellFormed(log: seq<Commit>)
    ensures WellFormed(Serial(log))
  {
    if log != [] {
      SerialIsWellFormed(log[..|log| - 1]);
    }
  }

  ghost predicate TxnOk(db: Db, id: nat)
  {
    id in db.txns ==>
      var r := db.txns[id].request;
      match db.txns[id].phase
      case ReadRow(row) => db.holder == Some(id) && db.tables.current == Some(row)
      case Inserted => db.holder == Some(id) && db.tables.current == None
      case Archived(row) => db.holder == Some(id) && db.tables.current == Some(row) && Rotates(row, r)
      case Updated(row) => db.holder == Some(id) && db.tables.current == Some(row) && Rotates(row, r)
      case Committed(status, _) => db.holder != Some(id) && Commit(id, r, status) in db.log
      case _ => db.holder != Some(id)
  }

  ghost predicate CommittedAs(db: Db, c: Commit)
  {
    && c.id in db.txns && db.txns[c.id].request == c.request
    && db.txns[c.id].phase.Committed? && db.txns[c.id].phase.status == c.status
  }

  ghost predicate LogOk(db: Db)
  {
    && (forall i, j :: 0 <= i < j < |db.log| ==> db.log[i].id != db.log[j].id)
    && (forall c :: c in db.log ==> CommittedAs(db, c))
    && AnsweredSerially(db.log)
    && db.tables == Serial(db.log)
  }

  ghost predicate Inv(db: Db)
  {
    && (forall id :: TxnOk(db, id))
    && (db.holder.Some? ==> db.holder.value in db.txns)
    && LogOk(db)
  }

  /** The lock does its work: what a transaction decided on is still the committed row when it commits,
      so committing is publishing serially. */
  lemma CommitIsPublish(db: Db, id: nat, heard: bool)
    requires Inv(db) && Enabled(db, CommitNow(id, heard))
    ensures var r := db.txns[id].request;
            var db' := Step(db, CommitNow(id, heard));
            && db'.tables == Publish(db.tables, r).0
            && db'.log == db.log + [Commit(id, r, Publish(db.tables, r).1)]
            && db'.txns == db.txns[id := Txn(r, Committed(Publish(db.tables, r).1, heard))]
            && db'.holder == None
  {
    hide LogOk;
    assert TxnOk(db, id);
  }

  lemma LogGrows(db: Db, db': Db, c: Commit, heard: bool)
    requires LogOk(db) && c.id in db.txns && !db.txns[c.id].phase.Committed?
    requires c.status == Publish(db.tables, c.request).1 && db'.tables == Publish(db.tables, c.request).0
    requires db'.log == db.log + [c] && db'.txns == db.txns[c.id := Txn(c.request, Committed(c.status, heard))]
    ensures LogOk(db')
  {
    assert db'.log[..|db.log|] == db.log;
    hide Publish;
    forall x | x in db'.log ensures CommittedAs(db', x) {
      assert x in db.log || x == c;
    }
    forall i, j | 0 <= i < j < |db'.log| ensures db'.log[i].id != db'.log[j].id {
      assert db'.log[i] in db.log;
    }
  }

  lemma LogStays(db: Db, db': Db, id: nat)
    requires LogOk(db) && db'.log == db.log && db'.tables == db.tables && id in db'.txns
    requires db'.txns == db.txns[id := db'.txns[id]] && (id in db.txns ==> !db.txns[id].phase.Committed?)
    ensures LogOk(db')
  {
  }

  /** The history insert never meets the unique key: the branch is there for a bug that cannot occur. */
  lemma HistoryVersionIsFree(db: Db, id: nat)
    requires Inv(db) && Enabled(db, InsertHistory(id))
    ensures !HasVersion(db.tables.history, db.txns[id].phase.row.version)
  {
    assert TxnOk(db, id);
    SerialIsWellFormed(db.log);
  }

  lemma {:induction false} StepKeepsInv(db: Db, a: Action)
    requires Inv(db) && Enabled(db, a)
    ensures Inv(Step(db, a))
  {
    hide LogOk, Serial, HasVersion, Publish;
    var db' := Step(db, a);
    var id := a.id;
    assert TxnOk(db, id);
    match a {
      case CommitNow(_, heard) =>
        CommitIsPublish(db, id, heard);
        LogGrows(db, db', db'.log[|db.log|], heard);
      case _ => LogStays(db, db', id);
    }
    forall x ensures TxnOk(db', x) {
      assert TxnOk(db, x);
    }
  }

  lemma {:induction false} RunKeepsInv(acts: seq<Action>)
    requires ValidRun(acts)
    ensures Inv(After(acts))
  {
    if acts != [] {
      RunKeepsInv(acts[..|acts| - 1]);
      StepKeepsInv(After(acts[..|acts| - 1]), acts[|acts| - 1]);
    }
  }

  /** Serializability: whatever the interleaving, the committed tables are those of running the committed
      transactions alone in commit order, each had the answer it would have had there, and a transaction
      is in that order exactly when it committed, whether its caller heard so or not. */
  lemma {:induction false} InterleavingsAreSerial(acts: seq<Action>, id: nat)
    requires ValidRun(acts)
    ensures var db := After(acts);
            && db.tables == Serial(db.log) && AnsweredSerially(db.log) && WellFormed(db.tables)
            && ((exists c :: c in db.log && c.id == id) <==> id in db.txns && db.txns[id].phase.Committed?)
            && (forall c :: c in db.log && c.id == id ==> CommittedAs(db, c))
  {
    RunKeepsInv(acts);
    var db := After(acts);
    SerialIsWellFormed(db.log);
    assert TxnOk(db, id);
  }

  /** The caller got an exception. */
  predicate Threw(txn: Txn)
  {
    txn.phase.RolledBack? || (txn.phase.Committed? && !txn.phase.heard)
  }

  /** A publish whose caller got an exception is in the serial order exactly when its commit took effect and only
      the answer was lost; rolled back, it is nowhere. */
  lemma {:induction false} FailedPublishLeavesTrace(acts: seq<Action>, id: nat)
    requires ValidRun(acts) && id in After(acts).txns && Threw(After(acts).txns[id])
    ensures (exists c :: c in After(acts).log && c.id == id) <==> After(acts).txns[id].phase.Committed?
    ensures After(acts).txns[id].phase.RolledBack? ==> After(acts).holder != Some(id)
  {
    InterleavingsAreSerial(acts, id);
    RunKeepsInv(acts);
    assert TxnOk(After(acts), id);
  }

  lemma OneMore(acts: seq<Action>, a: Action)
    requires ValidRun(acts) && Enabled(After(acts), a)
    ensures ValidRun(acts + [a]) && After(acts + [a]) == Step(After(acts), a)
  {
    assert (acts + [a])[..|acts + [a]| - 1] == acts;
  }

  /** And it happens: a first publish whose commit answer is lost throws to its caller, and the key is current. */
  lemma {:induction false} LostAnswerPublishes(r: Request) returns (acts: seq<Action>)
    ensures ValidRun(acts) && 1 in After(acts).txns
    ensures Threw(After(acts).txns[1]) && After(acts).tables == Tables(Some(KeyRow(r.key, 1)), [])
  {
    assert ValidRun([]) && After([]) == Db(EMPTY, None, map[], []);
    hide ValidRun, After;
    acts := [];
    var phases := [Begun, ReadNone, Inserted, Committed(Pinned(1), false)];
    for i := 0 to 4
      invariant ValidRun(acts)
      invariant After(acts).tables == if i < 4 then EMPTY else Tables(Some(KeyRow(r.key, 1)), [])
      invariant i < 4 ==> After(acts).holder == if i < 3 then None else Some(1)
      invariant After(acts).txns == if i == 0 then map[] else map[1 := Txn(r, phases[i - 1])]
    {
      var a := [Begin(1, r), SelectForUpdate(1), InsertFirst(1), CommitNow(1, false)][i];
      OneMore(acts, a);
      acts := acts + [a];
    }
  }

  lemma PublishChanges(t: Tables, r: Request)
    ensures var (t', status) := Publish(t, r);
            && (t' != t <==> t.current.None? || Rotates(t.current.value, r))
            && (status.RotationRequired? <==> t.current.Some? && t.current.value.key != r.key && !r.acknowledge)
            && (t'.current.Some? && (status.RotationRequired? || t'.current.value.version == status.version))
            && (t' != t ==>
                  t'.current
                  == Some(KeyRow(r.key, if t.current.None? then 1 else t.current.value.version + 1)))
            && t'.history == if t' != t && t.current.Some? then t.history + [t.current.value] else t.history
  {
  }

  /** In any run, the next action changes the tables exactly when it commits a first key or an acknowledged different
      one, heard or not; then that key is current, one version up, and the row it replaced is the newest of the
      history. Nothing uncommitted ever shows. The commit's status demands a rotation exactly for a different key
      without acknowledgement, and otherwise names the version then current. */
  lemma {:induction false} OnlyAcknowledgedChangesShow(acts: seq<Action>, a: Action)
    requires ValidRun(acts) && Enabled(After(acts), a)
    ensures var db, t := After(acts), After(acts).tables;
            var t' := Step(db, a).tables;
            && (t' != t <==>
                  a.CommitNow? && (t.current.None? || (t.current.value.key != db.txns[a.id].request.key
                                                       && db.txns[a.id].request.acknowledge)))
            && (t' != t ==>
                  && t'.current == Some(KeyRow(db.txns[a.id].request.key,
                                               if t.current.None? then 1 else t.current.value.version + 1))
                  && t'.history == if t.current.Some? then t.history + [t.current.value] else t.history)
    ensures a.CommitNow? ==>
              var t, r, t' := After(acts).tables, After(acts).txns[a.id].request, Step(After(acts), a).tables;
              var phase := Step(After(acts), a).txns[a.id].phase;
              && phase.Committed?
              && (phase.status.RotationRequired? <==>
                    t.current.Some? && t.current.value.key != r.key && !r.acknowledge)
              && (t'.current.Some?
                  && (phase.status.RotationRequired? || t'.current.value.version == phase.status.version))
  {
    RunKeepsInv(acts);
    hide Inv, Publish, HasVersion, ValidRun, After;
    if a.CommitNow? {
      CommitIsPublish(After(acts), a.id, a.heard);
      PublishChanges(After(acts).tables, After(acts).txns[a.id].request);
    }
  }
}
