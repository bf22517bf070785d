// message-store/main.cpp: the add, get, list and rekey commands over one archive
// file, and what any run of them adds up to.
module ArchiveCommands {
  import opened Wrappers
  import opened Encoding
  import opened Grouping
  import opened Archive

  const EXIT_OK := 0
  const EXIT_OTHER := 1
  const EXIT_USAGE := 2
  const EXIT_NOTFOUND := 3

  /** Keys arrive as environment variables, None when unset. */
  datatype Command =
    | Add(env: Option<string>, record: Record)
    | Get(env: Option<string>, id: string)
    | List(env: Option<string>)
    | Rekey(env: Option<string>, newEnv: Option<string>)

  /** What a command prints: a body, or one (id, sender, created) line per record. */
  datatype Output = Silent | Body(body: string) | Lines(lines: seq<(string, string, string)>)

  datatype Reply = Reply(exit: int, output: Output)

  /** The key of a usable variable: the bytes it is the hexadecimal form of. */
  ghost predicate IsKey(env: Option<string>, key: Bytes)
  {
    env.Some? && |key| == KEY_LENGTH && env.value == Hex(key)
  }

  // ----- upsert -----

  function Find(records: seq<Record>, id: string): Option<Record>
  {
    if records == [] then None else if records[0].id == id then Some(records[0]) else Find(records[1..], id)
  }

  /** Overwrite the first record with that id in place, or append. */
  function Upsert(records: seq<Record>, r: Record): seq<Record>
  {
    if records == [] then [r]
    else if records[0].id == r.id then [r] + records[1..]
    else [records[0]] + Upsert(records[1..], r)
  }

  /** One line per record: its id, sender and time. */
  function Listing(records: seq<Record>): (r: seq<(string, string, string)>)
    ensures |r| == |records|
    ensures forall i :: 0 <= i < |r| ==>
              r[i].0 == records[i].id && r[i].1 == records[i].sender && r[i].2 == records[i].created
  {
    seq(|records|, i requires 0 <= i < |records| => (records[i].id, records[i].sender, records[i].created))
  }

  lemma {:induction false} UpsertAt(records: seq<Record>, r: Record, i: nat)
    requires i < |records| && records[i].id == r.id && forall j :: 0 <= j < i ==> records[j].id != r.id
    ensures Upsert(records, r) == records[i := r]
  {
    if i > 0 {
      UpsertAt(records[1..], r, i - 1);
    }
  }

  lemma {:induction false} UpsertAppends(records: seq<Record>, r: Record)
    requires forall j :: 0 <= j < |records| ==> records[j].id != r.id
    ensures Upsert(records, r) == records + [r]
  {
    if records != [] {
      UpsertAppends(records[1..], r);
    }
  }

  lemma {:induction false} FindAt(records: seq<Record>, id: string, i: nat)
    requires i <= |records| && forall j :: 0 <= j < i ==> records[j].id != id
    ensures Find(records, id) ==
              if i == |records| then None else if records[i].id == id then Some(records[i]) else Find(records[i..], id)
  {
    if i > 0 {
      FindAt(records[1..], id, i - 1);
    }
  }

  // ----- the commands -----

  /** What a command does, for any file at the path at all, however its system calls turn out. */
  ghost predicate Effect(lib: Library, files: Files, path: Path, cmd: Command, fate: Fate, files': Files, reply: Reply)
  {
    match cmd
    case Add(env, r) => AddEffect(lib, files, path, env, r, fate, files', reply)
    case Get(env, id) => files' == files && GetReply(lib, files, path, env, id, fate, reply)
    case List(env) => files' == files && ListReply(lib, files, path, env, fate, reply)
    case Rekey(env, newEnv) => RekeyEffect(lib, files, path, env, newEnv, fate, files', reply)
  }

  ghost predicate NoKey(env: Option<string>)
  {
    forall key :: !IsKey(env, key)
  }

  ghost predicate AddEffect(lib: Library, files: Files, path: Path, env: Option<string>, r: Record, fate: Fate,
                            files': Files, reply: Reply)
  {
    && (NoKey(env) ==> files' == files && reply == Reply(EXIT_USAGE, Silent))
    && (forall key :: IsKey(env, key) ==> AddWith(lib, files, path, key, r, fate, files', reply))
  }

  ghost predicate AddWith(lib: Library, files: Files, path: Path, key: Bytes, r: Record, fate: Fate, files': Files,
                          reply: Reply)
  {
    match Loaded(lib, files, path, key, fate.readFails)
    case Err(_) => files' == files && reply == Reply(EXIT_OTHER, Silent)
    case Ok(records) => Saves(lib, files, path, key, Upsert(records, r), fate, files', reply)
  }

  /** The end of add and rekey: save, and say whether it worked. */
  ghost predicate Saves(lib: Library, files: Files, path: Path, key: Bytes, records: seq<Record>, fate: Fate,
                        files': Files, reply: Reply)
  {
    var ok := Succeeds(lib, key, records, fate);
    && reply == Reply(if ok then EXIT_OK else EXIT_OTHER, Silent)
    && SaveEffect(files, files', path, if fate.iv.Some? then Encode(lib, key, fate.iv.value, records) else [], ok)
  }

  ghost predicate GetReply(lib: Library, files: Files, path: Path, env: Option<string>, id: string, fate: Fate,
                           reply: Reply)
  {
    && (NoKey(env) ==> reply == Reply(EXIT_USAGE, Silent))
    && (forall key :: IsKey(env, key) ==> reply == GetWith(lib, files, path, key, id, fate.readFails))
  }

  function GetWith(lib: Library, files: Files, path: Path, key: Bytes, id: string, readFails: bool): Reply
  {
    match Loaded(lib, files, path, key, readFails)
    case Err(_) => Reply(EXIT_OTHER, Silent)
    case Ok(records) =>
      match Find(records, id)
      case None => Reply(EXIT_NOTFOUND, Silent)
      case Some(r) => Reply(EXIT_OK, Body(r.body))
  }

  ghost predicate ListReply(lib: Library, files: Files, path: Path, env: Option<string>, fate: Fate, reply: Reply)
  {
    && (NoKey(env) ==> reply == Reply(EXIT_USAGE, Silent))
    && (forall key :: IsKey(env, key) ==> reply == ListWith(lib, files, path, key, fate.readFails))
  }

  function ListWith(lib: Library, files: Files, path: Path, key: Bytes, readFails: bool): Reply
  {
    match Loaded(lib, files, path, key, readFails)
    case Err(_) => Reply(EXIT_OTHER, Silent)
    case Ok(records) => Reply(EXIT_OK, Lines(Listing(records)))
  }

  ghost predicate RekeyEffect(lib: Library, files: Files, path: Path, env: Option<string>, newEnv: Option<string>,
                              fate: Fate, files': Files, reply: Reply)
  {
    && (NoKey(env) || NoKey(newEnv) ==> files' == files && reply == Reply(EXIT_USAGE, Silent))
    && (forall key, newKey :: IsKey(env, key) && IsKey(newEnv, newKey) ==>
          RekeyWith(lib, files, path, key, newKey, fate, files', reply))
  }

  ghost predicate RekeyWith(lib: Library, files: Files, path: Path, key: Bytes, newKey: Bytes, fate: Fate,
                            files': Files, reply: Reply)
  {
    if path !in files || fate.probeFails then files' == files && reply == Reply(EXIT_OK, Silent)
    else
      match Loaded(lib, files, path, key, fate.readFails)
      case Err(_) => files' == files && reply == Reply(EXIT_OTHER, Silent)
      case Ok(records) => Saves(lib, files, path, newKey, records, fate, files', reply)
  }

  /** loadKeyOrDie: None is exit 2. An empty variable counts as unset; it would not decode either. */
  method LoadKey(env: Option<string>) returns (key: Option<Bytes>)
    ensures key.Some? ==> IsKey(env, key.value) && forall k :: IsKey(env, k) ==> k == key.value
    ensures key.None? ==> forall k :: !IsKey(env, k)
  {
    if env.None? || env.value == "" {
      return None;
    }
    var decoded := DecodeHexKey(env.value);
    match decoded {
      case Err(_) => key := None;
      case Ok(k) =>
        forall k' | IsKey(env, k') ensures k' == k {
          HexInjective(k', k);
        }
        key := Some(k);
    }
  }

  /** The scan of cmdAdd. */
  method UpsertInto(records: seq<Record>, r: Record) returns (updated: seq<Record>)
    ensures updated == Upsert(records, r)
  {
    updated := records;
    for i := 0 to |records|
      invariant updated == records
      invariant forall j :: 0 <= j < i ==> records[j].id != r.id
    {
      if updated[i].id == r.id {
        UpsertAt(records, r, i);
        updated := updated[i := updated[i].(sender := r.sender, created := r.created, body := r.body)];
        return;
      }
    }
    UpsertAppends(records, r);
    updated := updated + [r];
  }

  method CmdAdd(lib: Library, disk: Disk, path: Path, env: Option<string>, r: Record, fate: Fate) returns (reply: Reply)
    modifies disk
    ensures Effect(lib, old(disk.files), path, Add(env, r), fate, disk.files, reply)
  {
    var key := LoadKey(env);
    if key.None? {
      return Reply(EXIT_USAGE, Silent);
    }
    var records := Load(lib, disk, path, key.value, fate.readFails);
    if records.Err? {
      return Reply(EXIT_OTHER, Silent);
    }
    var updated := UpsertInto(records.value, r);
    var saved := Save(lib, disk, path, key.value, updated, fate);
    reply := Reply(if saved.Ok? then EXIT_OK else EXIT_OTHER, Silent);
  }

  method CmdGet(lib: Library, disk: Disk, path: Path, env: Option<string>, id: string, fate: Fate)
    returns (reply: Reply)
    ensures Effect(lib, disk.files, path, Get(env, id), fate, disk.files, reply)
  {
    var key := LoadKey(env);
    if key.None? {
      return Reply(EXIT_USAGE, Silent);
    }
    var records := Load(lib, disk, path, key.value, fate.readFails);
    if records.Err? {
      return Reply(EXIT_OTHER, Silent);
    }
    for i := 0 to |records.value|
      invariant forall j :: 0 <= j < i ==> records.value[j].id != id
    {
      if records.value[i].id == id {
        FindAt(records.value, id, i);
        return Reply(EXIT_OK, Body(records.value[i].body));
      }
    }
    FindAt(records.value, id, |records.value|);
    reply := Reply(EXIT_NOTFOUND, Silent);
  }

  method CmdList(lib: Library, disk: Disk, path: Path, env: Option<string>, fate: Fate) returns (reply: Reply)
    ensures Effect(lib, disk.files, path, List(env), fate, disk.files, reply)
  {
    var key := LoadKey(env);
    if key.None? {
      return Reply(EXIT_USAGE, Silent);
    }
    var records := Load(lib, disk, path, key.value, fate.readFails);
    if records.Err? {
      return Reply(EXIT_OTHER, Silent);
    }
    var lines := [];
    for i := 0 to |records.value|
      invariant lines == Listing(records.value[..i])
    {
      assert records.value[..i + 1] == records.value[..i] + [records.value[i]];
      var r := records.value[i];
      lines := lines + [(r.id, r.sender, r.created)];
    }
    assert records.value[..|records.value|] == records.value;
    reply := Reply(EXIT_OK, Lines(lines));
  }

  method CmdRekey(lib: Library, disk: Disk, path: Path, env: Option<string>, newEnv: Option<string>, fate: Fate)
    returns (reply: Reply)
    modifies disk
    ensures Effect(lib, old(disk.files), path, Rekey(env, newEnv), fate, disk.files, reply)
  {
    var key := LoadKey(env);
    if key.None? {
      return Reply(EXIT_USAGE, Silent);
    }
    var newKey := LoadKey(newEnv);
    if newKey.None? {
      return Reply(EXIT_USAGE, Silent);
    }
    if path !in disk.files || fate.probeFails {
      return Reply(EXIT_OK, Silent);
    }
    var records := Load(lib, disk, path, key.value, fate.readFails);
    if records.Err? {
      return Reply(EXIT_OTHER, Silent);
    }
    var saved := Save(lib, disk, path, newKey.value, records.value, fate);
    reply := Reply(if saved.Ok? then EXIT_OK else EXIT_OTHER, Silent);
  }

  /** What the exit codes say: 2 of a missing or malformed key alone; 3 of a get that could read the archive and found
      no record with the id; 1 of an archive that could not be read, or of a save that failed; and 0 of the rest. */
  lemma {:induction false} ExitCodes(lib: Library, files: Files, path: Path, cmd: Command, fate: Fate, files': Files,
                                     reply: Reply)
    requires Effect(lib, files, path, cmd, fate, files', reply)
    ensures 0 <= reply.exit <= 3 && (reply.exit != 0 ==> reply.output == Silent)
    ensures reply.exit == 2 <==> NoKey(cmd.env) || (cmd.Rekey? && NoKey(cmd.newEnv))
    ensures reply.exit == 3 ==> cmd.Get?
    ensures forall key :: IsKey(cmd.env, key) && !cmd.Rekey? ==>
              var loaded := Loaded(lib, files, path, key, fate.readFails);
              && (loaded.Err? ==> reply.exit == 1)
              && (cmd.Get? && loaded.Ok? ==>
                    if forall r :: r in loaded.value ==> r.id != cmd.id then reply.exit == 3
                    else reply.exit == 0 && FirstWith(loaded.value, cmd.id, reply.output))
              && (cmd.List? && loaded.Ok? ==> reply.exit == 0)
              && (cmd.Add? && loaded.Ok? ==>
                    reply.exit == if Succeeds(lib, key, Upsert(loaded.value, cmd.record), fate) then 0 else 1)
  {
    hide Loaded, SaveEffect, Succeeds, Upsert, Encode, Find, Listing;
    if key :| IsKey(cmd.env, key) {
      var loaded := Loaded(lib, files, path, key, fate.readFails);
      if cmd.Get? && loaded.Ok? {
        FindsFirst(loaded.value, cmd.id);
      }
      if cmd.Rekey? && !NoKey(cmd.newEnv) {
        var newKey :| IsKey(cmd.newEnv, newKey);
        assert RekeyWith(lib, files, path, key, newKey, fate, files', reply);
      }
    }
    forall key, other | IsKey(cmd.env, key) && IsKey(cmd.env, other) ensures key == other {
      HexInjective(key, other);
    }
  }

  /** The output is the body of the first record with that id. */
  ghost predicate FirstWith(records: seq<Record>, id: string, output: Output)
  {
    exists i :: 0 <= i < |records| && records[i].id == id && output == Body(records[i].body)
                && forall j :: 0 <= j < i ==> records[j].id != id
  }

  lemma {:induction false} FindsFirst(records: seq<Record>, id: string)
    ensures var found := Find(records, id);
            && (found.None? <==> forall r :: r in records ==> r.id != id)
            && (found.Some? ==> FirstWith(records, id, Body(found.value.body)))
  {
    if records != [] && records[0].id != id {
      FindsFirst(records[1..], id);
      var found := Find(records[1..], id);
      if found.Some? {
        var i :| 0 <= i < |records[1..]| && records[1..][i].id == id
                 && Body(found.value.body) == Body(records[1..][i].body)
                 && forall j :: 0 <= j < i ==> records[1..][j].id != id;
        assert records[i + 1] == records[1..][i];
        forall j | 0 <= j < i + 1 ensures records[j].id != id {
          assert j > 0 ==> records[j] == records[1..][j - 1];
        }
      }
    }
  }

  // ----- what a file amounts to -----

  datatype Shelf = Empty | Filled(key: Bytes, records: seq<Record>)

  ghost predicate Holds(lib: Library, files: Files, path: Path, shelf: Shelf)
  {
    match shelf
    case Empty => path !in files
    case Filled(key, records) => path in files && exists iv: Iv :: files[path] == Encode(lib, key, iv, records)
  }

  ghost function KeyOf(env: Option<string>): (key: Option<Bytes>)
    ensures key.Some? ==> IsKey(env, key.value)
    ensures key.None? <==> NoKey(env)
  {
    if NoKey(env) then None else var k :| IsKey(env, k); Some(k)
  }

  lemma KeyIsUnique(env: Option<string>, key: Bytes)
    requires IsKey(env, key)
    ensures KeyOf(env) == Some(key)
  {
    HexInjective(KeyOf(env).value, key);
  }

  /** No save that the command comes to fails. It writes what was read of the shelf, which is nothing when the archive
      did not open; a rekey whose probe fails comes to none. */
  ghost predicate Saved(lib: Library, shelf: Shelf, cmd: Command, fate: Fate)
  {
    var records := if shelf.Filled? && !fate.readFails then shelf.records else [];
    match cmd
    case Add(env, r) => KeyOf(env).Some? ==> Succeeds(lib, KeyOf(env).value, Upsert(records, r), fate)
    case Rekey(_, newEnv) =>
      KeyOf(newEnv).Some? && !fate.probeFails ==> Succeeds(lib, KeyOf(newEnv).value, records, fate)
    case _ => true
  }

  /** What the command is meant to do to a shelf, saved telling whether the file could be replaced. */
  ghost function Answer(shelf: Shelf, cmd: Command, saved: bool): (Shelf, Reply)
  {
    if KeyOf(cmd.env).None? || (cmd.Rekey? && KeyOf(cmd.newEnv).None?) then (shelf, Reply(EXIT_USAGE, Silent))
    else if shelf.Filled? && shelf.key != KeyOf(cmd.env).value then (shelf, Reply(EXIT_OTHER, Silent))
    else
      var records := if shelf.Filled? then shelf.records else [];
      match cmd
      case Add(_, r) =>
        if saved then (Filled(KeyOf(cmd.env).value, Upsert(records, r)), Reply(EXIT_OK, Silent))
        else (shelf, Reply(EXIT_OTHER, Silent))
      case Get(_, id) =>
        (shelf, match Find(records, id)
                case None => Reply(EXIT_NOTFOUND, Silent)
                case Some(r) => Reply(EXIT_OK, Body(r.body)))
      case List(_) => (shelf, Reply(EXIT_OK, Lines(Listing(records))))
      case Rekey(_, newEnv) =>
        if shelf.Empty? then (shelf, Reply(EXIT_OK, Silent))
        else if saved then (Filled(KeyOf(newEnv).value, records), Reply(EXIT_OK, Silent))
        else (shelf, Reply(EXIT_OTHER, Silent))
  }

  /** What it does: a shelf that does not open is taken for an empty one, which a save then puts in its place. */
  ghost function Outcome(lib: Library, shelf: Shelf, cmd: Command, fate: Fate): (Shelf, Reply)
  {
    var saved := Saved(lib, shelf, cmd, fate);
    if cmd.Rekey? then
      if KeyOf(cmd.env).None? || KeyOf(cmd.newEnv).None? then (shelf, Reply(EXIT_USAGE, Silent))
      else if shelf.Empty? || fate.probeFails then (shelf, Reply(EXIT_OK, Silent))
      else if fate.readFails then
        if saved then
          (Filled(KeyOf(cmd.newEnv).value, []), Reply(EXIT_OK, Silent))
        else
          (shelf, Reply(EXIT_OTHER, Silent))
      else Answer(shelf, cmd, saved)
    else
      var (shelf', reply) := Answer(if fate.readFails then Empty else shelf, cmd, saved);
      (if cmd.Add? && reply.exit == EXIT_OK then shelf' else shelf, reply)
  }

  predicate OnlyHolds(records: seq<Record>, id: string)
  {
    records == [] || (|records| == 1 && records[0].id == id)
  }

  lemma UpsertAlone(records: seq<Record>, r: Record)
    ensures Upsert(records, r) == [r] <==> OnlyHolds(records, r.id)
  {
    if records != [] && records[0].id != r.id {
      UpsertLength(records[1..], r);
    }
  }

  lemma {:induction false} UpsertLength(records: seq<Record>, r: Record)
    ensures |Upsert(records, r)| >= 1
  {
    if records != [] && records[0].id != r.id {
      UpsertLength(records[1..], r);
    }
  }

  /** When that is not what is meant: the archive exists and did not open, and it showed. Either the key is not the
      archive's, which went unnoticed; or there was something in the archive to find, to list or to lose; or the
      archive should have changed its key and kept it. */
  ghost predicate Misled(lib: Library, shelf: Shelf, cmd: Command, fate: Fate)
  {
    && shelf.Filled? && KeyOf(cmd.env).Some?
    && var known := shelf.key == KeyOf(cmd.env).value;
       match cmd
       case Add(env, r) =>
         fate.readFails && Succeeds(lib, KeyOf(env).value, [r], fate) && (!known || !OnlyHolds(shelf.records, r.id))
       case Get(_, id) => fate.readFails && (!known || Find(shelf.records, id).Some?)
       case List(_) => fate.readFails && (!known || shelf.records != [])
       case Rekey(_, newEnv) =>
         KeyOf(newEnv).Some? &&
         if fate.probeFails then !known || shelf.key != KeyOf(newEnv).value
         else fate.readFails && Succeeds(lib, KeyOf(newEnv).value, [], fate) && (!known || shelf.records != [])
  }

  lemma LoadedFrom(lib: Library, files: Files, path: Path, shelf: Shelf, key: Bytes, readFails: bool)
    requires Lawful(lib) && RejectsOtherKeys(lib) && Holds(lib, files, path, shelf)
    ensures Loaded(lib, files, path, key, readFails) ==
              match shelf
              case Empty => Ok([])
              case Filled(k, records) =>
                if readFails then Ok([]) else if key == k then Ok(records) else Err(Unauthentic)
  {
    hide Encode, Decode, Lawful, RejectsOtherKeys;
    match shelf {
      case Empty =>
      case Filled(k, records) =>
        var iv: Iv :| files[path] == Encode(lib, k, iv, records);
        DecodeUndoesEncode(lib, k, key, iv, records);
    }
  }

  lemma SavesHolds(lib: Library, files: Files, path: Path, shelf: Shelf, key: Bytes, records: seq<Record>, fate: Fate,
                   files': Files, reply: Reply)
    requires Holds(lib, files, path, shelf) && Saves(lib, files, path, key, records, fate, files', reply)
    ensures Holds(lib, files', path, if Succeeds(lib, key, records, fate) then Filled(key, records) else shelf)
    ensures reply == Reply(if Succeeds(lib, key, records, fate) then EXIT_OK else EXIT_OTHER, Silent)
  {
    hide Encode, WritesReach;
    assert At(files, path) == if path in files then Some(files[path]) else None;
    assert reply.exit != EXIT_OK ==> At(files', path) == At(files, path);
  }

  /** On a file that is a shelf, the command does to the file exactly what the outcome says, and replies so. */
  lemma {:induction false} EffectIsOutcome(lib: Library, files: Files, path: Path, shelf: Shelf, cmd: Command,
                                           fate: Fate, files': Files, reply: Reply)
    requires Lawful(lib) && RejectsOtherKeys(lib) && Holds(lib, files, path, shelf)
    requires Effect(lib, files, path, cmd, fate, files', reply)
    ensures var (shelf', reply') := Outcome(lib, shelf, cmd, fate);
            reply == reply' && Holds(lib, files', path, shelf')
  {
    hide Succeeds, Lawful, RejectsOtherKeys, Holds, Loaded, Decode, Saves, IsKey, NoKey, Upsert, Find, Listing;
    if KeyOf(cmd.env).Some? {
      var key := KeyOf(cmd.env).value;
      LoadedFrom(lib, files, path, shelf, key, fate.readFails);
      match cmd {
        case Add(_, r) =>
          assert AddWith(lib, files, path, key, r, fate, files', reply);
          if Loaded(lib, files, path, key, fate.readFails).Ok? {
            SavesHolds(lib, files, path, shelf, key, Upsert(Loaded(lib, files, path, key, fate.readFails).value, r),
                       fate, files', reply);
          }
        case Get(_, id) => assert reply == GetWith(lib, files, path, key, id, fate.readFails);
        case List(_) => assert reply == ListWith(lib, files, path, key, fate.readFails);
        case Rekey(_, newEnv) =>
          if KeyOf(newEnv).Some? {
            RekeyIsOutcome(lib, files, path, shelf, key, KeyOf(newEnv).value, fate, files', reply);
          }
      }
    }
  }

  lemma RekeyIsOutcome(lib: Library, files: Files, path: Path, shelf: Shelf, key: Bytes, newKey: Bytes, fate: Fate,
                       files': Files, reply: Reply)
    requires Lawful(lib) && RejectsOtherKeys(lib) && Holds(lib, files, path, shelf)
    requires RekeyWith(lib, files, path, key, newKey, fate, files', reply)
    ensures shelf.Empty? || fate.probeFails ==> files' == files && reply == Reply(EXIT_OK, Silent)
    ensures shelf.Filled? && !fate.probeFails && !fate.readFails && shelf.key != key ==>
              files' == files && reply == Reply(EXIT_OTHER, Silent)
    ensures shelf.Filled? && !fate.probeFails && (fate.readFails || shelf.key == key) ==>
              var records := if fate.readFails then [] else shelf.records;
              var ok := Succeeds(lib, newKey, records, fate);
              && reply == Reply(if ok then EXIT_OK else EXIT_OTHER, Silent)
              && Holds(lib, files', path, if ok then Filled(newKey, records) else shelf)
  {
    hide Succeeds;
    hide Lawful, RejectsOtherKeys, Decode, Saves, Loaded;
    LoadedFrom(lib, files, path, shelf, key, fate.readFails);
    if shelf.Filled? && !fate.probeFails && (fate.readFails || shelf.key == key) {
      SavesHolds(lib, files, path, shelf, newKey, if fate.readFails then [] else shelf.records, fate, files', reply);
    }
  }

  /** And that is what is meant, reply and shelf, exactly when the command was not misled. */
  lemma {:induction false} OutcomeIsAnswer(lib: Library, shelf: Shelf, cmd: Command, fate: Fate)
    ensures Outcome(lib, shelf, cmd, fate) == Answer(shelf, cmd, Saved(lib, shelf, cmd, fate))
       <==> !Misled(lib, shelf, cmd, fate)
    ensures Misled(lib, shelf, cmd, fate) ==> shelf.Filled? && (fate.probeFails || fate.readFails)
  {
    hide IsKey, NoKey, OnlyHolds, Succeeds;
    if cmd.Add? && shelf.Filled? {
      assert Upsert([], cmd.record) == [cmd.record];
      UpsertAlone(shelf.records, cmd.record);
    }
  }

  // ----- any run of commands -----

  datatype Step = Step(cmd: Command, fate: Fate, reply: Reply)

  ghost predicate Runs(lib: Library, path: Path, states: seq<Files>, steps: seq<Step>)
  {
    && |states| == |steps| + 1
    && forall i :: 0 <= i < |steps| ==>
         Effect(lib, states[i], path, steps[i].cmd, steps[i].fate, states[i + 1], steps[i].reply)
  }

  ghost function OutcomeOf(lib: Library, shelf: Shelf, step: Step): (Shelf, Reply)
  {
    Outcome(lib, shelf, step.cmd, step.fate)
  }

  ghost function AnswerOf(lib: Library, shelf: Shelf, step: Step): (Shelf, Reply)
  {
    Answer(shelf, step.cmd, Saved(lib, shelf, step.cmd, step.fate))
  }

  ghost predicate MisledAt(lib: Library, shelf: Shelf, step: Step)
  {
    Misled(lib, shelf, step.cmd, step.fate)
  }

  /** The shelf a run leaves. */
  ghost function Left(lib: Library, steps: seq<Step>): Shelf
  {
    if steps == [] then Empty else OutcomeOf(lib, Left(lib, steps[..|steps| - 1]), steps[|steps| - 1]).0
  }

  /** The shelf it is meant to leave. */
  ghost function Meant(lib: Library, steps: seq<Step>): Shelf
  {
    if steps == [] then Empty else AnswerOf(lib, Meant(lib, steps[..|steps| - 1]), steps[|steps| - 1]).0
  }

  /** Every run, whatever fails in it: the file is the shelf the outcomes add up to, and every reply is theirs. */
  lemma {:induction false} RunsAsItsOutcomes(lib: Library, path: Path, states: seq<Files>, steps: seq<Step>, i: nat)
    requires Lawful(lib) && RejectsOtherKeys(lib)
    requires Runs(lib, path, states, steps) && path !in states[0] && i <= |steps|
    ensures Holds(lib, states[i], path, Left(lib, steps[..i]))
    ensures i < |steps| ==> steps[i].reply == OutcomeOf(lib, Left(lib, steps[..i]), steps[i]).1
  {
    hide Lawful, RejectsOtherKeys, Effect, Outcome, Holds;
    if i == 0 {
      NothingHeld(lib, states[0], path);
    } else {
      RunsAsItsOutcomes(lib, path, states, steps, i - 1);
      var last := steps[i - 1];
      EffectIsOutcome(lib, states[i - 1], path, Left(lib, steps[..i - 1]), last.cmd, last.fate, states[i], last.reply);
      assert steps[..i][..i - 1] == steps[..i - 1];
    }
    if i < |steps| {
      var next := steps[i];
      EffectIsOutcome(lib, states[i], path, Left(lib, steps[..i]), next.cmd, next.fate, states[i + 1], next.reply);
    }
  }

  lemma NothingHeld(lib: Library, files: Files, path: Path)
    requires path !in files
    ensures Holds(lib, files, path, Empty)
  {
  }

  /** Up to step n the file was the shelf meant and every reply the one meant. */
  ghost predicate AsMeant(lib: Library, path: Path, states: seq<Files>, steps: seq<Step>, n: nat)
    requires n <= |steps| < |states|
  {
    && (forall i :: 0 <= i <= n ==> Holds(lib, states[i], path, Meant(lib, steps[..i])))
    && (forall i :: 0 <= i < n ==> steps[i].reply == AnswerOf(lib, Meant(lib, steps[..i]), steps[i]).1)
  }

  lemma OneShelf(lib: Library, files: Files, path: Path, a: Shelf, b: Shelf)
    requires Lawful(lib) && RejectsOtherKeys(lib) && Holds(lib, files, path, a) && Holds(lib, files, path, b)
    ensures a == b
  {
    hide Lawful, RejectsOtherKeys, Loaded;
    if a.Filled? {
      LoadedFrom(lib, files, path, a, a.key, false);
      LoadedFrom(lib, files, path, b, a.key, false);
    }
  }

  lemma LeftGrows(lib: Library, steps: seq<Step>, i: nat)
    requires i < |steps|
    ensures Left(lib, steps[..i + 1]) == OutcomeOf(lib, Left(lib, steps[..i]), steps[i]).0
    ensures Meant(lib, steps[..i + 1]) == AnswerOf(lib, Meant(lib, steps[..i]), steps[i]).0
  {
    hide OutcomeOf, AnswerOf;
    assert steps[..i + 1][..i] == steps[..i];
  }

  lemma {:induction false} AsMeantStep(lib: Library, path: Path, states: seq<Files>, steps: seq<Step>, n: nat)
    requires Lawful(lib) && RejectsOtherKeys(lib) && Runs(lib, path, states, steps) && path !in states[0] && n < |steps|
    requires AsMeant(lib, path, states, steps, n)
    ensures AsMeant(lib, path, states, steps, n + 1) <==> !MisledAt(lib, Meant(lib, steps[..n]), steps[n])
  {
    hide Lawful, RejectsOtherKeys, Effect, Holds, Outcome, Answer, Misled, Left, Meant;
    RunsAsItsOutcomes(lib, path, states, steps, n);
    RunsAsItsOutcomes(lib, path, states, steps, n + 1);
    LeftGrows(lib, steps, n);
    var shelf := Left(lib, steps[..n]);
    OneShelf(lib, states[n], path, shelf, Meant(lib, steps[..n]));
    OutcomeIsAnswer(lib, shelf, steps[n].cmd, steps[n].fate);
    if AsMeant(lib, path, states, steps, n + 1) {
      OneShelf(lib, states[n + 1], path, Left(lib, steps[..n + 1]), Meant(lib, steps[..n + 1]));
    }
  }

  /** A run behaves throughout as the shelf of records under one key that it is meant to be, file and replies, exactly
      when no command in it was misled by an existing archive that did not open. */
  lemma {:induction false} RunsAsAShelf(lib: Library, path: Path, states: seq<Files>, steps: seq<Step>, n: nat)
    requires Lawful(lib) && RejectsOtherKeys(lib)
    requires Runs(lib, path, states, steps) && path !in states[0] && n <= |steps|
    ensures AsMeant(lib, path, states, steps, n)
       <==> forall i :: 0 <= i < n ==> !MisledAt(lib, Meant(lib, steps[..i]), steps[i])
  {
    hide Lawful, RejectsOtherKeys, Effect, Holds, Answer, Meant, MisledAt;
    if n == 0 {
      RunsAsItsOutcomes(lib, path, states, steps, 0);
      NothingMeant(lib, steps);
    } else {
      RunsAsAShelf(lib, path, states, steps, n - 1);
      if AsMeant(lib, path, states, steps, n - 1) {
        AsMeantStep(lib, path, states, steps, n - 1);
      }
    }
  }

  lemma NothingMeant(lib: Library, steps: seq<Step>)
    ensures Meant(lib, steps[..0]) == Left(lib, steps[..0]) == Empty
  {
  }

  /** In particular when no existing archive failed to open. */
  lemma {:induction false} RunsAsAShelfWhenItOpens(lib: Library, path: Path, states: seq<Files>, steps: seq<Step>)
    requires Lawful(lib) && RejectsOtherKeys(lib) && Runs(lib, path, states, steps) && path !in states[0]
    requires forall i :: 0 <= i < |steps| && path in states[i] ==> !steps[i].fate.readFails && !steps[i].fate.probeFails
    ensures AsMeant(lib, path, states, steps, |steps|)
  {
    hide Lawful, RejectsOtherKeys, Effect, Answer, Meant, Encode;
    OpensSoFar(lib, path, states, steps, |steps|);
    RunsAsAShelf(lib, path, states, steps, |steps|);
  }

  lemma {:induction false} OpensSoFar(lib: Library, path: Path, states: seq<Files>, steps: seq<Step>, n: nat)
    requires Lawful(lib) && RejectsOtherKeys(lib)
    requires Runs(lib, path, states, steps) && path !in states[0] && n <= |steps|
    requires forall i :: 0 <= i < |steps| && path in states[i] ==> !steps[i].fate.readFails && !steps[i].fate.probeFails
    ensures forall i :: 0 <= i < n ==> !MisledAt(lib, Meant(lib, steps[..i]), steps[i])
  {
    hide Lawful, RejectsOtherKeys, Effect, Answer, Meant, Encode;
    if n > 0 {
      OpensSoFar(lib, path, states, steps, n - 1);
      RunsAsAShelf(lib, path, states, steps, n - 1);
      assert Holds(lib, states[n - 1], path, Meant(lib, steps[..n - 1]));
    }
  }

  // ----- a map in the order of first insertion -----

  /** The last record of the log with that id. */
  function Latest(log: seq<Record>, id: string): (r: Option<Record>)
    ensures r.Some? ==> r.value.id == id
  {
    if log == [] then None
    else if log[|log| - 1].id == id then Some(log[|log| - 1])
    else Latest(log[..|log| - 1], id)
  }

  /** The ids of the log, each where it first occurs. */
  function FirstIds(log: seq<Record>): (ids: seq<string>)
    ensures NoRepeats(ids) && forall id :: id in ids <==> Latest(log, id).Some?
  {
    if log == [] then []
    else
      var ids := FirstIds(log[..|log| - 1]);
      if log[|log| - 1].id in ids then ids else ids + [log[|log| - 1].id]
  }

  function Reading(log: seq<Record>): (r: seq<Record>)
    ensures |r| == |FirstIds(log)|
    ensures forall i :: 0 <= i < |r| ==> Latest(log, FirstIds(log)[i]) == Some(r[i]) && r[i].id == FirstIds(log)[i]
  {
    seq(|FirstIds(log)|, i requires 0 <= i < |FirstIds(log)| => Latest(log, FirstIds(log)[i]).value)
  }

  lemma UpsertReads(log: seq<Record>, r: Record)
    ensures Upsert(Reading(log), r) == Reading(log + [r])
  {
    var ids, after := FirstIds(log), log + [r];
    assert after[..|after| - 1] == log;
    if r.id in ids {
      var i :| 0 <= i < |ids| && ids[i] == r.id;
      UpsertAt(Reading(log), r, i);
      forall j | 0 <= j < |ids| ensures Reading(log)[i := r][j] == Reading(after)[j] {
        assert Latest(after, ids[j]) == if j == i then Some(r) else Latest(log, ids[j]);
      }
    } else {
      UpsertAppends(Reading(log), r);
      forall j | 0 <= j <= |ids| ensures (Reading(log) + [r])[j] == Reading(after)[j] {
        assert j < |ids| ==> Latest(after, ids[j]) == Latest(log, ids[j]);
      }
    }
  }

  /** The records of the adds that reported success. */
  function Accepted(steps: seq<Step>): seq<Record>
  {
    if steps == [] then []
    else
      var last := steps[|steps| - 1];
      if last.cmd.Add? && last.reply.exit == EXIT_OK then Accepted(steps[..|steps| - 1]) + [last.cmd.record]
      else Accepted(steps[..|steps| - 1])
  }

  ghost predicate Agree(shelf: Shelf, log: seq<Record>)
  {
    if shelf.Empty? then log == [] else log != [] && shelf.records == Reading(log)
  }

  /** A shelf and a log that agree go on agreeing. */
  lemma AnswerAgrees(shelf: Shelf, log: seq<Record>, cmd: Command, saved: bool)
    requires Agree(shelf, log)
    ensures var (shelf', reply) := Answer(shelf, cmd, saved);
            Agree(shelf', if cmd.Add? && reply.exit == EXIT_OK then log + [cmd.record] else log)
  {
    hide Upsert, Reading, IsKey, NoKey, Find, Listing;
    ReadingNothing();
    if cmd.Add? {
      UpsertReads(log, cmd.record);
    }
  }

  /** While replies are as meant, the shelf meant is the accepted records read as a map. */
  lemma {:induction false} MeantReadsAccepted(lib: Library, steps: seq<Step>, n: nat)
    requires n <= |steps|
    requires forall i :: 0 <= i < n ==> steps[i].reply == AnswerOf(lib, Meant(lib, steps[..i]), steps[i]).1
    ensures Agree(Meant(lib, steps[..n]), Accepted(steps[..n]))
  {
    hide Answer, Agree;
    if n == 0 {
      NothingAgrees(lib, steps);
    } else {
      MeantReadsAccepted(lib, steps, n - 1);
      LeftGrows(lib, steps, n - 1);
      assert steps[..n][..n - 1] == steps[..n - 1];
      AnswerAgrees(Meant(lib, steps[..n - 1]), Accepted(steps[..n - 1]), steps[n - 1].cmd,
                   Saved(lib, Meant(lib, steps[..n - 1]), steps[n - 1].cmd, steps[n - 1].fate));
    }
  }

  lemma NothingAgrees(lib: Library, steps: seq<Step>)
    ensures Agree(Meant(lib, steps[..0]), Accepted(steps[..0]))
  {
  }

  lemma ReadingNothing()
    ensures Reading([]) == []
  {
  }

  /** The file as a reader with any key finds it: absent until a record was accepted; from then on it opens under one
      key alone, to the accepted records read as a map. */
  ghost predicate ReadsAsMap(lib: Library, files: Files, path: Path, shelf: Shelf, log: seq<Record>)
  {
    && (log == [] <==> path !in files)
    && (log != [] ==> shelf.Filled?)
    && (log != [] ==>
          forall key ::
            Loaded(lib, files, path, key, false) == if key == shelf.key then Ok(Reading(log)) else Err(Unauthentic))
  }

  lemma ReadsAsHeld(lib: Library, files: Files, path: Path, left: Shelf, meant: Shelf, log: seq<Record>)
    requires Lawful(lib) && RejectsOtherKeys(lib) && Holds(lib, files, path, left) && Agree(meant, log)
    ensures ReadsAsMap(lib, files, path, meant, log) <==> left == meant
  {
    hide Lawful, RejectsOtherKeys, Loaded, Reading, Encode;
    forall key ensures Loaded(lib, files, path, key, false) ==
                         match left
                         case Empty => Ok([])
                         case Filled(k, records) => if key == k then Ok(records) else Err(Unauthentic) {
      LoadedFrom(lib, files, path, left, key, false);
    }
    if left.Filled? && meant.Filled? && ReadsAsMap(lib, files, path, meant, log) {
      assert Loaded(lib, files, path, meant.key, false) == Ok(Reading(log));
    }
  }

  /** A run that starts without an archive, with any keys and saves failing anywhere, reads at every moment as the map
      of the accepted adds, ids unique and in the order they first came, with every reply as meant, exactly when no
      command in it was misled by an existing archive that did not open. */
  lemma {:induction false} ArchiveIsAMap(lib: Library, path: Path, states: seq<Files>, steps: seq<Step>)
    requires Lawful(lib) && RejectsOtherKeys(lib) && Runs(lib, path, states, steps) && path !in states[0]
    ensures (&& (forall i :: 0 <= i < |steps| ==> steps[i].reply == AnswerOf(lib, Meant(lib, steps[..i]), steps[i]).1)
             && (forall i :: 0 <= i <= |steps| ==>
                   ReadsAsMap(lib, states[i], path, Meant(lib, steps[..i]), Accepted(steps[..i]))))
       <==> forall i :: 0 <= i < |steps| ==> !MisledAt(lib, Meant(lib, steps[..i]), steps[i])
  {
    RunsAsAShelf(lib, path, states, steps, |steps|);
    hide Lawful, RejectsOtherKeys, Runs, Holds, AnswerOf, MisledAt, ReadsAsMap, Meant, Accepted, Left, Agree;
    if forall i :: 0 <= i < |steps| ==> steps[i].reply == AnswerOf(lib, Meant(lib, steps[..i]), steps[i]).1 {
      forall i | 0 <= i <= |steps|
        ensures ReadsAsMap(lib, states[i], path, Meant(lib, steps[..i]), Accepted(steps[..i]))
           <==> Holds(lib, states[i], path, Meant(lib, steps[..i])) {
        RunsAsItsOutcomes(lib, path, states, steps, i);
        MeantReadsAccepted(lib, steps, i);
        ReadsAsHeld(lib, states[i], path, Left(lib, steps[..i]), Meant(lib, steps[..i]), Accepted(steps[..i]));
        if Holds(lib, states[i], path, Meant(lib, steps[..i])) {
          OneShelf(lib, states[i], path, Left(lib, steps[..i]), Meant(lib, steps[..i]));
        }
      }
    }
  }

  lemma {:induction false} FindReads(records: seq<Record>, i: nat)
    requires i < |records| && forall j :: 0 <= j < i ==> records[j].id != records[i].id
    ensures Find(records, records[i].id) == Some(records[i])
  {
    FindAt(records, records[i].id, i);
  }

  /** Looking an id up in the archive finds the last record accepted under it, or nothing if there was none. */
  lemma LookupIsLatest(log: seq<Record>, id: string)
    ensures Find(Reading(log), id) == Latest(log, id)
    ensures forall i, j :: 0 <= i < j < |Reading(log)| ==> Reading(log)[i].id != Reading(log)[j].id
  {
    var ids := FirstIds(log);
    if id in ids {
      var i :| 0 <= i < |ids| && ids[i] == id;
      FindReads(Reading(log), i);
    } else {
      FindAt(Reading(log), id, |ids|);
    }
  }

  /** An add leaves what every other id reads alone. */
  lemma AddTouchesOneId(log: seq<Record>, r: Record, id: string)
    ensures Find(Reading(log + [r]), id) == if id == r.id then Some(r) else Find(Reading(log), id)
  {
    LookupIsLatest(log, id);
    LookupIsLatest(log + [r], id);
    assert (log + [r])[..|log|] == log;
  }

  // ----- what a failed open can cost -----

  lemma OneWrite(writes: nat -> WriteOutcome, left: nat)
    requires writes(0) == Wrote(left)
    ensures WritesReach(writes, 0, left)
  {
  }

  lemma WholeSave(lib: Library, key: Bytes, records: seq<Record>, iv: Iv, readFails: bool) returns (fate: Fate)
    ensures Succeeds(lib, key, records, fate) && fate.iv == Some(iv) && fate.readFails == readFails && !fate.probeFails
  {
    hide Encode;
    var size := |Encode(lib, key, iv, records)|;
    fate := Fate(false, readFails, Some(iv), false, _ => Wrote(size), false, false, false);
    OneWrite(fate.writes, size);
  }

  /** An add that takes the archive for empty, and saves. */
  lemma {:induction false} AddAlone(lib: Library, files: Files, path: Path, key: Bytes, r: Record, iv: Iv,
                                    readFails: bool)
    returns (step: Step)
    requires |key| == KEY_LENGTH && (path !in files || readFails) && TempOf(path) !in files
    ensures step.cmd == Add(Some(Hex(key)), r) && step.fate.readFails == readFails
            && Succeeds(lib, key, [r], step.fate) && step.reply == Reply(EXIT_OK, Silent)
    ensures Effect(lib, files, path, step.cmd, step.fate, files[path := Encode(lib, key, iv, [r])], step.reply)
  {
    hide Encode, Succeeds, Hex;
    var fate := WholeSave(lib, key, [r], iv, readFails);
    step := Step(Add(Some(Hex(key)), r), fate, Reply(EXIT_OK, Silent));
    var env := Some(Hex(key));
    var files' := files[path := Encode(lib, key, iv, [r])];
    assert IsKey(env, key);
    assert files' == files' - {TempOf(path)};
    forall k | IsKey(env, k) ensures AddWith(lib, files, path, k, r, fate, files', step.reply) {
      HexInjective(k, key);
    }
  }

  /** Two adds, the second of which cannot open the archive: both report success, and the first record is gone. */
  lemma {:induction false} FailedOpenLosesRecords(lib: Library, path: Path, key: Bytes, r1: Record, r2: Record, iv: Iv)
    returns (states: seq<Files>, steps: seq<Step>)
    requires Lawful(lib) && RejectsOtherKeys(lib) && |key| == KEY_LENGTH && r1.id != r2.id
    ensures Runs(lib, path, states, steps) && |steps| == 2 && path !in states[0] && Accepted(steps) == [r1, r2]
    ensures Loaded(lib, states[2], path, key, false) == Ok([r2])
    ensures MisledAt(lib, Meant(lib, steps[..1]), steps[1])
  {
    hide Encode, Decode, Hex, Lawful, RejectsOtherKeys, Effect, Succeeds;
    var files1: Files := map[path := Encode(lib, key, iv, [r1])];
    var first := AddAlone(lib, map[], path, key, r1, iv, false);
    var second := AddAlone(lib, files1, path, key, r2, iv, true);
    states, steps := [map[], map[][path := Encode(lib, key, iv, [r1])], files1[path := Encode(lib, key, iv, [r2])]],
        [first, second];
    assert map[][path := Encode(lib, key, iv, [r1])] == files1;
    LoadedFrom(lib, states[2], path, Filled(key, [r2]), key, false);
    KeyIsUnique(Some(Hex(key)), key);
    assert Upsert([], r1) == [r1] && Upsert([], r2) == [r2];
    assert steps[..1] == [first] && steps[..1][..0] == [] && Meant(lib, []) == Empty && Accepted([]) == [];
    assert Meant(lib, [first]) == Filled(key, [r1]);
    assert Accepted([first]) == [r1];
  }
}
