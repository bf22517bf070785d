// message-store/Archive.cpp: the key's hexadecimal form, the file format, and the
// write that replaces an archive as a whole or not at all.
module Archive {
  import opened Wrappers
  import opened Encoding

  type Path = string
  type Files = map<Path, Bytes>

  datatype Record = Record(id: string, sender: string, created: string, body: string)

  type Object = map<string, string>

  datatype Json = Array(items: seq<Object>) | Other

  /** AES-256-GCM with its tag apart, and the JSON library; parse is None where json::parse throws. */
  datatype Library = Library(
    encrypt: (Bytes, Bytes, Bytes, Bytes) -> (Bytes, Bytes),               // key, iv, plaintext, aad: ciphertext, tag
    decrypt: (Bytes, Bytes, Bytes, Bytes, Bytes) -> Option<Bytes>,         // key, iv, tag, ciphertext, aad
    dump: Json -> Bytes,
    parse: Bytes -> Option<Json>)

  ghost predicate Lawful(lib: Library)
  {
    && (forall k, iv, t, a :: |lib.encrypt(k, iv, t, a).1| == TAG_LENGTH)
    && (forall k, iv, t, a :: lib.decrypt(k, iv, lib.encrypt(k, iv, t, a).1, lib.encrypt(k, iv, t, a).0, a) == Some(t))
    && (forall j :: lib.parse(lib.dump(j)) == Some(j))
  }

  /** A wrong key is noticed: the usual idealisation of the 16-byte tag. */
  ghost predicate RejectsOtherKeys(lib: Library)
  {
    forall k, k', iv, t, a ::
      k != k' ==> lib.decrypt(k', iv, lib.encrypt(k, iv, t, a).1, lib.encrypt(k, iv, t, a).0, a) == None
  }

  const MAGIC: Bytes := [90, 66, 65, 82, 49, 10]
  const IV_LENGTH := 12
  const TAG_LENGTH := 16
  const HEADER_LENGTH := 34
  const KEY_LENGTH := 32

  type Iv = iv: Bytes | |iv| == 12 witness [0, 0, 0, 0, 0, 0, 0, 0, 0, 0, 0, 0]

  // ----- the key in hexadecimal -----

  function HexNibble(c: char): (n: int)
    ensures -1 <= n < 16
  {
    if '0' <= c <= '9' then c as int - '0' as int
    else if 'a' <= c <= 'f' then c as int - 'a' as int + 10
    else -1
  }

  /** (unsigned char)((hi << 4) | lo). */
  function Pack(hi: int, lo: int): byte
    requires 0 <= hi < 16 && 0 <= lo < 16
  {
    (((hi as bv8) << 4) | (lo as bv8)) as byte
  }

  function HexDigit(n: int): char
    requires 0 <= n < 16
  {
    if n < 10 then (n + '0' as int) as char else (n - 10 + 'a' as int) as char
  }

  predicate SpellsByte(c: char, d: char, b: byte)
  {
    c == HexDigit(b as int / 16) && d == HexDigit(b as int % 16)
  }

  /** Python's bytes.hex(). */
  function Hex(b: Bytes): (s: string)
    ensures |s| == 2 * |b|
    ensures forall i :: 0 <= i < |b| ==> SpellsByte(s[2 * i], s[2 * i + 1], b[i])
  {
    if b == [] then "" else Hex(b[..|b| - 1]) + [HexDigit(b[|b| - 1] as int / 16), HexDigit(b[|b| - 1] as int % 16)]
  }

  /** Two characters a byte, the high half first, in lowercase. */
  lemma HexSpells(b: Bytes, i: nat)
    requires i < |b|
    ensures |Hex(b)| == 2 * |b|
    ensures Hex(b)[2 * i] == "0123456789abcdef"[b[i] as int / 16]
    ensures Hex(b)[2 * i + 1] == "0123456789abcdef"[b[i] as int % 16]
  {
    assert SpellsByte(Hex(b)[2 * i], Hex(b)[2 * i + 1], b[i]);
  }

  lemma ShiftOr(hi: bv8, lo: bv8)
    requires hi < 16 && lo < 16
    ensures ((hi << 4) | lo) as int == 16 * (hi as int) + (lo as int)
  {
  }

  lemma AsNibble(n: int)
    requires 0 <= n < 16
    ensures n as bv8 < 16 && (n as bv8) as int == n
  {
  }

  lemma PackAdds(hi: int, lo: int)
    requires 0 <= hi < 16 && 0 <= lo < 16
    ensures Pack(hi, lo) as int == 16 * hi + lo
  {
    AsNibble(hi);
    AsNibble(lo);
    ShiftOr(hi as bv8, lo as bv8);
  }

  lemma {:induction false} PackUndoesDigits(c: char, d: char, b: byte)
    ensures (HexNibble(c) >= 0 && HexNibble(d) >= 0 && Pack(HexNibble(c), HexNibble(d)) == b)
       <==> SpellsByte(c, d, b)
  {
    hide Pack;
    NibbleUndoesDigit(c, b as int / 16);
    NibbleUndoesDigit(d, b as int % 16);
    if HexNibble(c) >= 0 && HexNibble(d) >= 0 {
      PackAdds(HexNibble(c), HexNibble(d));
    }
  }

  lemma NibbleUndoesDigit(c: char, n: int)
    requires 0 <= n < 16
    ensures HexNibble(c) == n <==> c == HexDigit(n)
  {
  }

  /** A string decodes exactly when it is the hexadecimal form of some 32-byte key, and then to that key. */
  method DecodeHexKey(hex: string) returns (r: Result<Bytes, string>)
    ensures r.Ok? ==> |r.value| == KEY_LENGTH && Hex(r.value) == hex
    ensures r.Err? ==> forall k :: |k| == KEY_LENGTH ==> Hex(k) != hex
  {
    if |hex| != KEY_LENGTH * 2 {
      return Err("key must be exactly 64 hex chars");
    }
    var key := new byte[KEY_LENGTH](_ => 0);
    for i := 0 to KEY_LENGTH
      invariant forall j :: 0 <= j < i ==> SpellsByte(hex[2 * j], hex[2 * j + 1], key[j])
    {
      var hi := HexNibble(hex[2 * i]);
      var lo := HexNibble(hex[2 * i + 1]);
      if hi < 0 || lo < 0 {
        forall k | |k| == KEY_LENGTH ensures Hex(k) != hex {
          PackUndoesDigits(hex[2 * i], hex[2 * i + 1], k[i]);
        }
        return Err("key must be 64 lowercase hex chars");
      }
      PackUndoesDigits(hex[2 * i], hex[2 * i + 1], Pack(hi, lo));
      key[i] := Pack(hi, lo);
    }
    SameHex(key[..], hex);
    r := Ok(key[..]);
  }

  lemma SameHex(b: Bytes, hex: string)
    requires |hex| == 2 * |b|
    requires forall j :: 0 <= j < |b| ==> SpellsByte(hex[2 * j], hex[2 * j + 1], b[j])
    ensures Hex(b) == hex
  {
    hide SpellsByte, Hex;
    forall i | 0 <= i < |hex| ensures Hex(b)[i] == hex[i] {
      SameDigits(hex[2 * (i / 2)], hex[2 * (i / 2) + 1], Hex(b)[2 * (i / 2)], Hex(b)[2 * (i / 2) + 1], b[i / 2]);
      assert i == 2 * (i / 2) || i == 2 * (i / 2) + 1;
    }
  }

  lemma SameDigits(c: char, d: char, c': char, d': char, b: byte)
    requires SpellsByte(c, d, b) && SpellsByte(c', d', b)
    ensures c == c' && d == d'
  {
  }

  /** Two keys never share a hexadecimal form, so what decodes is what was encoded. */
  lemma HexInjective(a: Bytes, b: Bytes)
    requires Hex(a) == Hex(b)
    ensures a == b
  {
    forall i | 0 <= i < |a| ensures a[i] == b[i] {
      var c, d := Hex(a)[2 * i], Hex(a)[2 * i + 1];
      PackUndoesDigits(c, d, a[i]);
      PackUndoesDigits(c, d, b[i]);
    }
  }

  // ----- the file format -----

  function ObjectOf(r: Record): Object
  {
    map["id" := r.id, "sender" := r.sender, "created" := r.created, "body" := r.body]
  }

  /** item.value(name, ""). */
  function ValueOf(item: Object, name: string): string
  {
    if name in item then item[name] else ""
  }

  function RecordOf(item: Object): Record
  {
    Record(ValueOf(item, "id"), ValueOf(item, "sender"), ValueOf(item, "created"), ValueOf(item, "body"))
  }

  function Objects(records: seq<Record>): (r: seq<Object>)
    ensures |r| == |records| && forall i :: 0 <= i < |r| ==> r[i] == ObjectOf(records[i])
  {
    seq(|records|, i requires 0 <= i < |records| => ObjectOf(records[i]))
  }

  function Records(items: seq<Object>): (r: seq<Record>)
    ensures |r| == |items| && forall i :: 0 <= i < |r| ==> r[i] == RecordOf(items[i])
  {
    seq(|items|, i requires 0 <= i < |items| => RecordOf(items[i]))
  }

  /** magic | iv | tag | ciphertext, with the magic as associated data. */
  function Encode(lib: Library, key: Bytes, iv: Iv, records: seq<Record>): Bytes
  {
    var sealed := lib.encrypt(key, iv, lib.dump(Array(Objects(records))), MAGIC);
    MAGIC + iv + sealed.1 + sealed.0
  }

  datatype ArchiveError = TooShort | BadMagic | Unauthentic | NotJson | NotAnArray | IOError

  function Decode(lib: Library, key: Bytes, raw: Bytes): Result<seq<Record>, ArchiveError>
  {
    if |raw| < HEADER_LENGTH then Err(TooShort)
    else if raw[..|MAGIC|] != MAGIC then Err(BadMagic)
    else
      match lib.decrypt(key, raw[|MAGIC|..|MAGIC| + IV_LENGTH], raw[|MAGIC| + IV_LENGTH..HEADER_LENGTH],
                        raw[HEADER_LENGTH..], MAGIC)
      case None => Err(Unauthentic)
      case Some(plaintext) =>
        match lib.parse(plaintext)
        case None => Err(NotJson)
        case Some(Other) => Err(NotAnArray)
        case Some(Array(items)) => Ok(Records(items))
  }

  /** An archive that cannot be opened, because it is absent or because the open fails, reads as an empty one. */
  function Loaded(lib: Library, files: Files, path: Path, key: Bytes,
                  readFails: bool): Result<seq<Record>, ArchiveError>
  {
    if path in files && !readFails then Decode(lib, key, files[path]) else Ok([])
  }

  lemma Framing(iv: Iv, tag: Bytes, ciphertext: Bytes)
    requires |tag| == TAG_LENGTH
    ensures var raw := MAGIC + iv + tag + ciphertext;
            && |raw| >= HEADER_LENGTH && raw[..|MAGIC|] == MAGIC && raw[|MAGIC|..|MAGIC| + IV_LENGTH] == iv
            && raw[|MAGIC| + IV_LENGTH..HEADER_LENGTH] == tag && raw[HEADER_LENGTH..] == ciphertext
  {
  }

  /** The archive byte for byte: "ZBAR1" and a newline, the nonce, the tag and the ciphertext of the dumped array, in
      which each record is an object of its four fields. */
  lemma Layout(lib: Library, key: Bytes, iv: Iv, records: seq<Record>, items: seq<Object>)
    requires |lib.encrypt(key, iv, lib.dump(Array(items)), [90, 66, 65, 82, 49, 10]).1| == 16
    requires |items| == |records|
    requires forall i :: 0 <= i < |items| ==>
               && items[i].Keys == {"id", "sender", "created", "body"}
               && items[i]["id"] == records[i].id && items[i]["sender"] == records[i].sender
               && items[i]["created"] == records[i].created && items[i]["body"] == records[i].body
    ensures var raw := Encode(lib, key, iv, records);
            && |raw| >= 34 && raw[..6] == [90, 66, 65, 82, 49, 10] && raw[6..18] == iv
            && (raw[34..], raw[18..34]) == lib.encrypt(key, iv, lib.dump(Array(items)), [90, 66, 65, 82, 49, 10])
  {
    forall i | 0 <= i < |items| ensures items[i] == Objects(records)[i] {
      assert items[i].Keys == ObjectOf(records[i]).Keys;
    }
    assert items == Objects(records);
    var sealed := lib.encrypt(key, iv, lib.dump(Array(items)), MAGIC);
    Framing(iv, sealed.1, sealed.0);
  }

  /** A field that an item lacks reads as the empty string. */
  lemma FieldsOf(item: Object)
    ensures var r := RecordOf(item);
            && r.id == (if "id" in item then item["id"] else "")
            && r.sender == (if "sender" in item then item["sender"] else "")
            && r.created == (if "created" in item then item["created"] else "")
            && r.body == (if "body" in item then item["body"] else "")
  {
  }

  lemma RecordsOfObjects(records: seq<Record>)
    ensures Records(Objects(records)) == records
  {
  }

  /** Which check fails on bytes that are not an archive under the key. */
  lemma {:induction false} DecodeChecks(lib: Library, key: Bytes, raw: Bytes)
    ensures Decode(lib, key, raw) == Err(TooShort) <==> |raw| < 34
    ensures Decode(lib, key, raw) == Err(BadMagic) <==> |raw| >= 34 && raw[..6] != [90, 66, 65, 82, 49, 10]
    ensures |raw| >= 34 && raw[..6] == [90, 66, 65, 82, 49, 10] ==>
              var plaintext := lib.decrypt(key, raw[6..18], raw[18..34], raw[34..], raw[..6]);
              && (Decode(lib, key, raw) == Err(Unauthentic) <==> plaintext.None?)
              && (Decode(lib, key, raw) == Err(NotJson) <==> plaintext.Some? && lib.parse(plaintext.value).None?)
              && (Decode(lib, key, raw) == Err(NotAnArray)
                  <==> plaintext.Some? && lib.parse(plaintext.value) == Some(Other))
              && (Decode(lib, key, raw).Ok? <==>
                    plaintext.Some? && lib.parse(plaintext.value).Some? && lib.parse(plaintext.value).value.Array?)
  {
    hide Records;
  }

  /** What save wrote, load reads back under the same key, and refuses as unauthentic under any other. */
  lemma DecodeUndoesEncode(lib: Library, key: Bytes, other: Bytes, iv: Iv, records: seq<Record>)
    requires Lawful(lib) && RejectsOtherKeys(lib)
    ensures Decode(lib, other, Encode(lib, key, iv, records)) == if other == key then Ok(records) else Err(Unauthentic)
  {
    hide Records, Objects;
    var sealed := lib.encrypt(key, iv, lib.dump(Array(Objects(records))), MAGIC);
    Framing(iv, sealed.1, sealed.0);
    RecordsOfObjects(records);
  }

  // ----- the disk -----

  datatype WriteOutcome = Wrote(n: nat) | WriteFailed

  /** How the system calls of one command turn out: whether the archive, when it exists, opens for the probe of rekey
      and for load; and for save, whether there is randomness, and whether the temporary file opens, the i-th write(2)
      fails or takes some of what is left, at least one byte, and close, rename and unlink work. fsync is best effort:
      its failure is ignored. */
  datatype Fate = Fate(probeFails: bool, readFails: bool, iv: Option<Iv>, openFails: bool, writes: nat -> WriteOutcome,
                       closeFails: bool, renameFails: bool, unlinkFails: bool)

  function Taken(outcome: WriteOutcome, left: nat): (n: nat)
    requires outcome.Wrote? && left > 0
    ensures 1 <= n <= left && (1 <= outcome.n <= left ==> n == outcome.n)
  {
    if outcome.n < 1 then 1 else if outcome.n > left then left else outcome.n
  }

  /** The writes from the i-th on get `left` bytes through. */
  predicate WritesReach(writes: nat -> WriteOutcome, i: nat, left: nat)
    decreases left
  {
    left == 0 || (writes(i).Wrote? && WritesReach(writes, i + 1, left - Taken(writes(i), left)))
  }

  predicate Succeeds(lib: Library, key: Bytes, records: seq<Record>, fate: Fate)
  {
    fate.iv.Some? && !fate.openFails && WritesReach(fate.writes, 0, |Encode(lib, key, fate.iv.value, records)|)
    && !fate.closeFails && !fate.renameFails
  }

  function TempOf(path: Path): (tmp: Path)
    ensures tmp != path
  {
    assert |path + ".tmp"| == |path| + 4;
    path + ".tmp"
  }

  function At(files: Files, path: Path): Option<Bytes>
  {
    if path in files then Some(files[path]) else None
  }

  /** Nothing but the temporary file differs. */
  ghost predicate SameBut(files: Files, files': Files, tmp: Path)
  {
    forall p :: p != tmp ==> At(files', p) == At(files, p)
  }

  ghost predicate SaveEffect(files: Files, files': Files, path: Path, blob: Bytes, ok: bool)
  {
    if ok then files' == files[path := blob] - {TempOf(path)} else SameBut(files, files', TempOf(path))
  }

  /** A directory of files. trace is every state the disk has been in, as a reader or a crash would find it. */
  class Disk {
    var files: Files
    ghost var trace: seq<Files>

    constructor (files: Files)
      ensures this.files == files && trace == [files]
    {
      this.files := files;
      trace := [files];
    }

    /** open(tmp, O_WRONLY | O_CREAT | O_TRUNC). */
    method Truncate(tmp: Path, fails: bool) returns (fd: int)
      modifies this
      ensures fd < 0 <==> fails
      ensures files == if fails then old(files) else old(files)[tmp := []]
      ensures trace == old(trace) + [files]
    {
      fd := if fails then -1 else 3;
      files := if fails then files else files[tmp := []];
      trace := trace + [files];
    }

    method Write(tmp: Path, data: Bytes, outcome: WriteOutcome) returns (n: int)
      requires tmp in files && data != []
      modifies this
      ensures n < 0 <==> outcome.WriteFailed?
      ensures n >= 0 ==> n == Taken(outcome, |data|) && files == old(files)[tmp := old(files)[tmp] + data[..n]]
      ensures n < 0 ==> files == old(files)
      ensures trace == old(trace) + [files]
    {
      if outcome.WriteFailed? {
        n := -1;
      } else {
        n := Taken(outcome, |data|);
        files := files[tmp := files[tmp] + data[..n]];
      }
      trace := trace + [files];
    }

    method Unlink(tmp: Path, fails: bool)
      modifies this
      ensures files == if fails then old(files) else old(files) - {tmp}
      ensures trace == old(trace) + [files]
    {
      files := if fails then files else files - {tmp};
      trace := trace + [files];
    }

    method Rename(tmp: Path, path: Path, fails: bool) returns (ok: bool)
      requires tmp in files
      modifies this
      ensures ok == !fails
      ensures files == if fails then old(files) else old(files)[path := old(files)[tmp]] - {tmp}
      ensures trace == old(trace) + [files]
    {
      ok := !fails;
      files := if fails then files else files[path := files[tmp]] - {tmp};
      trace := trace + [files];
    }
  }

  /** Every state from number n on shows a reader of the archive the old bytes or the whole new blob. */
  ghost predicate WholeThroughout(trace: seq<Files>, n: nat, path: Path, before: Option<Bytes>, blob: Bytes)
  {
    forall i :: n <= i < |trace| ==> At(trace[i], path) == before || At(trace[i], path) == Some(blob)
  }

  method Save(lib: Library, disk: Disk, path: Path, key: Bytes, records: seq<Record>, fate: Fate)
    returns (r: Result<nat, ArchiveError>)
    modifies disk
    ensures r.Ok? <==> Succeeds(lib, key, records, fate)
    ensures r.Err? ==> r == Err(IOError)
    ensures var blob := if fate.iv.Some? then Encode(lib, key, fate.iv.value, records) else [];
            && SaveEffect(old(disk.files), disk.files, path, blob, r.Ok?)
            && old(disk.trace) <= disk.trace
            && WholeThroughout(disk.trace, |old(disk.trace)|, path, At(old(disk.files), path), blob)
  {
    var arr: seq<Object> := [];
    for i := 0 to |records|
      invariant arr == Objects(records[..i])
    {
      assert records[..i + 1] == records[..i] + [records[i]];
      arr := arr + [ObjectOf(records[i])];
    }
    assert records[..|records|] == records;
    if fate.iv.None? {
      return Err(IOError);
    }
    var iv := fate.iv.value;
    var sealed := lib.encrypt(key, iv, lib.dump(Array(arr)), MAGIC);
    var blob: Bytes := [];
    blob := blob + MAGIC;
    blob := blob + iv;
    blob := blob + sealed.1;
    blob := blob + sealed.0;
    assert blob == Encode(lib, key, iv, records);
    r := Replace(disk, path, blob, fate);
  }

  /** The write loop: until a write fails, what the temporary file holds is a prefix of the blob. */
  method WriteAll(disk: Disk, path: Path, tmp: Path, blob: Bytes, writes: nat -> WriteOutcome) returns (done: bool)
    requires tmp != path && At(disk.files, tmp) == Some([])
    modifies disk
    ensures done <==> WritesReach(writes, 0, |blob|)
    ensures exists written :: 0 <= written <= |blob| && disk.files == old(disk.files)[tmp := blob[..written]]
                              && (done ==> written == |blob|)
    ensures old(disk.trace) <= disk.trace
    ensures WholeThroughout(disk.trace, |old(disk.trace)|, path, At(old(disk.files), path), blob)
  {
    var written, calls := 0, 0;
    while written < |blob|
      invariant 0 <= written <= |blob|
      invariant disk.files == old(disk.files)[tmp := blob[..written]]
      invariant WritesReach(writes, 0, |blob|) <==> WritesReach(writes, calls, |blob| - written)
      invariant old(disk.trace) <= disk.trace
      invariant WholeThroughout(disk.trace, |old(disk.trace)|, path, At(old(disk.files), path), blob)
    {
      var n := disk.Write(tmp, blob[written..], writes(calls));
      if n < 0 {
        return false;
      }
      assert blob[..written] + blob[written..][..n] == blob[..written + n];
      written, calls := written + n, calls + 1;
    }
    done := true;
  }

  /** Write to the temporary file, then rename it over the target. */
  method Replace(disk: Disk, path: Path, blob: Bytes, fate: Fate) returns (r: Result<nat, ArchiveError>)
    modifies disk
    ensures r.Ok? <==> !fate.openFails && WritesReach(fate.writes, 0, |blob|) && !fate.closeFails && !fate.renameFails
    ensures r.Err? ==> r == Err(IOError)
    ensures SaveEffect(old(disk.files), disk.files, path, blob, r.Ok?)
    ensures old(disk.trace) <= disk.trace
    ensures WholeThroughout(disk.trace, |old(disk.trace)|, path, At(old(disk.files), path), blob)
  {
    hide WritesReach;
    var tmp := TempOf(path);
    var fd := disk.Truncate(tmp, fate.openFails);
    if fd < 0 {
      return Err(IOError);
    }
    var done := WriteAll(disk, path, tmp, blob, fate.writes);
    if !done {
      disk.Unlink(tmp, fate.unlinkFails);
      return Err(IOError);
    }
    assert blob[..|blob|] == blob;
    if fate.closeFails {
      return Err(IOError);
    }
    var renamed := disk.Rename(tmp, path, fate.renameFails);
    if !renamed {
      disk.Unlink(tmp, fate.unlinkFails);
      return Err(IOError);
    }
    r := Ok(|blob|);
  }

  method Load(lib: Library, disk: Disk, path: Path, key: Bytes, readFails: bool)
    returns (r: Result<seq<Record>, ArchiveError>)
    ensures r == Loaded(lib, disk.files, path, key, readFails)
  {
    if path !in disk.files || readFails {
      return Ok([]);
    }
    var raw := disk.files[path];
    if |raw| < HEADER_LENGTH {
      return Err(TooShort);
    }
    if raw[..|MAGIC|] != MAGIC {
      return Err(BadMagic);
    }
    var iv := raw[|MAGIC|..|MAGIC| + IV_LENGTH];
    var tag := raw[|MAGIC| + IV_LENGTH..HEADER_LENGTH];
    var plaintext := lib.decrypt(key, iv, tag, raw[HEADER_LENGTH..], MAGIC);
    if plaintext.None? {
      return Err(Unauthentic);
    }
    match lib.parse(plaintext.value) {
      case None => r := Err(NotJson);
      case Some(Other) => r := Err(NotAnArray);
      case Some(Array(items)) =>
        var records: seq<Record> := [];
        for i := 0 to |items|
          invariant records == Records(items[..i])
        {
          assert items[..i + 1] == items[..i] + [items[i]];
          records := records + [RecordOf(items[i])];
        }
        assert items[..|items|] == items;
        r := Ok(records);
    }
  }
}
