// The laws assumed of the libraries do not contradict one another: here is a
// (useless) cryptography that obeys all of them.
module LawsAreConsistent {
  import opened Wrappers
  import opened Encoding
  import opened Primitives
  import Archive

  /** n zeros and a one. */
  function Unary(n: nat): Bytes
  {
    if n == 0 then [1] else [0] + Unary(n - 1)
  }

  lemma {:induction false} UnaryPrefix(m: nat, n: nat, x: Bytes, y: Bytes)
    requires Unary(m) + x == Unary(n) + y
    ensures m == n && x == y
  {
    var l, r := Unary(m) + x, Unary(n) + y;
    assert l[0] == Unary(m)[0] && r[0] == Unary(n)[0];
    if m > 0 && n > 0 {
      assert l[1..] == Unary(m - 1) + x && r[1..] == Unary(n - 1) + y;
      UnaryPrefix(m - 1, n - 1, x, y);
    } else {
      assert l[1..] == x && r[1..] == y;
    }
  }

  lemma {:induction false} UnaryHasNoBar(n: nat)
    ensures BAR !in Unary(n) && Unary(n) != [] && Unary(n)[0] != BAR
  {
    if n > 0 {
      UnaryHasNoBar(n - 1);
    }
  }

  function EncodeChar(c: char): Bytes
  {
    if c == '|' then [BAR] else Unary(c as int)
  }

  function Encode(s: string): Bytes
  {
    if s == "" then [] else EncodeChar(s[0]) + Encode(s[1..])
  }

  lemma {:induction false} EncodeConcat(s: string, t: string)
    ensures Encode(s + t) == Encode(s) + Encode(t)
  {
    hide EncodeChar;
    if s == "" {
      assert s + t == t;
    } else {
      EncodeConcat(s[1..], t);
      var st := s + t;
      assert st[1..] == s[1..] + t && st[0] == s[0];
      assert Encode(st) == EncodeChar(s[0]) + (Encode(s[1..]) + Encode(t));
    }
  }

  lemma FirstChar(c: char, d: char, x: Bytes, y: Bytes)
    requires EncodeChar(c) + x == EncodeChar(d) + y
    ensures c == d && x == y
  {
    var l, r := EncodeChar(c) + x, EncodeChar(d) + y;
    UnaryHasNoBar(c as int);
    UnaryHasNoBar(d as int);
    assert l[0] == EncodeChar(c)[0] && r[0] == EncodeChar(d)[0];
    if c == '|' {
      assert l[1..] == x && r[1..] == y;
    } else {
      UnaryPrefix(c as int, d as int, x, y);
    }
  }

  lemma {:induction false} EncodeOneToOne(s: string, t: string)
    requires Encode(s) == Encode(t)
    ensures s == t
  {
    if s != "" {
      UnaryHasNoBar(s[0] as int);
    }
    if t != "" {
      UnaryHasNoBar(t[0] as int);
    }
    if s != "" && t != "" {
      FirstChar(s[0], t[0], Encode(s[1..]), Encode(t[1..]));
      EncodeOneToOne(s[1..], t[1..]);
      assert s == [s[0]] + s[1..] && t == [t[0]] + t[1..];
    }
  }

  lemma {:induction false} OnlyBarEncodesBar(s: string)
    requires BAR in Encode(s)
    ensures '|' in s
  {
    UnaryHasNoBar(s[0] as int);
    if s[0] != '|' {
      OnlyBarEncodesBar(s[1..]);
    }
  }

  ghost function Decode(b: Bytes): Option<string>
  {
    if exists s :: Encode(s) == b then var s :| Encode(s) == b; Some(s) else None
  }

  function SealUnder(k: Bytes, n: Bytes, t: Bytes, d: Bytes): Bytes
  {
    Unary(|k|) + (k + t)
  }

  ghost function Unseal(k: Bytes, n: Bytes, c: Bytes, d: Bytes): Option<Bytes>
  {
    if exists t :: SealUnder(k, n, t, d) == c then var t :| SealUnder(k, n, t, d) == c; Some(t) else None
  }

  lemma SealOneToOne(k: Bytes, t: Bytes, k': Bytes, t': Bytes, n: Bytes, d: Bytes)
    requires SealUnder(k, n, t, d) == SealUnder(k', n, t', d)
    ensures k == k' && t == t'
  {
    UnaryPrefix(|k|, |k'|, k + t, k' + t');
    var l, r := k + t, k' + t';
    assert k == l[..|k|] && k' == r[..|k|] && t == l[|k|..] && t' == r[|k|..];
  }

  // ----- maps of texts, as JSON objects -----

  /** Bytes that say how long they are. */
  function Framed(b: Bytes): Bytes
  {
    Unary(|b|) + b
  }

  lemma FirstFrame(a: Bytes, b: Bytes, x: Bytes, y: Bytes)
    requires Framed(a) + x == Framed(b) + y
    ensures a == b && x == y
  {
    assert Framed(a) + x == Unary(|a|) + (a + x) && Framed(b) + y == Unary(|b|) + (b + y);
    UnaryPrefix(|a|, |b|, a + x, b + y);
    var l, r := a + x, b + y;
    assert a == l[..|a|] && b == r[..|a|] && x == l[|a|..] && y == r[|a|..];
  }

  function FrameAll(bs: seq<Bytes>): Bytes
  {
    if bs == [] then [] else Framed(bs[0]) + FrameAll(bs[1..])
  }

  lemma {:induction false} FrameAllOneToOne(a: seq<Bytes>, b: seq<Bytes>)
    requires FrameAll(a) == FrameAll(b)
    ensures a == b
  {
    if a != [] {
      UnaryHasNoBar(|a[0]|);
    }
    if b != [] {
      UnaryHasNoBar(|b[0]|);
    }
    if a != [] && b != [] {
      FirstFrame(a[0], b[0], FrameAll(a[1..]), FrameAll(b[1..]));
      FrameAllOneToOne(a[1..], b[1..]);
      assert a == [a[0]] + a[1..] && b == [b[0]] + b[1..];
    }
  }

  /** The keys and values of a map, in some order. */
  ghost function Entries(m: map<string, string>): (r: seq<Bytes>)
    ensures m == map[] <==> r == []
    decreases |m|
  {
    if m == map[] then []
    else
      var k :| k in m;
      [Encode(k), Encode(m[k])] + Entries(m - {k})
  }

  lemma FirstKey(m: map<string, string>) returns (k: string)
    requires m != map[]
    ensures k in m && |m - {k}| < |m|
    ensures Entries(m) == [Encode(k), Encode(m[k])] + Entries(m - {k})
  {
    k :| k in m && Entries(m) == [Encode(k), Encode(m[k])] + Entries(m - {k});
  }

  lemma PutBack(m: map<string, string>, k: string, n: map<string, string>)
    requires k in m && k in n && m - {k} == n - {k} && m[k] == n[k]
    ensures m == n
  {
    assert m == (m - {k})[k := m[k]] && n == (n - {k})[k := n[k]];
  }

  lemma SamePairs(a: Bytes, b: Bytes, x: seq<Bytes>, c: Bytes, d: Bytes, y: seq<Bytes>)
    requires [a, b] + x == [c, d] + y
    ensures a == c && b == d && x == y
  {
    var l, r := [a, b] + x, [c, d] + y;
    assert a == l[0] && c == r[0] && b == l[1] && d == r[1] && x == l[2..] && y == r[2..];
  }

  lemma {:induction false} EntriesOneToOne(m: map<string, string>, n: map<string, string>)
    requires Entries(m) == Entries(n)
    ensures m == n
    decreases |m|
  {
    hide Entries, Encode;
    if m != map[] {
      var k := FirstKey(m);
      var l := FirstKey(n);
      SamePairs(Encode(k), Encode(m[k]), Entries(m - {k}), Encode(l), Encode(n[l]), Entries(n - {l}));
      EncodeOneToOne(k, l);
      EncodeOneToOne(m[k], n[l]);
      EntriesOneToOne(m - {k}, n - {l});
      PutBack(m, k, n);
    }
  }

  ghost function DumpMap(m: map<string, string>): Bytes
  {
    FrameAll(Entries(m))
  }

  ghost function ParseMap(b: Bytes): Option<map<string, string>>
  {
    if exists m :: DumpMap(m) == b then var m :| DumpMap(m) == b; Some(m) else None
  }

  lemma ParseUndoesDump(m: map<string, string>)
    ensures ParseMap(DumpMap(m)) == Some(m)
  {
    var n := ParseMap(DumpMap(m)).value;
    FrameAllOneToOne(Entries(n), Entries(m));
    EntriesOneToOne(n, m);
  }

  ghost function Toy(): Primitives
  {
    Primitives(TextCodec(s => Encode(s), b => Decode(b)),
               KeyExchange(a => a, (a, b) => Some([]), s => s),
               Aead((k, n, t, d) => SealUnder(k, n, t, d), (k, n, c, d) => Unseal(k, n, c, d)),
               Signing(sk => sk, (m, sk) => sk, (m, sig, pk) => Some(sig == pk)),
               Hashing(b => b),
               LocalStore((pw, salt) => salt, c => DumpMap(c), b => ParseMap(b)))
  }

  /** The laws every result rests on can all hold at once. */
  lemma {:induction false} LawfulPrimitivesExist()
    ensures Lawful(Toy()) && RejectsOtherKeys(Toy()) && LawfulJson(Toy())
  {
    var p := Toy();
    assert LawfulJson(p) by {
      forall c ensures p.local.parseCache(p.local.dumpCache(c)) == Some(c) {
        ParseUndoesDump(c);
      }
    }
    assert LawfulText(p) by {
      forall s, t ensures p.text.encode(s + t) == p.text.encode(s) + p.text.encode(t) {
        EncodeConcat(s, t);
      }
      forall s ensures p.text.decode(p.text.encode(s)) == Some(s) {
        EncodeOneToOne(s, Decode(Encode(s)).value);
      }
      forall s | BAR in p.text.encode(s) ensures '|' in s {
        OnlyBarEncodesBar(s);
      }
      assert Encode(BAR_STRING) == EncodeChar('|') + Encode("");
    }
    assert LawfulAead(p) by {
      forall k, n, t, d ensures p.aead.unseal(k, n, p.aead.seal(k, n, t, d), d) == Some(t) {
        SealOneToOne(k, t, k, Unseal(k, n, SealUnder(k, n, t, d), d).value, n, d);
      }
    }
    forall k, k', n, t, d | p.aead.unseal(k', n, p.aead.seal(k, n, t, d), d).Some? ensures k == k' {
      SealOneToOne(k, t, k', Unseal(k', n, SealUnder(k, n, t, d), d).value, n, d);
    }
  }

  // ----- the archive's libraries -----

  ghost function ItemBytes(items: seq<Archive.Object>): (r: seq<Bytes>)
    ensures |r| == |items| && forall i :: 0 <= i < |r| ==> r[i] == DumpMap(items[i])
  {
    seq(|items|, i requires 0 <= i < |items| => DumpMap(items[i]))
  }

  ghost function DumpJson(j: Archive.Json): Bytes
  {
    match j case Other => [2] case Array(items) => FrameAll(ItemBytes(items))
  }

  ghost function ParseJson(b: Bytes): Option<Archive.Json>
  {
    if exists j :: DumpJson(j) == b then var j :| DumpJson(j) == b; Some(j) else None
  }

  lemma NotOther(bs: seq<Bytes>)
    ensures FrameAll(bs) != [2]
  {
    if bs != [] {
      assert FrameAll(bs)[0] == Unary(|bs[0]|)[0];
    }
  }

  lemma DumpJsonOneToOne(j: Archive.Json, k: Archive.Json)
    requires DumpJson(j) == DumpJson(k)
    ensures j == k
  {
    match (j, k) {
      case (Array(a), Array(b)) =>
        FrameAllOneToOne(ItemBytes(a), ItemBytes(b));
        forall i | 0 <= i < |a| ensures a[i] == b[i] {
          assert ItemBytes(a)[i] == ItemBytes(b)[i];
          ParseUndoesDump(a[i]);
          ParseUndoesDump(b[i]);
        }
      case (Array(a), Other) => NotOther(ItemBytes(a));
      case (Other, Array(b)) => NotOther(ItemBytes(b));
      case (Other, Other) =>
    }
  }

  ghost function ToyLibrary(): Archive.Library
  {
    Archive.Library((k, iv, t, a) => (SealUnder(k, iv, t, a), seq(Archive.TAG_LENGTH, _ => 0)),
                    (k, iv, tag, c, a) => Unseal(k, iv, c, a), j => DumpJson(j), b => ParseJson(b))
  }

  /** So can the laws assumed of the archive's libraries. */
  lemma {:induction false} LawfulLibraryExists()
    ensures Archive.Lawful(ToyLibrary()) && Archive.RejectsOtherKeys(ToyLibrary())
  {
    var lib := ToyLibrary();
    forall k, iv, t, a
      ensures lib.decrypt(k, iv, lib.encrypt(k, iv, t, a).1, lib.encrypt(k, iv, t, a).0, a) == Some(t) {
      SealOneToOne(k, t, k, Unseal(k, iv, SealUnder(k, iv, t, a), a).value, iv, a);
    }
    forall j ensures lib.parse(lib.dump(j)) == Some(j) {
      DumpJsonOneToOne(j, ParseJson(DumpJson(j)).value);
    }
    forall k, k', iv, t, a | k != k'
      ensures lib.decrypt(k', iv, lib.encrypt(k, iv, t, a).1, lib.encrypt(k, iv, t, a).0, a) == None {
      if Unseal(k', iv, SealUnder(k, iv, t, a), a).Some? {
        SealOneToOne(k, t, k', Unseal(k', iv, SealUnder(k, iv, t, a), a).value, iv, a);
      }
    }
  }
}
