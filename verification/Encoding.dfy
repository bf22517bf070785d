// Byte strings, decimal rendering and the '|' delimiter on which the
// authenticated metadata and the signed payload are built.
module Encoding {
  newtype byte = x: int | 0 <= x < 256

  type Bytes = seq<byte>

  const BAR: byte := 124
  const BAR_STRING: string := "|"

  /** Python's f"{n}" for an int: decimal digits, with a leading '-' below zero. */
  function Decimal(n: int): string
  {
    if n < 0 then "-" + Digits(-n) else Digits(n)
  }

  function Digits(n: nat): string
  {
    if n < 10 then [Digit(n)] else Digits(n / 10) + [Digit(n % 10)]
  }

  function Digit(d: nat): char
    requires d < 10
  {
    ('0' as int + d) as char
  }

  ghost function Value(s: string): int
  {
    if s == "" then 0 else 10 * Value(s[..|s| - 1]) + s[|s| - 1] as int - '0' as int
  }

  ghost predicate AllDigits(s: string)
  {
    forall i :: 0 <= i < |s| ==> '0' <= s[i] <= '9'
  }

  lemma {:induction false} DigitsRoundTrip(n: nat)
    ensures Digits(n) != "" && AllDigits(Digits(n)) && Value(Digits(n)) == n
    ensures Digits(n)[0] == '0' ==> n == 0 && |Digits(n)| == 1
  {
    if n >= 10 {
      DigitsRoundTrip(n / 10);
      var s := Digits(n);
      assert s[..|s| - 1] == Digits(n / 10);
    } else {
      assert Digits(n)[..0] == "";
    }
  }

  /** A rendering shows the sign, holds no delimiter and no leading zero, and its digits, the most significant first,
      give the magnitude back. */
  lemma DecimalRoundTrip(n: int)
    ensures var s := Decimal(n);
            && '|' !in s && s != "" && (s[0] == '-' <==> n < 0)
            && Value(if n < 0 then s[1..] else s) == (if n < 0 then -n else n)
            && (s[if n < 0 then 1 else 0] == '0' ==> s == "0")
  {
    var digits := Digits(if n < 0 then -n else n);
    DigitsRoundTrip(if n < 0 then -n else n);
    assert n < 0 ==> Decimal(n)[1..] == digits;
    hide Digits, Value;
    assert '|' !in digits;
  }

  /** Two integers render alike only when they are equal, and a rendering never holds the delimiter. */
  lemma {:induction false} DecimalInjective(m: int, n: int)
    ensures Decimal(m) == Decimal(n) <==> m == n
    ensures '|' !in Decimal(m)
  {
    hide Decimal, Value;
    DecimalRoundTrip(m);
    DecimalRoundTrip(n);
  }

  ghost function BarIndex(s: Bytes): (i: nat)
    ensures i <= |s|
  {
    if s == [] || s[0] == BAR then 0 else 1 + BarIndex(s[1..])
  }

  lemma {:induction false} BarIndexAfter(a: Bytes, x: Bytes)
    requires BAR !in a
    ensures BarIndex(a + [BAR] + x) == |a|
  {
    if a != [] {
      BarIndexAfter(a[1..], x);
      assert (a + [BAR] + x)[1..] == a[1..] + [BAR] + x;
    }
  }

  /** A first field free of the delimiter can be split off again, whatever follows it. */
  lemma SplitAtBar(a: Bytes, x: Bytes, b: Bytes, y: Bytes)
    requires BAR !in a && BAR !in b
    requires a + [BAR] + x == b + [BAR] + y
    ensures a == b && x == y
  {
    var l, r := a + [BAR] + x, b + [BAR] + y;
    BarIndexAfter(a, x);
    BarIndexAfter(b, y);
    assert a == l[..|a|] && b == r[..|b|];
    assert x == l[|a| + 1..] && y == r[|b| + 1..];
  }
}
