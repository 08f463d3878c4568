/** Byte strings and the two textual renderings (`%d` and `%x`) that the map keys of the
    repository are built from. */
module Bytes {

  type byte = x: int | 0 <= x < 256

  datatype Option<+T> = None | Some(value: T)

  predicate IsDigit(c: char) {
    '0' <= c <= '9'
  }

  function Digit(d: nat): char
    requires d < 10
  {
    ('0' as int + d) as char
  }

  /** Go's `%d` for an unsigned number. */
  function Decimal(n: nat): string {
    if n < 10 then [Digit(n)] else Decimal(n / 10) + [Digit(n % 10)]
  }

  function HexDigit(d: nat): char
    requires d < 16
  {
    if d < 10 then Digit(d) else ('a' as int + d - 10) as char
  }

  /** Go's `%x` for a byte slice: two lower-case digits a byte, high half first. */
  function Hex(b: seq<byte>): string {
    seq(2 * |b|, i requires 0 <= i < 2 * |b| =>
      if i % 2 == 0 then HexDigit(b[i / 2] / 16) else HexDigit(b[i / 2] % 16))
  }

  predicate AllDigits(s: string) {
    forall i :: 0 <= i < |s| ==> IsDigit(s[i])
  }

  predicate StartsWithNonDigit(s: string) {
    s != "" ==> !IsDigit(s[0])
  }

  lemma {:induction false} DecimalIsDigits(n: nat)
    ensures |Decimal(n)| >= 1 && AllDigits(Decimal(n))
  {
    if n >= 10 {
      DecimalIsDigits(n / 10);
    }
  }

  lemma {:induction false} DecimalInjective(x: nat, y: nat)
    requires Decimal(x) == Decimal(y)
    ensures x == y
  {
    DecimalIsDigits(x / 10);
    DecimalIsDigits(y / 10);
    if x >= 10 && y >= 10 {
      var a, b := Decimal(x / 10), Decimal(y / 10);
      assert Decimal(x)[..|Decimal(x)| - 1] == a && Decimal(y)[..|Decimal(y)| - 1] == b;
      assert Decimal(x)[|a|] == Decimal(y)[|b|];
      DecimalInjective(x / 10, y / 10);
    }
  }

  /** If one of two equal texts starts with a longer run of digits, the other one goes on with a digit. */
  lemma DigitRunContinues(u: string, r: string, v: string, s: string)
    requires u + r == v + s && AllDigits(v)
    ensures |u| < |v| ==> r != "" && IsDigit(r[0])
  {
    if |u| < |v| {
      assert (u + r)[|u|] == v[|u|];
    }
  }

  /** A number is delimited by whatever non-digit (or end of text) follows it. */
  lemma DecimalPrefixUnique(x: nat, r: string, y: nat, s: string)
    requires Decimal(x) + r == Decimal(y) + s
    requires StartsWithNonDigit(r) && StartsWithNonDigit(s)
    ensures x == y && r == s
  {
    DecimalIsDigits(x);
    DecimalIsDigits(y);
    var u, v := Decimal(x), Decimal(y);
    DigitRunContinues(u, r, v, s);
    DigitRunContinues(v, s, u, r);
    assert u == (u + r)[..|u|] == v;
    assert r == (u + r)[|u|..] == s;
    DecimalInjective(x, y);
  }

  lemma HexInjective(a: seq<byte>, b: seq<byte>)
    requires Hex(a) == Hex(b)
    ensures a == b
  {
    assert |Hex(a)| == 2 * |a| && |Hex(b)| == 2 * |b|;
    forall i | 0 <= i < |a| ensures a[i] == b[i] {
      assert Hex(a)[2 * i] == Hex(b)[2 * i] && Hex(a)[2 * i + 1] == Hex(b)[2 * i + 1];
      assert a[i] == 16 * (a[i] / 16) + a[i] % 16 && b[i] == 16 * (b[i] / 16) + b[i] % 16;
    }
  }

  lemma HexConcat(a: seq<byte>, b: seq<byte>)
    ensures Hex(a + b) == Hex(a) + Hex(b)
  {
    forall i | 0 <= i < 2 * |a + b|
      ensures Hex(a + b)[i] == (Hex(a) + Hex(b))[i]
    {
      assert i < 2 * |a| <==> i / 2 < |a|;
    }
  }
}
