/** String helpers shared by the validators and the middleware: JavaScript's
    `Array.prototype.join`, its inverse, JavaScript string length (UTF-16 code
    units) and decimal digits. */
module Text {

  /** `parts.join(sep)`: the parts with one separator between neighbours. */
  function Join(parts: seq<string>, sep: char): (r: string)
    ensures |parts| == 1 ==> r == parts[0]
    ensures |parts| == 0 ==> r == ""
  {
    if |parts| == 0 then ""
    else if |parts| == 1 then parts[0]
    else parts[0] + [sep] + Join(parts[1..], sep)
  }

  /** `s.split(sep)`: the maximal separator-free pieces of `s`, in order. */
  function Split(s: string, sep: char): (r: seq<string>)
    ensures |r| >= 1
    ensures forall i :: 0 <= i < |r| ==> sep !in r[i]
  {
    if |s| == 0 then [""]
    else
      var rest := Split(s[1..], sep);
      if s[0] == sep then [""] + rest
      else [[s[0]] + rest[0]] + rest[1..]
  }

  /** A separator-free prefix joins the first piece of what follows it. */
  lemma {:induction false} SplitSeparatorFreePrefix(a: string, b: string, sep: char)
    requires sep !in a
    ensures Split(a + b, sep) == [a + Split(b, sep)[0]] + Split(b, sep)[1..]
  {
    if |a| == 0 {
      assert a + b == b;
      var r := Split(b, sep);
      assert r == [r[0]] + r[1..];
      assert a + r[0] == r[0];
    } else {
      SplitSeparatorFreePrefix(a[1..], b, sep);
      assert (a + b)[1..] == a[1..] + b;
      assert (a + b)[0] == a[0];
      assert [a[0]] + (a[1..] + Split(b, sep)[0]) == a + Split(b, sep)[0];
    }
  }

  /** Splitting a join gives the parts back, provided no part contains the
      separator and there is at least one part (`[].join` and `[""].join`
      are both the empty string). */
  lemma {:induction false} SplitJoin(parts: seq<string>, sep: char)
    requires |parts| >= 1
    requires forall i :: 0 <= i < |parts| ==> sep !in parts[i]
    ensures Split(Join(parts, sep), sep) == parts
  {
    if |parts| == 1 {
      SplitSeparatorFreePrefix(parts[0], "", sep);
      assert parts[0] + "" == parts[0];
    } else {
      var rest := parts[1..];
      SplitJoin(rest, sep);
      var tail := [sep] + Join(rest, sep);
      assert Join(parts, sep) == parts[0] + tail;
      SplitSeparatorFreePrefix(parts[0], tail, sep);
      assert tail[0] == sep;
      assert tail[1..] == Join(rest, sep);
      assert Split(tail, sep) == [""] + rest;
      assert parts[0] + "" == parts[0];
      assert ([""] + rest)[1..] == rest;
      assert parts == [parts[0]] + rest;
    }
  }

  /** Number of UTF-16 code units JavaScript uses for one character. */
  function Utf16Units(c: char): nat {
    if c as int > 0xFFFF then 2 else 1
  }

  /** JavaScript's `s.length`: characters outside the Basic Multilingual
      Plane are surrogate pairs and count twice. */
  function Utf16Length(s: string): (n: nat)
    ensures |s| <= n <= 2 * |s|
  {
    if |s| == 0 then 0 else Utf16Units(s[0]) + Utf16Length(s[1..])
  }

  /** No character needs a surrogate pair. */
  predicate InBasicPlane(s: string) {
    forall i :: 0 <= i < |s| ==> s[i] as int <= 0xFFFF
  }

  /** For text inside the Basic Multilingual Plane JavaScript's length is the
      number of characters. */
  lemma {:induction false} Utf16LengthBasicPlane(s: string)
    requires InBasicPlane(s)
    ensures Utf16Length(s) == |s|
  {
    if |s| > 0 {
      assert InBasicPlane(s[1..]) by {
        forall i | 0 <= i < |s[1..]| ensures s[1..][i] as int <= 0xFFFF {
          assert s[1..][i] == s[i + 1];
        }
      }
      Utf16LengthBasicPlane(s[1..]);
    }
  }

  predicate IsDigit(c: char) {
    '0' <= c <= '9'
  }

  predicate AllDigits(s: string) {
    forall i :: 0 <= i < |s| ==> IsDigit(s[i])
  }

  function DigitValue(c: char): nat
    requires IsDigit(c)
  {
    c as int - '0' as int
  }

  function Digit(d: nat): (c: char)
    requires d < 10
    ensures IsDigit(c) && DigitValue(c) == d
  {
    (48 + d) as char
  }

  /** The value of a decimal numeral (the empty numeral reads as 0). */
  function ParseNat(s: string): nat
    requires AllDigits(s)
  {
    if |s| == 0 then 0 else 10 * ParseNat(s[..|s| - 1]) + DigitValue(s[|s| - 1])
  }

  /** The decimal numeral of `n`, without leading zeros. */
  function NatToString(n: nat): (r: string)
    ensures |r| >= 1
    ensures AllDigits(r)
  {
    if n < 10 then [Digit(n)] else NatToString(n / 10) + [Digit(n % 10)]
  }

  lemma {:induction false} ParseNatToString(n: nat)
    ensures ParseNat(NatToString(n)) == n
  {
    if n >= 10 {
      ParseNatToString(n / 10);
      var s := NatToString(n);
      assert s[..|s| - 1] == NatToString(n / 10);
    }
  }
}
