/** Token lifetimes (src/utils/constants.ts) and the duration strings the
    JWT library reads: a decimal count followed by a unit, as the `ms`
    package parses them. */
module Constants {
  import opened Wrappers
  import opened Text

  /** The access-token lifetime string: equal to
      `TOKEN_SETTINGS.ACCESS.EXPIRES_IN_STRING` (src/utils/constants.ts:13)
      and to the literal `'10m'` that `generateJWT` passes to jwt.sign
      (src/service/auth.service.ts:49). */
  const AccessExpiresIn: string := "10m"

  /** `TOKEN_SETTINGS.ACCESS.MAX_AGE_MS`: ten minutes. */
  const AccessMaxAgeMs: nat := 10 * 60 * 1000

  /** `TOKEN_SETTINGS.REFRESH.MAX_AGE_MS`: thirty days. */
  const RefreshMaxAgeMs: nat := 30 * 24 * 60 * 60 * 1000

  /** Milliseconds per unit for the short unit names of the `ms` package;
      a bare number is milliseconds. */
  function UnitMs(unit: string): Option<nat> {
    if unit == "" || unit == "ms" then Some(1)
    else if unit == "s" then Some(1000)
    else if unit == "m" then Some(60 * 1000)
    else if unit == "h" then Some(60 * 60 * 1000)
    else if unit == "d" then Some(24 * 60 * 60 * 1000)
    else if unit == "w" then Some(7 * 24 * 60 * 60 * 1000)
    else None
  }

  /** Length of the longest all-digit prefix of `s`. */
  function DigitPrefix(s: string): (k: nat)
    ensures k <= |s|
    ensures AllDigits(s[..k])
    ensures k < |s| ==> !IsDigit(s[k])
  {
    if |s| == 0 || !IsDigit(s[0]) then 0
    else
      var k := 1 + DigitPrefix(s[1..]);
      assert s[..k] == [s[0]] + s[1..][..k - 1];
      k
  }

  lemma {:induction false} DigitPrefixOfNumeral(digits: string, rest: string)
    requires AllDigits(digits)
    requires |rest| > 0 && !IsDigit(rest[0])
    ensures DigitPrefix(digits + rest) == |digits|
  {
    if |digits| > 0 {
      DigitPrefixOfNumeral(digits[1..], rest);
      assert (digits + rest)[1..] == digits[1..] + rest;
    } else {
      assert digits + rest == rest;
    }
  }

  /** A duration string in milliseconds: digits then a unit; None when the
      string is not of that form. */
  function DurationMs(s: string): Option<nat> {
    var k := DigitPrefix(s);
    if k == 0 then None
    else
      match UnitMs(s[k..])
      case None => None
      case Some(unit) => Some(ParseNat(s[..k]) * unit)
  }

  /** `"<n>m"` is n minutes. */
  lemma MinutesDuration(n: nat)
    ensures DurationMs(NatToString(n) + "m") == Some(n * 60 * 1000)
  {
    var digits := NatToString(n);
    var s := digits + "m";
    DigitPrefixOfNumeral(digits, "m");
    assert s[..|digits|] == digits;
    assert s[|digits|..] == "m";
    ParseNatToString(n);
  }

  /** The JWT lifetime string and the access cookie's max age agree, and
      both are 600000 ms. */
  lemma AccessLifetimeAgrees()
    ensures DurationMs(AccessExpiresIn) == Some(AccessMaxAgeMs)
    ensures AccessMaxAgeMs == 600000
  {
    assert NatToString(10) == "10";
    MinutesDuration(10);
    assert NatToString(10) + "m" == AccessExpiresIn;
  }

  /** Thirty days in milliseconds, which is 4320 access lifetimes. */
  lemma RefreshLifetime()
    ensures RefreshMaxAgeMs == 2592000000
    ensures RefreshMaxAgeMs == 4320 * AccessMaxAgeMs
  {
  }
}
