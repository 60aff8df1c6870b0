/** Node's `Buffer.toString('hex')`: two lower-case hexadecimal digits per
    byte, high nibble first, and the decoder it is inverse to. */
module Hex {
  import opened Wrappers

  type byte = b: int | 0 <= b < 256

  const HexDigits: string := "0123456789abcdef"

  predicate IsHexDigit(c: char) {
    '0' <= c <= '9' || 'a' <= c <= 'f'
  }

  function NibbleChar(n: nat): (c: char)
    requires n < 16
    ensures IsHexDigit(c)
  {
    HexDigits[n]
  }

  /** The value of one lower-case hex digit; upper case is not produced by
      the encoder and is rejected. */
  function NibbleValue(c: char): (r: Option<nat>)
    ensures r.Some? <==> IsHexDigit(c)
    ensures r.Some? ==> r.value < 16
  {
    if '0' <= c <= '9' then Some(c as int - '0' as int)
    else if 'a' <= c <= 'f' then Some(c as int - 'a' as int + 10)
    else None
  }

  lemma NibbleRoundTrip(n: nat)
    requires n < 16
    ensures NibbleValue(NibbleChar(n)) == Some(n)
  {
  }

  /** `buffer.toString('hex')`. */
  function HexEncode(bytes: seq<byte>): (r: string)
    ensures |r| == 2 * |bytes|
    ensures forall i :: 0 <= i < |r| ==> IsHexDigit(r[i])
  {
    if |bytes| == 0 then ""
    else [NibbleChar(bytes[0] / 16), NibbleChar(bytes[0] % 16)] + HexEncode(bytes[1..])
  }

  /** `Buffer.from(s, 'hex')` restricted to well-formed input: None unless
      `s` has even length and only lower-case hex digits. */
  function HexDecode(s: string): (r: Option<seq<byte>>)
    ensures r.Some? ==> 2 * |r.value| == |s|
    decreases |s|
  {
    if |s| == 0 then Some([])
    else if |s| == 1 then None
    else
      match (NibbleValue(s[0]), NibbleValue(s[1]), HexDecode(s[2..]))
      case (Some(hi), Some(lo), Some(rest)) => Some([16 * hi + lo] + rest)
      case _ => None
  }

  /** A byte is its high nibble times sixteen plus its low nibble. */
  lemma ByteNibbles(b: byte)
    ensures 16 * (b / 16) + b % 16 == b
  {
  }

  /** Decoding two digits in front of a decodable string. */
  lemma DecodeCons(hi: nat, lo: nat, t: string, rest: seq<byte>)
    requires hi < 16 && lo < 16
    requires HexDecode(t) == Some(rest)
    ensures HexDecode([NibbleChar(hi), NibbleChar(lo)] + t) == Some([16 * hi + lo] + rest)
  {
    var s := [NibbleChar(hi), NibbleChar(lo)] + t;
    NibbleRoundTrip(hi);
    NibbleRoundTrip(lo);
    assert s[2..] == t;
  }

  /** Decoding an encoding gives back the bytes. */
  lemma {:induction false} HexRoundTrip(bytes: seq<byte>)
    ensures HexDecode(HexEncode(bytes)) == Some(bytes)
  {
    if |bytes| > 0 {
      var b := bytes[0];
      HexRoundTrip(bytes[1..]);
      DecodeCons(b / 16, b % 16, HexEncode(bytes[1..]), bytes[1..]);
      ByteNibbles(b);
      assert bytes == [b] + bytes[1..];
    }
  }

  /** Distinct byte strings never share an encoding. */
  lemma HexEncodeInjective(a: seq<byte>, b: seq<byte>)
    requires HexEncode(a) == HexEncode(b)
    ensures a == b
  {
    HexRoundTrip(a);
    HexRoundTrip(b);
  }
}
