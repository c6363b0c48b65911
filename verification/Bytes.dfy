/** Octets, words and addresses, and the two lower-case hexadecimal digits each octet is written with. The
    digits of a sequence of octets are those of its members one after the other; pairs of digits are read back
    the same way. */
module Bytes {

  type Byte = b: nat | b < 256

  function Zeros(n: nat): (z: seq<Byte>)
    ensures |z| == n && forall i :: 0 <= i < n ==> z[i] == 0
  {
    if n == 0 then [] else [0] + Zeros(n - 1)
  }

  /** An account or contract address. */
  type Address20 = a: seq<Byte> | |a| == 20 witness Zeros(20)

  /** A 256-bit word, most significant octet first. */
  type Word = w: seq<Byte> | |w| == 32 witness Zeros(32)

  const HEX_CHARS := "0123456789abcdef"

  function HexDigit(d: nat): (c: char)
    requires d < 16
  {
    HEX_CHARS[d]
  }

  function HexPair(b: Byte): (s: string)
    ensures |s| == 2
  {
    [HexDigit(b / 16), HexDigit(b % 16)]
  }

  function Hex(data: seq<Byte>): (s: string)
    ensures |s| == 2 * |data|
  {
    if data == [] then "" else HexPair(data[0]) + Hex(data[1..])
  }

  predicate IsHexDigit(c: char) { '0' <= c <= '9' || 'a' <= c <= 'f' }

  function HexValue(c: char): (d: nat)
    requires IsHexDigit(c)
    ensures d < 16
  {
    if c <= '9' then c as int - '0' as int else 10 + (c as int - 'a' as int)
  }

  /** The octets that pairs of digits denote; an odd digit at the end denotes nothing. */
  function FromHex(s: string): (data: seq<Byte>)
    requires forall c :: c in s ==> IsHexDigit(c)
  {
    if |s| < 2 then [] else [16 * HexValue(s[0]) + HexValue(s[1])] + FromHex(s[2..])
  }

  lemma DigitRoundTrip(d: nat)
    requires d < 16
    ensures IsHexDigit(HexDigit(d)) && HexValue(HexDigit(d)) == d
  {}

  lemma {:induction false} HexIsDigits(data: seq<Byte>)
    ensures forall c :: c in Hex(data) ==> IsHexDigit(c)
  {
    if data != [] {
      HexIsDigits(data[1..]);
      DigitRoundTrip(data[0] / 16);
      DigitRoundTrip(data[0] % 16);
    }
  }

  /** The digits decode back to the octets. */
  lemma {:induction false} HexRoundTrip(data: seq<Byte>)
    ensures (forall c :: c in Hex(data) ==> IsHexDigit(c)) && FromHex(Hex(data)) == data
  {
    HexIsDigits(data);
    if data != [] {
      HexRoundTrip(data[1..]);
      DigitRoundTrip(data[0] / 16);
      DigitRoundTrip(data[0] % 16);
      assert Hex(data)[2..] == Hex(data[1..]);
    }
  }

  lemma {:induction false} HexOfConcat(a: seq<Byte>, b: seq<Byte>)
    ensures Hex(a + b) == Hex(a) + Hex(b)
  {
    if a == [] {
      assert a + b == b;
    } else {
      HexOfConcat(a[1..], b);
      assert (a + b)[1..] == a[1..] + b;
      assert HexPair(a[0]) + (Hex(a[1..]) + Hex(b)) == HexPair(a[0]) + Hex(a[1..]) + Hex(b);
    }
  }

  lemma HexInjective(a: seq<Byte>, b: seq<Byte>)
    requires Hex(a) == Hex(b)
    ensures a == b
  {
    HexRoundTrip(a);
    HexRoundTrip(b);
  }

  /** The i-th octet's digits stand at 2i and 2i + 1. */
  lemma {:induction false} HexAt(data: seq<Byte>, i: nat)
    requires i < |data|
    ensures Hex(data)[2 * i] == HexDigit(data[i] / 16) && Hex(data)[2 * i + 1] == HexDigit(data[i] % 16)
  {
    if i > 0 { HexAt(data[1..], i - 1); }
  }
}
