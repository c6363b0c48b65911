/** UTF-8 (RFC 3629, section 3) as text encoders apply it. */
module Utf8 {
  import opened Bytes

  function EncodeChar(c: char): (r: seq<Byte>)
    ensures 1 <= |r| <= 4
  {
    var u := c as int;
    if u < 0x80 then [u]
    else if u < 0x800 then [0xC0 + u / 64, 0x80 + u % 64]
    else if u < 0x10000 then [0xE0 + u / 4096, 0x80 + u / 64 % 64, 0x80 + u % 64]
    else [0xF0 + u / 262144, 0x80 + u / 4096 % 64, 0x80 + u / 64 % 64, 0x80 + u % 64]
  }

  function Encode(s: string): seq<Byte> {
    if s == "" then [] else EncodeChar(s[0]) + Encode(s[1..])
  }

  /** How long the character that starts with this octet is. */
  function Size(lead: Byte): nat {
    if lead < 0x80 then 1 else if lead < 0xE0 then 2 else if lead < 0xF0 then 3 else 4
  }

  /** The number a complete character denotes. */
  function Scalar(r: seq<Byte>): int
    requires 1 <= |r| <= 4
  {
    var low := (k: nat) requires k < |r| => r[k] as int - 0x80;
    if |r| == 1 then r[0]
    else if |r| == 2 then Pair(r[0] as int - 0xC0, low(1))
    else if |r| == 3 then Pair(Pair(r[0] as int - 0xE0, low(1)), low(2))
    else Pair(Pair(Pair(r[0] as int - 0xF0, low(1)), low(2)), low(3))
  }

  function Pair(high: int, low: int): int { 64 * high + low }

  lemma Split(u: nat)
    ensures Pair(u / 64, u % 64) == u && u / 64 / 64 == u / 4096 && u / 4096 / 64 == u / 262144
  {}

  lemma CharRoundTrip(c: char)
    ensures Size(EncodeChar(c)[0]) == |EncodeChar(c)| && Scalar(EncodeChar(c)) == c as int
  {
    var u := c as int;
    Split(u);
    Split(u / 64);
    Split(u / 4096);
  }

  /** Different texts have different encodings. */
  lemma {:induction false} EncodeInjective(s: string, t: string)
    requires Encode(s) == Encode(t)
    ensures s == t
  {
    if s != "" && t != "" {
      CharRoundTrip(s[0]);
      CharRoundTrip(t[0]);
      var n := |EncodeChar(s[0])|;
      assert Encode(s)[0] == EncodeChar(s[0])[0] && Encode(t)[0] == EncodeChar(t[0])[0];
      assert EncodeChar(s[0]) == Encode(s)[..n] == Encode(t)[..n] == EncodeChar(t[0]);
      assert Encode(s)[n..] == Encode(s[1..]) && Encode(t)[n..] == Encode(t[1..]);
      EncodeInjective(s[1..], t[1..]);
    }
  }
}
