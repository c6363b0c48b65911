/** The well-formed octet texts are exactly the encodings of texts. */
module ValidText {
  import opened Bytes
  import opened ProxyRelay
  import Utf8

  /** Octets as the proxy's bytes. */
  function AsText(data: seq<Byte>): (s: ProxyRelay.Bytes)
    ensures |s| == |data| && forall i :: 0 <= i < |s| ==> s[i] as int == data[i]
  {
    if data == [] then "" else [data[0] as char] + AsText(data[1..])
  }

  lemma AsTextOfConcat(a: seq<Byte>, b: seq<Byte>)
    ensures AsText(a + b) == AsText(a) + AsText(b)
  {
    assert forall i | 0 <= i < |a + b| :: AsText(a + b)[i] == (AsText(a) + AsText(b))[i];
  }

  lemma CharIsValid(c: char, rest: ProxyRelay.Bytes)
    ensures ValidUtf8(AsText(Utf8.EncodeChar(c)) + rest) <==> ValidUtf8(rest)
  {
    var r := Utf8.EncodeChar(c);
    var s := AsText(r) + rest;
    assert s[|r|..] == rest;
    Utf8.Split(c as int);
    Utf8.Split(c as int / 64);
    Utf8.Split(c as int / 4096);
  }

  lemma {:induction false} EncodedIsValid(t: string)
    ensures ValidUtf8(AsText(Utf8.Encode(t)))
  {
    if t != "" {
      EncodedIsValid(t[1..]);
      AsTextOfConcat(Utf8.EncodeChar(t[0]), Utf8.Encode(t[1..]));
      CharIsValid(t[0], AsText(Utf8.Encode(t[1..])));
    }
  }

  predicate Scalar(u: int) { 0 <= u < 0xd800 || 0xe000 <= u < 0x110000 }

  /** The scalar value at the front of a well-formed text, and how many bytes it takes. */
  function Front(s: ProxyRelay.Bytes): (r: (int, nat))
    requires s != "" && ValidUtf8(s)
    ensures 1 <= r.1 <= |s| && ValidUtf8(s[r.1..])
    ensures Scalar(r.0)
  {
    var b := s[0] as int;
    if b < 0x80 then (b, 1)
    else if b < 0xe0 then (64 * (b - 0xc0) + Low(s, 1), 2)
    else if b < 0xf0 then (64 * (64 * (b - 0xe0) + Low(s, 1)) + Low(s, 2), 3)
    else (64 * (64 * (64 * (b - 0xf0) + Low(s, 1)) + Low(s, 2)) + Low(s, 3), 4)
  }

  function Low(s: ProxyRelay.Bytes, i: nat): int
    requires i < |s|
  {
    s[i] as int - 0x80
  }

  lemma Digits(h: nat, l: nat)
    requires l < 64
    ensures (64 * h + l) / 64 == h && (64 * h + l) % 64 == l
  {}

  lemma TwoOctets(h: nat, a: nat)
    requires h < 32 && a < 64 && 64 * h + a >= 0x80
    ensures Utf8.EncodeChar((64 * h + a) as char) == [0xc0 + h, 0x80 + a]
  {
    Digits(h, a);
  }

  lemma ThreeOctets(h: nat, a: nat, b: nat)
    requires h < 16 && a < 64 && b < 64 && 64 * (64 * h + a) + b >= 0x800 && Scalar(64 * (64 * h + a) + b)
    ensures Utf8.EncodeChar((64 * (64 * h + a) + b) as char) == [0xe0 + h, 0x80 + a, 0x80 + b]
  {
    var u := 64 * (64 * h + a) + b;
    Utf8.Split(u);
    Digits(h, a);
    Digits(64 * h + a, b);
  }

  lemma FourOctets(h: nat, a: nat, b: nat, c: nat)
    requires h < 8 && a < 64 && b < 64 && c < 64 && 64 * (64 * (64 * h + a) + b) + c >= 0x10000
    requires Scalar(64 * (64 * (64 * h + a) + b) + c)
    ensures Utf8.EncodeChar((64 * (64 * (64 * h + a) + b) + c) as char) == [0xf0 + h, 0x80 + a, 0x80 + b, 0x80 + c]
  {
    var u := 64 * (64 * (64 * h + a) + b) + c;
    Utf8.Split(u);
    Utf8.Split(u / 64);
    Digits(h, a);
    Digits(64 * h + a, b);
    Digits(64 * (64 * h + a) + b, c);
  }

  /** The octets of the scalar value at the front. */
  lemma FrontOctets(s: ProxyRelay.Bytes)
    requires s != "" && ValidUtf8(s)
    ensures |Utf8.EncodeChar(Front(s).0 as char)| == Front(s).1
    ensures forall i :: 0 <= i < Front(s).1 ==> Utf8.EncodeChar(Front(s).0 as char)[i] == s[i] as int
  {
    var b := s[0] as int;
    if b < 0x80 {
    } else if b < 0xe0 {
      TwoOctets(b - 0xc0, Low(s, 1));
    } else if b < 0xf0 {
      ThreeOctets(b - 0xe0, Low(s, 1), Low(s, 2));
    } else {
      FourOctets(b - 0xf0, Low(s, 1), Low(s, 2), Low(s, 3));
    }
  }

  lemma FrontIsEncoded(s: ProxyRelay.Bytes)
    requires s != "" && ValidUtf8(s)
    ensures AsText(Utf8.EncodeChar(Front(s).0 as char)) == s[..Front(s).1]
  {
    FrontOctets(s);
  }

  lemma {:induction false} ValidIsEncoded(s: ProxyRelay.Bytes) returns (t: string)
    requires ValidUtf8(s)
    ensures AsText(Utf8.Encode(t)) == s
    decreases |s|
  {
    if s == "" { return ""; }
    var c := Front(s).0 as char;
    var rest := ValidIsEncoded(s[Front(s).1..]);
    t := [c] + rest;
    assert t[1..] == rest;
    FrontIsEncoded(s);
    AsTextOfConcat(Utf8.EncodeChar(c), Utf8.Encode(rest));
  }

  /** A text of bytes is well formed exactly if it encodes some text, and then it encodes just one. */
  lemma ValidIffEncoded(s: ProxyRelay.Bytes)
    ensures ValidUtf8(s) <==> exists t: string :: AsText(Utf8.Encode(t)) == s
    ensures forall t: string, u: string :: AsText(Utf8.Encode(t)) == s && AsText(Utf8.Encode(u)) == s ==> t == u
  {
    if ValidUtf8(s) { var t := ValidIsEncoded(s); }
    forall t: string | AsText(Utf8.Encode(t)) == s ensures ValidUtf8(s) { EncodedIsValid(t); }
    forall t: string, u: string | AsText(Utf8.Encode(t)) == s && AsText(Utf8.Encode(u)) == s ensures t == u {
      assert forall i | 0 <= i < |s| :: Utf8.Encode(t)[i] == s[i] as int && Utf8.Encode(u)[i] == s[i] as int;
      assert Utf8.Encode(t) == Utf8.Encode(u);
      Utf8.EncodeInjective(t, u);
    }
  }
}
