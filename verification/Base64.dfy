/** Base64 and base64url (sections 4 and 5 of RFC 4648): six-bit groups, the two alphabets, and the three
    readers the token meets: the issuer's own, which skips what it does not know, the client's, which swaps the
    alphabet and pads, and the strict decoder behind that. */
module Base64 {
  import opened Bytes
  import opened Optional

  type Sextet = x: nat | x < 64

  /** The six-bit groups of the octets; a last partial group is filled with zero bits. */
  function Sextets(data: seq<Byte>): (s: seq<Sextet>)
    ensures |s| % 4 != 1
    ensures |s| == (4 * |data| + 2) / 3
  {
    if data == [] then []
    else if |data| == 1 then [data[0] / 4, data[0] % 4 * 16]
    else if |data| == 2 then [data[0] / 4, data[0] % 4 * 16 + data[1] / 16, data[1] % 16 * 4]
    else Quad(data[0], data[1], data[2]) + Sextets(data[3..])
  }

  function Quad(a: Byte, b: Byte, c: Byte): (s: seq<Sextet>)
    ensures |s| == 4
  {
    [a / 4, a % 4 * 16 + b / 16, b % 16 * 4 + c / 64, c % 64]
  }

  function First(x: nat, y: nat): Byte
    requires x < 64 && y < 64
  {
    x * 4 + y / 16
  }

  function Second(x: nat, y: nat): Byte
    requires x < 64 && y < 64
  {
    x % 16 * 16 + y / 4
  }

  function Third(x: nat, y: nat): Byte
    requires x < 64 && y < 64
  {
    x % 4 * 64 + y
  }

  /** The whole octets in the groups; bits left over are dropped. */
  function Octets(s: seq<Sextet>): seq<Byte> {
    if |s| < 2 then []
    else if |s| == 2 then [First(s[0], s[1])]
    else if |s| == 3 then [First(s[0], s[1]), Second(s[1], s[2])]
    else [First(s[0], s[1]), Second(s[1], s[2]), Third(s[2], s[3])] + Octets(s[4..])
  }

  lemma QuadRoundTrip(a: Byte, b: Byte, c: Byte)
    ensures var s := Quad(a, b, c); First(s[0], s[1]) == a && Second(s[1], s[2]) == b && Third(s[2], s[3]) == c
  {}

  lemma {:induction false} SextetsRoundTrip(data: seq<Byte>)
    ensures Octets(Sextets(data)) == data
  {
    if |data| >= 3 {
      QuadRoundTrip(data[0], data[1], data[2]);
      SextetsRoundTrip(data[3..]);
      assert Sextets(data)[4..] == Sextets(data[3..]);
      assert data == [data[0], data[1], data[2]] + data[3..];
    }
  }

  // ---------------------------------------------------------------- alphabets

  function LetterOf(x: Sextet): char
    requires x < 62
  {
    if x < 26 then ('A' as int + x) as char
    else if x < 52 then ('a' as int + (x - 26)) as char
    else ('0' as int + (x - 52)) as char
  }

  function UrlChar(x: Sextet): char { if x == 62 then '-' else if x == 63 then '_' else LetterOf(x) }

  function StandardChar(x: Sextet): char { if x == 62 then '+' else if x == 63 then '/' else LetterOf(x) }

  function LetterValue(c: char): Option<Sextet> {
    if 'A' <= c <= 'Z' then Some(c as int - 'A' as int)
    else if 'a' <= c <= 'z' then Some(26 + (c as int - 'a' as int))
    else if '0' <= c <= '9' then Some(52 + (c as int - '0' as int))
    else None
  }

  function StandardValue(c: char): Option<Sextet> {
    if c == '+' then Some(62) else if c == '/' then Some(63) else LetterValue(c)
  }

  /** Either alphabet, as the Node.js reader takes them. */
  function AnyValue(c: char): Option<Sextet> {
    if c == '-' then Some(62) else if c == '_' then Some(63) else StandardValue(c)
  }

  lemma ValueOfChar(x: Sextet)
    ensures StandardValue(StandardChar(x)) == Some(x) && AnyValue(UrlChar(x)) == Some(x)
    ensures UrlChar(x) !in {'.', '=', '+', '/', '\r'} && StandardChar(x) !in {'.', '='}
  {}

  function UrlText(s: seq<Sextet>): (t: string)
    ensures |t| == |s| && forall i :: 0 <= i < |s| ==> t[i] == UrlChar(s[i])
  {
    if s == [] then "" else [UrlChar(s[0])] + UrlText(s[1..])
  }

  /** `toString("base64url")`: no padding. */
  function Encode(data: seq<Byte>): (t: string)
    ensures |t| % 4 != 1 && (t == "" <==> data == [])
  {
    UrlText(Sextets(data))
  }

  lemma EncodeAlphabet(data: seq<Byte>)
    ensures forall c :: c in Encode(data) ==> c !in {'.', '=', '+', '/', '\r'}
  {
    forall c | c in Encode(data) ensures c !in {'.', '=', '+', '/', '\r'} {
      var i :| 0 <= i < |Encode(data)| && Encode(data)[i] == c;
      ValueOfChar(Sextets(data)[i]);
    }
  }

  // ---------------------------------------------------------------- the lenient reader

  /** `Buffer.from(text, "base64url")`: reads up to a padding sign and skips what is in neither alphabet. */
  function LenientSextets(t: string): seq<Sextet> {
    if t == "" || t[0] == '=' then []
    else if AnyValue(t[0]).Some? then [AnyValue(t[0]).value] + LenientSextets(t[1..])
    else LenientSextets(t[1..])
  }

  function LenientDecode(t: string): seq<Byte> { Octets(LenientSextets(t)) }

  lemma {:induction false} LenientReadsUrlText(s: seq<Sextet>)
    ensures LenientSextets(UrlText(s)) == s
  {
    if s != [] {
      ValueOfChar(s[0]);
      LenientReadsUrlText(s[1..]);
      assert UrlText(s)[1..] == UrlText(s[1..]);
    }
  }

  /** The encoding decodes to the octets. */
  lemma LenientRoundTrip(data: seq<Byte>)
    ensures LenientDecode(Encode(data)) == data
  {
    LenientReadsUrlText(Sextets(data));
    SextetsRoundTrip(data);
  }

  // ---------------------------------------------------------------- the strict reader

  function StrictSextets(t: string): Option<seq<Sextet>> {
    if t == "" then Some([])
    else if StandardValue(t[0]).Some? && StrictSextets(t[1..]).Some? then
      Some([StandardValue(t[0]).value] + StrictSextets(t[1..]).value)
    else None
  }

  /** `t` without up to two padding signs at its end. */
  function Unpadded(t: string): string {
    if |t| >= 2 && t[|t| - 2..] == "==" then t[..|t| - 2]
    else if t != "" && t[|t| - 1] == '=' then t[..|t| - 1]
    else t
  }

  /** `Data(base64Encoded:)`: the standard alphabet, whole groups of four, padding only at the end. */
  function StrictDecode(t: string): Option<seq<Byte>> {
    if |t| % 4 != 0 || StrictSextets(Unpadded(t)).None? then None
    else Some(Octets(StrictSextets(Unpadded(t)).value))
  }

  function Swapped(t: string): (r: string)
    ensures |r| == |t|
  {
    if t == "" then "" else [if t[0] == '-' then '+' else if t[0] == '_' then '/' else t[0]] + Swapped(t[1..])
  }

  function Padded(t: string): string {
    t + if |t| % 4 == 2 then "==" else if |t| % 4 == 3 then "=" else if |t| % 4 == 1 then "===" else ""
  }

  lemma SwappedChar(x: Sextet)
    ensures StandardChar(x) == if UrlChar(x) == '-' then '+' else if UrlChar(x) == '_' then '/' else UrlChar(x)
  {}

  lemma {:induction false} StrictReadsSwapped(s: seq<Sextet>)
    ensures StrictSextets(Swapped(UrlText(s))) == Some(s)
    ensures forall c :: c in Swapped(UrlText(s)) ==> c != '='
  {
    if s != [] {
      ValueOfChar(s[0]);
      StrictReadsSwapped(s[1..]);
      assert UrlText(s)[1..] == UrlText(s[1..]);
      assert Swapped(UrlText(s)) == [StandardChar(s[0])] + Swapped(UrlText(s[1..])) by { SwappedChar(s[0]); }
      assert [s[0]] + s[1..] == s;
    }
  }

  lemma UnpaddedPadded(t: string)
    requires |t| % 4 != 1 && forall c :: c in t ==> c != '='
    ensures Unpadded(Padded(t)) == t && |Padded(t)| % 4 == 0
  {
    var p := Padded(t);
    if |t| % 4 == 2 {
      assert p[|p| - 2..] == "==";
    } else if |t| % 4 == 3 {
      assert p[|p| - 1] == '=' && p[|p| - 2] == t[|t| - 1] && t[|t| - 1] in t;
    } else if t != "" {
      assert p == t && t[|t| - 1] in t;
    }
  }

  /** Swapping the alphabet and padding the encoding gives the strict reader the same octets, whatever
      their number. */
  lemma StrictRoundTrip(data: seq<Byte>)
    ensures StrictDecode(Padded(Swapped(Encode(data)))) == Some(data)
  {
    StrictReadsSwapped(Sextets(data));
    UnpaddedPadded(Swapped(Encode(data)));
    SextetsRoundTrip(data);
  }

  /** Without padding signs of its own, a text is read after padding exactly if its length leaves no single
      character over and every character is of the alphabet. */
  lemma StrictReadsIff(t: string)
    requires '=' !in t
    ensures StrictDecode(Padded(t)).Some? <==> |t| % 4 != 1 && forall i :: 0 <= i < |t| ==> StandardValue(t[i]).Some?
  {
    StrictSextetsIff(t);
    if |t| % 4 == 1 {
      var p := Padded(t);
      assert p == t + "===" && p[|p| - 2..] == "==";
      assert Unpadded(p) == t + "=";
      StrictSextetsIff(t + "=");
      assert (t + "=")[|t|] == '=';
    } else {
      UnpaddedPadded(t);
    }
  }

  lemma {:induction false} StrictSextetsIff(t: string)
    ensures StrictSextets(t).Some? <==> forall i :: 0 <= i < |t| ==> StandardValue(t[i]).Some?
  {
    if t != "" {
      StrictSextetsIff(t[1..]);
      assert forall i :: 1 <= i < |t| ==> t[i] == t[1..][i - 1];
      assert forall i :: 0 <= i < |t| - 1 ==> t[1..][i] == t[i + 1];
    }
  }

  // ---------------------------------------------------------------- the number written

  /** The number read so far, continued with more digits to the base. */
  function Continued(start: nat, digits: seq<nat>, base: nat): nat
    decreases |digits|
  {
    if digits == [] then start else Continued(start * base + digits[0], digits[1..], base)
  }

  lemma OneDigit(start: nat, digit: nat, rest: seq<nat>, base: nat)
    ensures Continued(start, [digit] + rest, base) == Continued(start * base + digit, rest, base)
  {
    assert ([digit] + rest)[1..] == rest;
  }

  lemma FourDigits(start: nat, a: nat, b: nat, c: nat, d: nat, rest: seq<nat>)
    ensures Continued(start, [a, b, c, d] + rest, 64)
         == Continued((((start * 64 + a) * 64 + b) * 64 + c) * 64 + d, rest, 64)
  {
    assert [a, b, c, d] + rest == [a] + ([b] + ([c] + ([d] + rest)));
    OneDigit(start, a, [b] + ([c] + ([d] + rest)), 64);
    OneDigit(start * 64 + a, b, [c] + ([d] + rest), 64);
    OneDigit((start * 64 + a) * 64 + b, c, [d] + rest, 64);
    OneDigit(((start * 64 + a) * 64 + b) * 64 + c, d, rest, 64);
  }

  lemma ThreeDigits(start: nat, a: nat, b: nat, c: nat, rest: seq<nat>, base: nat)
    ensures Continued(start, [a, b, c] + rest, base)
         == Continued(((start * base + a) * base + b) * base + c, rest, base)
  {
    assert [a, b, c] + rest == [a] + ([b] + ([c] + rest));
    OneDigit(start, a, [b] + ([c] + rest), base);
    OneDigit(start * base + a, b, [c] + rest, base);
    OneDigit((start * base + a) * base + b, c, rest, base);
  }

  lemma TwoDigits(start: nat, a: nat, b: nat, base: nat)
    ensures Continued(start, [a, b], base) == (start * base + a) * base + b
  {
    assert [a, b] == [a] + ([b] + []);
    OneDigit(start, a, [b] + [], base);
    OneDigit(start * base + a, b, [], base);
  }

  lemma QuadNumber(start: nat, a: Byte, b: Byte, c: Byte)
    ensures
      var q := Quad(a, b, c);
      (((start * 64 + q[0]) * 64 + q[1]) * 64 + q[2]) * 64 + q[3] == ((start * 256 + a) * 256 + b) * 256 + c
  {}

  lemma GroupNumber(start: nat, q: seq<nat>, rest: seq<nat>, next: nat)
    requires |q| == 4 && (((start * 64 + q[0]) * 64 + q[1]) * 64 + q[2]) * 64 + q[3] == next
    ensures Continued(start, q + rest, 64) == Continued(next, rest, 64)
  {
    FourDigits(start, q[0], q[1], q[2], q[3], rest);
    assert q == [q[0], q[1], q[2], q[3]];
  }

  lemma OctetNumber(start: nat, d: seq<nat>, rest: seq<nat>, next: nat)
    requires |d| == 3 && ((start * 256 + d[0]) * 256 + d[1]) * 256 + d[2] == next
    ensures Continued(start, d + rest, 256) == Continued(next, rest, 256)
  {
    ThreeDigits(start, d[0], d[1], d[2], rest, 256);
    assert d == [d[0], d[1], d[2]];
  }

  /** Both numbers go on from the same one after a whole group. */
  lemma WholeGroup(data: seq<Byte>, start: nat) returns (next: nat)
    requires |data| >= 3
    ensures Continued(start, Sextets(data), 64) == Continued(next, Sextets(data[3..]), 64)
    ensures Continued(start, data, 256) == Continued(next, data[3..], 256)
  {
    next := ((start * 256 + data[0]) * 256 + data[1]) * 256 + data[2];
    QuadNumber(start, data[0], data[1], data[2]);
    GroupNumber(start, Quad(data[0], data[1], data[2]), Sextets(data[3..]), next);
    OctetNumber(start, data[..3], data[3..], next);
    assert data == data[..3] + data[3..];
  }

  lemma TwoOctets(start: nat, a: Byte, b: Byte)
    ensures Continued(start, Sextets([a, b]), 64) == Continued(start, [a, b], 256) * 4
  {
    ThreeDigits(start, a / 4, a % 4 * 16 + b / 16, b % 16 * 4, [], 64);
    assert [a / 4, a % 4 * 16 + b / 16, b % 16 * 4] + [] == Sextets([a, b]);
    TwoDigits(start, a, b, 256);
  }

  lemma OneOctet(start: nat, a: Byte)
    ensures Continued(start, Sextets([a]), 64) == Continued(start, [a], 256) * 16
  {
    TwoDigits(start, a / 4, a % 4 * 16, 64);
    assert [a] == [a] + [];
    OneDigit(start, a, [], 256);
  }

  /** How many times larger the zero bits behind it make the number. */
  function Fill(n: nat): nat { if n % 3 == 1 then 16 else if n % 3 == 2 then 4 else 1 }

  /** The sextets are the digits to the base 64 of the number whose digits to the base 256 the octets are, with as
      many zero bits behind it as fill the last digit. */
  lemma {:induction false} SextetsAreTheNumber(data: seq<Byte>, start: nat)
    ensures Continued(start, Sextets(data), 64)
         == Continued(start, data, 256) * Fill(|data|)
    decreases |data|
  {
    if |data| >= 3 {
      var next := WholeGroup(data, start);
      SextetsAreTheNumber(data[3..], next);
      assert Fill(|data[3..]|) == Fill(|data|);
    } else if |data| == 2 {
      assert data == [data[0], data[1]];
      TwoOctets(start, data[0], data[1]);
    } else if |data| == 1 {
      assert data == [data[0]];
      OneOctet(start, data[0]);
    }
  }
}
