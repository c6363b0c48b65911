/** DNS wire names (section 3.1 of RFC 1035): `encodeDnsName`, a decoder for what it writes, and when
    two names are written alike. */
module DnsName {
  import opened Bytes
  import Utf8

  datatype Result<T> = Ok(value: T) | Err(error: string)

  type Label = string

  /** `name.split(".")`: empty labels included. */
  function Split(name: string): (labels: seq<Label>)
    ensures |labels| >= 1
  {
    if name == "" then [""]
    else if name[0] == '.' then [""] + Split(name[1..])
    else
      var labels := Split(name[1..]);
      [[name[0]] + labels[0]] + labels[1..]
  }

  lemma {:induction false} SplitWithoutDot(s: string)
    requires '.' !in s
    ensures Split(s) == [s]
  {
    if s != "" {
      SplitWithoutDot(s[1..]);
      assert [s[0]] + s[1..] == s;
    }
  }

  lemma {:induction false} SplitAtDot(a: string, rest: string)
    requires '.' !in a
    ensures Split(a + "." + rest) == [a] + Split(rest)
  {
    var s := a + "." + rest;
    if a == "" {
      assert s[1..] == rest;
    } else {
      SplitAtDot(a[1..], rest);
      assert s[1..] == a[1..] + "." + rest;
      assert [a[0]] + a[1..] == a;
    }
  }

  function NonEmpty(labels: seq<Label>): (kept: seq<Label>) {
    if labels == [] then []
    else if labels[0] == "" then NonEmpty(labels[1..])
    else [labels[0]] + NonEmpty(labels[1..])
  }

  predicate Fits(text: Label) { text != "" && |Utf8.Encode(text)| <= 63 }

  predicate AllFit(labels: seq<Label>) { forall i :: 0 <= i < |labels| ==> Fits(labels[i]) }

  /** The octets of each label, as the name hash and the resolver see them. */
  function Octets(labels: seq<Label>): (o: seq<seq<Byte>>)
    ensures |o| == |labels|
  {
    if labels == [] then [] else [Utf8.Encode(labels[0])] + Octets(labels[1..])
  }

  function Wire(labels: seq<Label>): seq<Byte>
    requires AllFit(labels)
  {
    if labels == [] then [0] else WireLabel(labels[0]) + Wire(labels[1..])
  }

  function WireLabel(text: Label): seq<Byte>
    requires Fits(text)
  {
    [|Utf8.Encode(text)|] + Utf8.Encode(text)
  }

  /** What the encoder makes of a name. */
  function Encoded(name: string): Result<string> {
    var labels := NonEmpty(Split(name));
    if AllFit(labels) then Ok("0x" + Hex(Wire(labels))) else Err("invalid DNS label length")
  }

  lemma {:induction false} NonEmptyKeepsNoEmpty(labels: seq<Label>)
    ensures forall i :: 0 <= i < |NonEmpty(labels)| ==> NonEmpty(labels)[i] != ""
    ensures |NonEmpty(labels)| <= |labels|
    ensures NonEmpty(labels) == labels <==> "" !in labels
  {
    if labels != [] {
      NonEmptyKeepsNoEmpty(labels[1..]);
      assert labels == [labels[0]] + labels[1..];
    }
  }

  lemma EncodeIsNonEmpty(text: Label)
    requires text != ""
    ensures |Utf8.Encode(text)| > 0
  {}

  /** `bytes` holds the first `i` labels. */
  ghost predicate Pushed(labels: seq<Label>, i: nat, bytes: seq<Byte>) {
    i <= |labels| && AllFit(labels[..i]) && (AllFit(labels) ==> Wire(labels) == bytes + Wire(labels[i..]))
  }

  lemma PushLabel(labels: seq<Label>, i: nat, bytes: seq<Byte>)
    requires Pushed(labels, i, bytes) && i < |labels| && Fits(labels[i])
    ensures Pushed(labels, i + 1, bytes + WireLabel(labels[i]))
  {
    assert labels[..i + 1] == labels[..i] + [labels[i]];
    if AllFit(labels) {
      assert labels[i..][1..] == labels[i + 1..];
      assert Wire(labels[i..]) == WireLabel(labels[i]) + Wire(labels[i + 1..]);
      Regroup(bytes, WireLabel(labels[i]), Wire(labels[i + 1..]));
    }
  }

  lemma Regroup(a: seq<Byte>, b: seq<Byte>, c: seq<Byte>)
    ensures a + (b + c) == (a + b) + c
  {}

  lemma AllPushed(labels: seq<Label>, bytes: seq<Byte>)
    requires Pushed(labels, |labels|, bytes)
    ensures AllFit(labels) && Wire(labels) == bytes + [0]
  {
    assert labels[..|labels|] == labels;
  }

  /** The labels are split off, the empty ones dropped, and each of the others pushed behind its length. */
  method EncodeDnsName(name: string) returns (r: Result<string>)
    ensures r.Ok? <==> AllFit(NonEmpty(Split(name)))
    ensures r == Encoded(name)
  {
    var labels := NonEmpty(Split(name));
    NonEmptyKeepsNoEmpty(Split(name));
    var bytes: seq<Byte> := [];
    assert Pushed(labels, 0, bytes) by { assert labels[0..] == labels; }
    for i := 0 to |labels|
      invariant Pushed(labels, i, bytes)
    {
      var labelBytes := Utf8.Encode(labels[i]);
      EncodeIsNonEmpty(labels[i]);
      if |labelBytes| == 0 || |labelBytes| > 63 {
        assert !Fits(labels[i]);
        return Err("invalid DNS label length");
      }
      PushLabel(labels, i, bytes);
      bytes := bytes + ([|labelBytes|] + labelBytes);
    }
    AllPushed(labels, bytes);
    bytes := bytes + [0];
    return Ok("0x" + Hex(bytes));
  }

  // ---------------------------------------------------------------- decoding

  datatype Name = Name(labels: seq<seq<Byte>>, suffix: seq<Byte>)

  /** Length octets and labels up to the zero octet; what follows it is the suffix. */
  function Decode(data: seq<Byte>): Result<Name> {
    if data == [] then Err("no terminator")
    else if data[0] == 0 then Ok(Name([], data[1..]))
    else if data[0] > 63 || |data| <= data[0] then Err("bad label")
    else
      match Decode(data[1 + data[0]..])
      case Err(e) => Err(e)
      case Ok(rest) => Ok(Name([data[1..1 + data[0]]] + rest.labels, rest.suffix))
  }

  lemma {:induction false} DecodeWire(labels: seq<Label>, suffix: seq<Byte>)
    requires AllFit(labels)
    ensures Decode(Wire(labels) + suffix) == Ok(Name(Octets(labels), suffix))
  {
    if labels == [] {
      assert ([0] + suffix)[1..] == suffix;
    } else {
      DecodeWire(labels[1..], suffix);
      DecodeLabel(labels[0], Wire(labels[1..]) + suffix);
      Regroup(WireLabel(labels[0]), Wire(labels[1..]), suffix);
    }
  }

  lemma DecodeLabel(text: Label, rest: seq<Byte>)
    requires Fits(text)
    ensures
      var data := WireLabel(text) + rest;
      0 < data[0] <= 63 && data[0] < |data| && data[1..1 + data[0]] == Utf8.Encode(text) && data[1 + data[0]..] == rest
  {
    EncodeIsNonEmpty(text);
  }

  lemma {:induction false} DecodedLabelsFit(data: seq<Byte>)
    ensures Decode(data).Ok? ==>
      forall i :: 0 <= i < |Decode(data).value.labels| ==> 1 <= |Decode(data).value.labels[i]| <= 63
    decreases |data|
  {
    if data != [] && data[0] != 0 && data[0] <= 63 && |data| > data[0] { DecodedLabelsFit(data[1 + data[0]..]); }
  }

  /** What any wire form at all decodes to can be encoded: the encoder refuses nothing it could have written. */
  lemma DecodableIsEncodable(name: string, data: seq<Byte>, suffix: seq<Byte>)
    requires Decode(data) == Ok(Name(Octets(NonEmpty(Split(name))), suffix))
    ensures Encoded(name).Ok?
  {
    var labels := NonEmpty(Split(name));
    DecodedLabelsFit(data);
    NonEmptyKeepsNoEmpty(Split(name));
    forall i | 0 <= i < |labels| ensures Fits(labels[i]) { OctetsAt(labels, i); }
  }

  lemma {:induction false} OctetsAt(labels: seq<Label>, i: nat)
    requires i < |labels|
    ensures Octets(labels)[i] == Utf8.Encode(labels[i])
  {
    if i > 0 { OctetsAt(labels[1..], i - 1); }
  }

  /** Hexadecimal form and all: a name's encoding followed by anything decodes to exactly its non-empty
      labels and that suffix. */
  lemma EncodingDecodes(name: string, suffix: seq<Byte>)
    requires Encoded(name).Ok?
    ensures
      var hex := Encoded(name).value[2..] + Hex(suffix);
      (forall c :: c in hex ==> IsHexDigit(c))
      && Decode(FromHex(hex)) == Ok(Name(Octets(NonEmpty(Split(name))), suffix))
  {
    var wire := Wire(NonEmpty(Split(name)));
    HexOfConcat(wire, suffix);
    HexRoundTrip(wire + suffix);
    DecodeWire(NonEmpty(Split(name)), suffix);
    assert Encoded(name).value[2..] == Hex(wire);
  }

  lemma {:induction false} OctetsInjective(a: seq<Label>, b: seq<Label>)
    requires Octets(a) == Octets(b)
    ensures a == b
  {
    if a != [] && b != [] {
      assert Octets(a)[0] == Octets(b)[0] && Octets(a)[1..] == Octets(a[1..]) && Octets(b)[1..] == Octets(b[1..]);
      Utf8.EncodeInjective(a[0], b[0]);
      OctetsInjective(a[1..], b[1..]);
    }
  }

  /** No encoding is a proper prefix of another. */
  lemma WireIsPrefixFree(a: seq<Label>, s: seq<Byte>, b: seq<Label>, t: seq<Byte>)
    requires AllFit(a) && AllFit(b) && Wire(a) + s == Wire(b) + t
    ensures a == b && s == t
  {
    DecodeWire(a, s);
    DecodeWire(b, t);
    OctetsInjective(a, b);
  }

  /** Two names are encoded alike exactly when their non-empty labels agree. */
  lemma EncodedAlike(x: string, y: string)
    requires Encoded(x).Ok? && Encoded(y).Ok?
    ensures Encoded(x) == Encoded(y) <==> NonEmpty(Split(x)) == NonEmpty(Split(y))
  {
    if Encoded(x) == Encoded(y) {
      var a, b := NonEmpty(Split(x)), NonEmpty(Split(y));
      assert Hex(Wire(a)) == Encoded(x).value[2..] == Encoded(y).value[2..] == Hex(Wire(b));
      HexInjective(Wire(a), Wire(b));
      WireIsPrefixFree(a, [], b, []);
    }
  }

  /** The encoding names the same node as the name itself exactly when no label is empty. */
  lemma WireNamesNode(name: string)
    requires Encoded(name).Ok?
    ensures Octets(NonEmpty(Split(name))) == Octets(Split(name)) <==> "" !in Split(name)
  {
    NonEmptyKeepsNoEmpty(Split(name));
    if Octets(NonEmpty(Split(name))) == Octets(Split(name)) {
      OctetsInjective(NonEmpty(Split(name)), Split(name));
    }
  }
}
