/** The session token: a base64url body, a dot, and the base64url of a keyed hash of that body. The hash
    and the JSON form of the payload are parameters. */
module SessionToken {
  import opened Base64
  import opened Bytes
  import opened Escrow
  import opened Optional
  import DnsName

  datatype Payload = Payload(sessionId: int, relay: string, tier: Tier, hours: int, expiresAt: int)

  /** `mac(text, secret)`, and a payload as JSON octets and back. */
  datatype Codec = Codec(
    mac: (string, string) -> Word, write: Payload -> seq<Byte>, read: seq<Byte> -> Option<Payload>)

  /** Parsing what was serialised returns the payload. */
  ghost predicate Faithful(k: Codec) {
    forall p :: k.write(p) != [] && k.read(k.write(p)) == Some(p)
  }

  function Sign(k: Codec, body: string, secret: string): string { Encode(k.mac(body, secret)) }

  function Body(k: Codec, p: Payload): string { Encode(k.write(p)) }

  function Issue(k: Codec, p: Payload, secret: string): string {
    Body(k, p) + "." + Sign(k, Body(k, p), secret)
  }

  /** `SyntaxFailure` is the exception of the JSON parser. */
  datatype Verification = Accepted(payload: Payload) | Rejected | SyntaxFailure

  /** The first two pieces between dots decide; the clock is in milliseconds. */
  function Verify(k: Codec, token: string, secret: string, now: nat): Verification {
    var pieces := DnsName.Split(token);
    if |pieces| < 2 || pieces[0] == "" || pieces[1] == "" then Rejected
    else if pieces[1] != Sign(k, pieces[0], secret) then Rejected
    else
      match k.read(LenientDecode(pieces[0]))
      case None => SyntaxFailure
      case Some(p) => if p.expiresAt < now / 1000 then Rejected else Accepted(p)
  }

  // ---------------------------------------------------------------- two pieces

  lemma PiecesOf(data: seq<Byte>, mac: Word)
    ensures DnsName.Split(Encode(data) + "." + Encode(mac)) == [Encode(data), Encode(mac)]
  {
    EncodeAlphabet(data);
    EncodeAlphabet(mac);
    DnsName.SplitAtDot(Encode(data), Encode(mac));
    DnsName.SplitWithoutDot(Encode(mac));
  }

  /** An issued token has exactly one dot. */
  lemma OneDot(k: Codec, p: Payload, secret: string)
    ensures multiset(Issue(k, p, secret))['.'] == 1
  {
    EncodeAlphabet(k.write(p));
    EncodeAlphabet(k.mac(Body(k, p), secret));
    assert '.' !in Body(k, p) && '.' !in Sign(k, Body(k, p), secret);
    assert multiset(Issue(k, p, secret))
        == multiset(Body(k, p)) + multiset(".") + multiset(Sign(k, Body(k, p), secret));
  }

  // ---------------------------------------------------------------- verification

  /** An issued token verifies, with the same secret, to its payload until it expires. */
  lemma IssuedVerifies(k: Codec, p: Payload, secret: string, now: nat)
    requires Faithful(k)
    ensures Verify(k, Issue(k, p, secret), secret, now) == if p.expiresAt < now / 1000 then Rejected else Accepted(p)
  {
    PiecesOf(k.write(p), k.mac(Body(k, p), secret));
    LenientRoundTrip(k.write(p));
  }

  lemma SignInjective(a: Word, b: Word)
    requires Encode(a) == Encode(b)
    ensures a == b
  {
    LenientRoundTrip(a);
    LenientRoundTrip(b);
  }

  /** Under another secret it is rejected exactly when the two secrets' hashes of its body differ or it has
      expired. */
  lemma OtherSecret(k: Codec, p: Payload, secret: string, other: string, now: nat)
    requires Faithful(k)
    ensures Verify(k, Issue(k, p, secret), other, now) == Rejected
       <==> k.mac(Body(k, p), secret) != k.mac(Body(k, p), other) || p.expiresAt < now / 1000
  {
    PiecesOf(k.write(p), k.mac(Body(k, p), secret));
    LenientRoundTrip(k.write(p));
    if Sign(k, Body(k, p), secret) == Sign(k, Body(k, p), other) {
      SignInjective(k.mac(Body(k, p), secret), k.mac(Body(k, p), other));
    }
  }

  /** A body that is not the signed one passes the signature only if their hashes collide. */
  lemma OtherBody(k: Codec, p: Payload, secret: string, body: string, now: nat)
    requires '.' !in body
    ensures Verify(k, body + "." + Sign(k, Body(k, p), secret), secret, now) != Rejected ==>
      k.mac(body, secret) == k.mac(Body(k, p), secret)
  {
    var signature := Sign(k, Body(k, p), secret);
    EncodeAlphabet(k.mac(Body(k, p), secret));
    DnsName.SplitAtDot(body, signature);
    DnsName.SplitWithoutDot(signature);
    if signature == Sign(k, body, secret) { SignInjective(k.mac(Body(k, p), secret), k.mac(body, secret)); }
  }

  /** A body and a signature of any form pass exactly if the signature is the keyed hash's text and the body
      reads as a payload that has not expired; then that payload is accepted. */
  lemma VerifiesIff(k: Codec, body: string, signature: string, secret: string, now: nat, p: Payload)
    requires '.' !in body && '.' !in signature
    ensures Verify(k, body + "." + signature, secret, now) == Accepted(p)
       <==> body != "" && signature == Encode(k.mac(body, secret)) && k.read(LenientDecode(body)) == Some(p)
            && p.expiresAt >= now / 1000
    ensures Verify(k, body + "." + signature, secret, now) != Rejected ==> signature == Encode(k.mac(body, secret))
    ensures Verify(k, body, secret, now) == Rejected
  {
    DnsName.SplitAtDot(body, signature);
    DnsName.SplitWithoutDot(signature);
    DnsName.SplitWithoutDot(body);
  }

  // ---------------------------------------------------------------- the menu-bar client

  /** The octets the client reads: the first non-empty piece, alphabet swapped and padded. */
  function ClientBody(token: string): Option<seq<Byte>> {
    var pieces := DnsName.NonEmpty(DnsName.Split(token));
    if pieces == [] then None else StrictDecode(Padded(Swapped(pieces[0])))
  }

  method DecodeBody(token: string) returns (data: Option<seq<Byte>>)
    ensures data == ClientBody(token)
  {
    var pieces := DnsName.NonEmpty(DnsName.Split(token));
    if pieces == [] { return None; }
    var base64 := Swapped(pieces[0]);
    while |base64| % 4 != 0
      invariant Padded(base64) == Padded(Swapped(pieces[0]))
      decreases (4 - |base64| % 4) % 4
    {
      OneSign(base64);
      base64 := base64 + "=";
    }
    assert Padded(base64) == base64;
    return StrictDecode(base64);
  }

  lemma OneSign(t: string)
    requires |t| % 4 != 0
    ensures Padded(t + "=") == Padded(t)
  {
    if |t| % 4 == 1 {
      assert t + "=" + "==" == t + "===";
    } else if |t| % 4 == 2 {
      assert t + "=" + "=" == t + "==";
    }
  }

  /** From an issued token the client recovers exactly the serialised payload, whatever its length. */
  lemma ClientReadsIssued(k: Codec, p: Payload, secret: string)
    requires Faithful(k)
    ensures ClientBody(Issue(k, p, secret)) == Some(k.write(p))
  {
    PiecesOf(k.write(p), k.mac(Body(k, p), secret));
    StrictRoundTrip(k.write(p));
  }
}
