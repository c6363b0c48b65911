/** The report receiver's gate: unpacking the metadata from memory words, the workflow name derived from
    a hash in hexadecimal, and what `onReport` lets through. */
module Keystone {
  import opened Bytes

  type Name = n: seq<Byte> | |n| == 10 witness Zeros(10)

  const NO_NAME: Name := Zeros(10)
  const NO_ADDRESS: Address20 := Zeros(20)
  const NO_WORD: Word := Zeros(32)

  function BigEndian(b: seq<Byte>): nat {
    if b == [] then 0 else 256 * BigEndian(b[..|b| - 1]) + b[|b| - 1]
  }

  function Pow256(k: nat): (p: nat)
    ensures p > 0
  {
    if k == 0 then 1 else 256 * Pow256(k - 1)
  }

  // ---------------------------------------------------------------- metadata

  /** `mload` at an offset from where the octets begin. */
  function Load(memory: seq<Byte>, offset: nat): Word
    requires offset + 32 <= |memory|
  {
    memory[offset..offset + 32]
  }

  datatype Metadata = Metadata(workflowId: Word, name: Name, owner: nat)

  /** Three overlapping loads, the last at 42 octets and shifted right by 96 bits. What lies behind the
      metadata in memory is `after`. */
  function DecodeMetadata(metadata: seq<Byte>, after: seq<Byte>): Metadata
    requires |metadata| + |after| >= 74
  {
    var memory := metadata + after;
    Metadata(Load(memory, 0), Load(memory, 32)[..10], BigEndian(Load(memory, 42)) / Pow256(12))
  }

  lemma DivideTwice(x: nat, p: nat)
    requires p > 0
    ensures x / (256 * p) == x / 256 / p
  {
    var q, r := x / (256 * p), x % (256 * p);
    assert x == 256 * (p * q) + r;
    assert x / 256 == p * q + r / 256;
    Quotient(p, q, r / 256);
  }

  lemma Quotient(p: nat, q: nat, r: nat)
    requires r < p
    ensures (p * q + r) / p == q
  {
    var d := (p * q + r) / p;
    assert p * q + r == p * d + (p * q + r) % p;
    if d < q { Grow(p, d + 1, q); } else if d > q { Grow(p, q + 1, d); }
  }

  lemma Grow(p: nat, a: nat, b: nat)
    requires a <= b
    ensures p * a <= p * b
  {}

  /** A right shift by whole octets keeps the leading octets. */
  lemma {:induction false} TopOctets(w: seq<Byte>, k: nat)
    requires k <= |w|
    ensures BigEndian(w) / Pow256(k) == BigEndian(w[..|w| - k])
  {
    if k == 0 {
      assert w[..|w|] == w;
    } else {
      var front := w[..|w| - 1];
      TopOctets(front, k - 1);
      assert front[..|front| - (k - 1)] == w[..|w| - k];
      DivideTwice(BigEndian(w), Pow256(k - 1));
    }
  }

  /** Metadata packed as id, name and owner, whatever follows and whatever lies behind it in memory, is
      taken apart into exactly those fields. */
  lemma PackedFields(id: Word, name: Name, owner: Address20, tail: seq<Byte>, after: seq<Byte>)
    requires |after| >= 12
    ensures DecodeMetadata(id + name + owner + tail, after) == Metadata(id, name, BigEndian(owner))
  {
    var memory := id + name + owner + tail + after;
    assert memory[..32] == id && memory[32..64][..10] == name;
    TopOctets(Load(memory, 42), 12);
    assert Load(memory, 42)[..20] == owner;
  }

  lemma {:induction false} BigEndianInjective(a: seq<Byte>, b: seq<Byte>)
    requires |a| == |b| && BigEndian(a) == BigEndian(b)
    ensures a == b
  {
    if a != [] {
      var n := |a| - 1;
      assert BigEndian(a) % 256 == a[n] && BigEndian(b) % 256 == b[n];
      BigEndianInjective(a[..n], b[..n]);
      assert a == a[..n] + [a[n]] && b == b[..n] + [b[n]];
    }
  }

  // ---------------------------------------------------------------- the gate

  /** The permission fields; zero disables a check. */
  datatype Gate = Gate(forwarder: Address20, author: Address20, name: Name, workflowId: Word)

  datatype Verdict =
    | Accepted | InvalidSender | InvalidWorkflowId | InvalidAuthor | NameNeedsAuthor | InvalidWorkflowName

  function Judge(g: Gate, sender: Address20, metadata: seq<Byte>, after: seq<Byte>): Verdict
    requires |after| >= 74
  {
    if g.forwarder != NO_ADDRESS && sender != g.forwarder then InvalidSender
    else if g.workflowId == NO_WORD && g.author == NO_ADDRESS && g.name == NO_NAME then Accepted
    else
      var m := DecodeMetadata(metadata, after);
      if g.workflowId != NO_WORD && m.workflowId != g.workflowId then InvalidWorkflowId
      else if g.author != NO_ADDRESS && m.owner != BigEndian(g.author) then InvalidAuthor
      else if g.name == NO_NAME then Accepted
      else if g.author == NO_ADDRESS then NameNeedsAuthor
      else if m.name != g.name then InvalidWorkflowName
      else Accepted
  }

  /** A packed report passes exactly when every configured field is the report's own; a configured name
      also needs a configured author. */
  lemma GateMeaning(
    g: Gate, sender: Address20, id: Word, name: Name, owner: Address20, tail: seq<Byte>, after: seq<Byte>)
    requires |after| >= 74
    ensures
      Judge(g, sender, id + name + owner + tail, after) == Accepted
      <==> g.forwarder in {NO_ADDRESS, sender} && g.workflowId in {NO_WORD, id} && g.author in {NO_ADDRESS, owner}
           && (g.name == NO_NAME || (g.name == name && g.author != NO_ADDRESS))
  {
    PackedFields(id, name, owner, tail, after);
    if BigEndian(owner) == BigEndian(g.author) { BigEndianInjective(owner, g.author); }
  }

  // ---------------------------------------------------------------- the workflow name

  function Ascii(s: string): (b: seq<Byte>)
    requires forall i :: 0 <= i < |s| ==> s[i] < 128 as char
    ensures |b| == |s| && forall i :: 0 <= i < |s| ==> b[i] == s[i] as int
  {
    if s == "" then [] else [s[0] as int] + Ascii(s[1..])
  }

  lemma DigitsAreAscii(data: seq<Byte>)
    ensures forall i :: 0 <= i < |Hex(data)| ==> '0' <= Hex(data)[i] < 128 as char
  {
    HexIsDigits(data);
    assert forall i | 0 <= i < |Hex(data)| :: Hex(data)[i] in Hex(data);
  }

  /** What a configured workflow name is stored as, given the hash of its text. */
  function StoredName(text: seq<Byte>, hash: Word): Name {
    if text == [] then NO_NAME
    else
      DigitsAreAscii(hash);
      Ascii(Hex(hash)[..10])
  }

  /** The stored name is the first ten digits: it is never the disabling zero, and two texts are stored
      alike exactly when their hashes agree in the first five octets. */
  lemma StoredNamePinsHash(a: seq<Byte>, hashA: Word, b: seq<Byte>, hashB: Word)
    requires a != [] && b != []
    ensures StoredName(a, hashA) != NO_NAME
    ensures StoredName(a, hashA) == StoredName(b, hashB) <==> hashA[..5] == hashB[..5]
  {
    DigitsAreAscii(hashA);
    DigitsAreAscii(hashB);
    assert StoredName(a, hashA)[0] == Hex(hashA)[0] as int >= 48;
    TenDigits(hashA);
    TenDigits(hashB);
    if StoredName(a, hashA) == StoredName(b, hashB) {
      assert forall i | 0 <= i < 10 :: Hex(hashA)[i] as int == StoredName(a, hashA)[i];
      assert forall i | 0 <= i < 10 :: Hex(hashB)[i] as int == StoredName(b, hashB)[i];
      assert Hex(hashA)[..10] == Hex(hashB)[..10];
      HexInjective(hashA[..5], hashB[..5]);
    }
  }

  /** And those digits are the hash's own: its first five octets, high digit first. */
  lemma StoredNameDigits(text: seq<Byte>, hash: Word)
    requires text != []
    ensures forall i :: 0 <= i < 5 ==>
      && StoredName(text, hash)[2 * i] == HexDigit(hash[i] / 16) as int
      && StoredName(text, hash)[2 * i + 1] == HexDigit(hash[i] % 16) as int
    ensures StoredName([], hash) == NO_NAME
  {
    DigitsAreAscii(hash);
    forall i | 0 <= i < 5
      ensures StoredName(text, hash)[2 * i] == HexDigit(hash[i] / 16) as int
      ensures StoredName(text, hash)[2 * i + 1] == HexDigit(hash[i] % 16) as int
    {
      HexAt(hash, i);
    }
  }

  lemma TenDigits(hash: Word)
    ensures Hex(hash)[..10] == Hex(hash[..5])
  {
    HexOfConcat(hash[..5], hash[5..]);
    assert hash == hash[..5] + hash[5..];
  }

  method BytesToHexString(data: seq<Byte>) returns (hexString: array<char>)
    ensures fresh(hexString) && hexString[..] == Hex(data)
  {
    hexString := new char[2 * |data|];
    for i := 0 to |data|
      invariant hexString[..2 * i] == Hex(data[..i])
    {
      hexString[2 * i] := HEX_CHARS[data[i] / 16];
      hexString[2 * i + 1] := HEX_CHARS[data[i] % 16];
      assert data[..i + 1] == data[..i] + [data[i]];
      HexOfConcat(data[..i], [data[i]]);
    }
    assert data[..|data|] == data;
  }

  class Receiver {
    const owner: Address20
    var gate: Gate

    constructor (owner: Address20, forwarder: Address20)
      requires forwarder != NO_ADDRESS
      ensures gate == Gate(forwarder, NO_ADDRESS, NO_NAME, NO_WORD) && this.owner == owner
    {
      this.owner := owner;
      gate := Gate(forwarder, NO_ADDRESS, NO_NAME, NO_WORD);
    }

    /** `hash` is the SHA-256 of the text. */
    method SetExpectedWorkflowName(sender: Address20, text: seq<Byte>, hash: Word) returns (done: bool)
      modifies this
      ensures done <==> sender == owner
      ensures gate == if done then old(gate).(name := StoredName(text, hash)) else old(gate)
    {
      if sender != owner { return false; }
      if text == [] {
        gate := gate.(name := NO_NAME);
        return true;
      }
      var hexString := BytesToHexString(hash);
      DigitsAreAscii(hash);
      var first10: seq<Byte> := [];
      for i := 0 to 10
        invariant |first10| == i && forall k :: 0 <= k < i ==> first10[k] == hexString[k] as int
        invariant hexString[..] == Hex(hash)
      {
        assert hexString[i] == Hex(hash)[i];
        first10 := first10 + [hexString[i] as int];
      }
      assert first10 == StoredName(text, hash);
      gate := gate.(name := first10);
      return true;
    }

    method OnReport(sender: Address20, metadata: seq<Byte>, after: seq<Byte>) returns (v: Verdict)
      requires |after| >= 74
      ensures v == Judge(gate, sender, metadata, after)
    {
      if gate.forwarder != NO_ADDRESS && sender != gate.forwarder { return InvalidSender; }
      if gate.workflowId != NO_WORD || gate.author != NO_ADDRESS || gate.name != NO_NAME {
        var m := DecodeMetadata(metadata, after);
        if gate.workflowId != NO_WORD && m.workflowId != gate.workflowId { return InvalidWorkflowId; }
        if gate.author != NO_ADDRESS && m.owner != BigEndian(gate.author) { return InvalidAuthor; }
        if gate.name != NO_NAME {
          if gate.author == NO_ADDRESS { return NameNeedsAuthor; }
          if m.name != gate.name { return InvalidWorkflowName; }
        }
      }
      return Accepted;
    }
  }
}
