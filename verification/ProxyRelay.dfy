/** The local CONNECT proxy: one header read from each side, then two pumps. A byte is a character
    below 256, so that protocol text can be written as literals. */
module ProxyRelay {
  import opened Optional
  import Base64
  import SessionToken

  type Bytes = string

  const CRLF: Bytes := "\r\n"
  const BLANK_LINE: Bytes := "\r\n\r\n"
  const ESTABLISHED: Bytes := "HTTP/1.1 200 Connection Established\r\n\r\n"
  const BAD_GATEWAY: Bytes := "HTTP/1.1 502 Bad Gateway\r\n\r\n"

  // ---------------------------------------------------------------- finding a separator

  predicate At(s: Bytes, sep: Bytes, i: nat) {
    i + |sep| <= |s| && s[i..i + |sep|] == sep
  }

  /** The position of the first `sep`, as a left-to-right search finds it. */
  function Find(s: Bytes, sep: Bytes): (r: Option<nat>)
    requires sep != ""
    ensures r.Some? ==> r.value + |sep| <= |s|
  {
    if |s| < |sep| then None
    else if s[..|sep|] == sep then Some(0)
    else
      var r := Find(s[1..], sep);
      if r.None? then None else Some(r.value + 1)
  }

  lemma {:induction false} FindIsFirst(s: Bytes, sep: Bytes)
    requires sep != ""
    ensures Find(s, sep).None? ==> forall i: nat :: !At(s, sep, i)
    ensures Find(s, sep).Some? ==>
      At(s, sep, Find(s, sep).value) && forall i: nat :: i < Find(s, sep).value ==> !At(s, sep, i)
  {
    if |s| >= |sep| {
      FindIsFirst(s[1..], sep);
      forall i: nat | i > 0 ensures At(s, sep, i) <==> At(s[1..], sep, i - 1) { AtOneOn(s, sep, i); }
      assert s[0..|sep|] == s[..|sep|];
    }
  }

  lemma AtOneOn(s: Bytes, sep: Bytes, i: nat)
    requires s != "" && i > 0
    ensures At(s, sep, i) <==> At(s[1..], sep, i - 1)
  {
    if i + |sep| <= |s| { assert s[i..i + |sep|] == s[1..][i - 1..i - 1 + |sep|]; }
  }

  lemma FirstIsFound(s: Bytes, sep: Bytes, i: nat)
    requires sep != "" && At(s, sep, i) && forall j: nat :: j < i ==> !At(s, sep, j)
    ensures Find(s, sep) == Some(i)
  {
    FindIsFirst(s, sep);
  }

  /** More bytes never move a separator already found. */
  lemma FindIsStable(s: Bytes, more: Bytes, sep: Bytes)
    requires sep != "" && Find(s, sep).Some?
    ensures Find(s + more, sep) == Find(s, sep)
  {
    FindIsFirst(s, sep);
    var i := Find(s, sep).value;
    forall j: nat | j <= i ensures At(s + more, sep, j) <==> At(s, sep, j) {
      assert (s + more)[j..j + |sep|] == s[j..j + |sep|];
    }
    FirstIsFound(s + more, sep, i);
  }

  // ---------------------------------------------------------------- the header reader alone

  /** One completed receive: the data, and whether the stream ended or failed with it. */
  datatype Receive = Receive(data: Bytes, last: bool)

  function Stream(receives: seq<Receive>): Bytes {
    if receives == [] then "" else receives[0].data + Stream(receives[1..])
  }

  datatype Reading =
    | Header(header: Bytes, leftover: Bytes, rest: seq<Receive>)
    | EndedEarly(rest: seq<Receive>)
    | Waiting(buffer: Bytes)

  datatype Taken = Found(header: Bytes, leftover: Bytes) | Ended | More(buffer: Bytes)

  /** The reader's callback on one receive. */
  function Take(buffer: Bytes, r: Receive): Taken {
    var b := buffer + r.data;
    var i := Find(b, BLANK_LINE);
    if i.Some? then Found(b[..i.value], b[i.value + 4..]) else if r.last then Ended else More(b)
  }

  /** The reader, one receive at a time, on a growing buffer. */
  function ReadHeader(buffer: Bytes, receives: seq<Receive>): Reading
    decreases |receives|
  {
    if receives == [] then Waiting(buffer) else
      match Take(buffer, receives[0])
      case Found(header, leftover) => Header(header, leftover, receives[1..])
      case Ended => EndedEarly(receives[1..])
      case More(b) => ReadHeader(b, receives[1..])
  }

  /** What one more receive does to a reading. */
  function Continued(reading: Reading, r: Receive): Reading {
    match reading
    case Header(header, leftover, rest) => Header(header, leftover, rest + [r])
    case EndedEarly(rest) => EndedEarly(rest + [r])
    case Waiting(b) =>
      match Take(b, r)
      case Found(header, leftover) => Header(header, leftover, [])
      case Ended => EndedEarly([])
      case More(b') => Waiting(b')
  }

  lemma {:induction false} ReadHeaderOneMore(buffer: Bytes, receives: seq<Receive>, r: Receive)
    ensures ReadHeader(buffer, receives + [r]) == Continued(ReadHeader(buffer, receives), r)
    decreases |receives|
  {
    if receives == [] {
      assert [] + [r] == [r] && [r][1..] == [];
    } else {
      assert (receives + [r])[1..] == receives[1..] + [r];
      var taken := Take(buffer, receives[0]);
      if taken.More? { ReadHeaderOneMore(taken.buffer, receives[1..], r); }
    }
  }

  /** What a reading says of the buffered bytes and the receives it was made from: the header and what
      follows it make up the stream around its first blank line, or no blank line has come yet. */
  predicate Tells(buffer: Bytes, receives: seq<Receive>, reading: Reading) {
    var all := buffer + Stream(receives);
    match reading
    case Header(header, leftover, rest) =>
      var i := Find(all, BLANK_LINE);
      i.Some? && i.value + 4 <= |all| && header == all[..i.value] && leftover + Stream(rest) == all[i.value + 4..]
    case EndedEarly(rest) =>
      var n := |receives| - |rest|;
      n > 0 && receives[n - 1].last && rest == receives[n..] && Find(buffer + Stream(receives[..n]), BLANK_LINE).None?
    case Waiting(b) => b == all && Find(all, BLANK_LINE).None?
  }

  /** However the stream is cut into receives, the reader stops at the first blank line of the whole
      stream, even one that straddles receives, and neither loses nor repeats a byte after it. */
  lemma {:induction false} ReaderFindsFirstBlankLine(buffer: Bytes, receives: seq<Receive>)
    requires Find(buffer, BLANK_LINE).None?
    ensures Tells(buffer, receives, ReadHeader(buffer, receives))
    decreases |receives|
  {
    if receives == [] {
      assert buffer + "" == buffer;
    } else {
      var b := buffer + receives[0].data;
      if Find(b, BLANK_LINE).Some? {
        HeaderTells(buffer, receives[0].data, receives[1..], receives);
      } else if receives[0].last {
        assert receives[..1] == [receives[0]] && Stream(receives[..1]) == receives[0].data;
      } else {
        ReaderFindsFirstBlankLine(b, receives[1..]);
        LaterTells(buffer, receives, ReadHeader(b, receives[1..]));
      }
    }
  }

  lemma HeaderTells(buffer: Bytes, data: Bytes, rest: seq<Receive>, receives: seq<Receive>)
    requires receives != [] && receives[0].data == data && receives[1..] == rest
    requires Find(buffer + data, BLANK_LINE).Some?
    ensures
      var b := buffer + data;
      var i := Find(b, BLANK_LINE).value;
      Tells(buffer, receives, Header(b[..i], b[i + 4..], rest))
  {
    var b, more := buffer + data, Stream(rest);
    FindIsStable(b, more, BLANK_LINE);
    var i := Find(b, BLANK_LINE).value;
    assert buffer + Stream(receives) == b + more;
    assert (b + more)[..i] == b[..i];
    assert (b + more)[i + 4..] == b[i + 4..] + more;
  }

  lemma LaterTells(buffer: Bytes, receives: seq<Receive>, reading: Reading)
    requires receives != [] && Tells(buffer + receives[0].data, receives[1..], reading)
    ensures Tells(buffer, receives, reading)
  {
    StreamFrom(buffer, receives, |receives|);
    assert receives[..|receives|] == receives && receives[1..][..|receives| - 1] == receives[1..];
    if reading.EndedEarly? { StreamFrom(buffer, receives, |receives| - |reading.rest|); }
  }

  lemma StreamFrom(buffer: Bytes, receives: seq<Receive>, n: nat)
    requires 1 <= n <= |receives|
    ensures buffer + Stream(receives[..n]) == (buffer + receives[0].data) + Stream(receives[1..][..n - 1])
  {
    assert receives[..n][1..] == receives[1..][..n - 1];
    var first, rest := receives[0].data, Stream(receives[1..][..n - 1]);
    assert buffer + (first + rest) == (buffer + first) + rest;
  }

  // ---------------------------------------------------------------- reading the request line

  predicate Continuation(c: char) { 0x80 <= c as int <= 0xbf }

  /** Well-formed UTF-8 (section 4 of RFC 3629): otherwise the header text is nil. */
  predicate ValidUtf8(s: Bytes) {
    if s == "" then true else
      var b := s[0] as int;
      var second := if |s| > 1 then s[1] as int else -1;
      if b < 0x80 then ValidUtf8(s[1..])
      else if 0xc2 <= b <= 0xdf then |s| >= 2 && Continuation(s[1]) && ValidUtf8(s[2..])
      else if 0xe0 <= b <= 0xef then
        && |s| >= 3 && Continuation(s[1]) && Continuation(s[2])
        && (b == 0xe0 ==> second >= 0xa0) && (b == 0xed ==> second <= 0x9f)
        && ValidUtf8(s[3..])
      else if 0xf0 <= b <= 0xf4 then
        && |s| >= 4 && Continuation(s[1]) && Continuation(s[2]) && Continuation(s[3])
        && (b == 0xf0 ==> second >= 0x90) && (b == 0xf4 ==> second <= 0x8f)
        && ValidUtf8(s[4..])
      else false
  }

  /** The first non-empty piece of `s` between separators, as a split that drops empty pieces gives it. */
  function FirstPiece(s: Bytes, sep: Bytes): Bytes
    requires sep != ""
  {
    if s == "" then ""
    else if sep <= s then FirstPiece(s[|sep|..], sep)
    else if Find(s, sep).None? then s
    else s[..Find(s, sep).value]
  }

  /** The target of a CONNECT request, if the header is one. */
  function Target(header: Bytes): Option<Bytes> {
    if !ValidUtf8(header) then None else
      var line := FirstPiece(header, CRLF);
      if !("CONNECT " <= line) then None else
        var target := FirstPiece(line[8..], " ");
        if target == "" then None else Some(target)
  }

  function Request(target: Bytes, token: Bytes): Bytes {
    "CONNECT " + target + " HTTP/1.1\r\nHost: " + target + "\r\nx-session-token: " + token + "\r\n\r\n"
  }

  predicate Accepts(header: Bytes) {
    ValidUtf8(header) && ("HTTP/1.1 200" <= header || "HTTP/1.0 200" <= header)
  }

  // ---------------------------------------------------------------- one tunnel, event by event

  datatype Phase =
    | ReadingClient(buffer: Bytes)
    | ReadingRemote(target: Bytes, leftover: Bytes, buffer: Bytes)
    | Answering(target: Bytes, leftover: Bytes, remoteLeftover: Bytes)
    | Pumping(target: Bytes)
    | Refused
    | Rejected(target: Bytes)
    | Closed(target: Bytes)

  /** A connection pair: where the callbacks stand, and all bytes received and sent on each side. */
  datatype Tunnel = Tunnel(
    phase: Phase, fromClient: Bytes, fromRemote: Bytes, toClient: Bytes, toRemote: Bytes)

  const OPENED := Tunnel(ReadingClient(""), "", "", "", "")

  datatype Event =
    | FromClient(data: Bytes, last: bool)
    | FromRemote(data: Bytes, last: bool)
    | AnswerSent

  function OnClient(t: Tunnel, token: Bytes, data: Bytes, last: bool): Tunnel {
    match t.phase
    case ReadingClient(buffer) =>
      var t' := t.(fromClient := t.fromClient + data);
      match Take(buffer, Receive(data, last)) {
        case More(b) => t'.(phase := ReadingClient(b))
        case Ended => t'.(phase := Refused)
        case Found(header, leftover) =>
          var target := Target(header);
          if target.None? then t'.(phase := Refused)
          else t'.(phase := ReadingRemote(target.value, leftover, ""),
                   toRemote := t.toRemote + Request(target.value, token))
      }
    case Pumping(target) =>
      t.(fromClient := t.fromClient + data, toRemote := t.toRemote + data,
         phase := if last then Closed(target) else t.phase)
    case _ => t
  }

  function OnRemote(t: Tunnel, data: Bytes, last: bool): Tunnel {
    match t.phase
    case ReadingRemote(target, leftover, buffer) =>
      var t' := t.(fromRemote := t.fromRemote + data);
      match Take(buffer, Receive(data, last)) {
        case More(b) => t'.(phase := ReadingRemote(target, leftover, b))
        case Ended => t'.(phase := Rejected(target), toClient := t.toClient + BAD_GATEWAY)
        case Found(header, remoteLeftover) =>
          if !Accepts(header) then t'.(phase := Rejected(target), toClient := t.toClient + BAD_GATEWAY)
          else t'.(phase := Answering(target, leftover, remoteLeftover), toClient := t.toClient + ESTABLISHED)
      }
    case Pumping(target) =>
      t.(fromRemote := t.fromRemote + data, toClient := t.toClient + data,
         phase := if last then Closed(target) else t.phase)
    case _ => t
  }

  /** The 200 answer is out: what either side sent early goes first, then the pumps start. */
  function OnAnswerSent(t: Tunnel): Tunnel {
    match t.phase
    case Answering(target, leftover, remoteLeftover) =>
      t.(phase := Pumping(target), toRemote := t.toRemote + leftover, toClient := t.toClient + remoteLeftover)
    case _ => t
  }

  function Step(t: Tunnel, token: Bytes, e: Event): Tunnel {
    match e
    case FromClient(data, last) => OnClient(t, token, data, last)
    case FromRemote(data, last) => OnRemote(t, data, last)
    case AnswerSent => OnAnswerSent(t)
  }

  function Run(token: Bytes, events: seq<Event>): Tunnel {
    if events == [] then OPENED else Step(Run(token, events[..|events| - 1]), token, events[|events| - 1])
  }

  function ClientEvents(receives: seq<Receive>): (events: seq<Event>)
    ensures |events| == |receives|
  {
    if receives == [] then []
    else
      var r := receives[|receives| - 1];
      ClientEvents(receives[..|receives| - 1]) + [FromClient(r.data, r.last)]
  }

  /** Where a reading of the client's header leaves the tunnel. */
  function PhaseAfter(reading: Reading): Phase {
    match reading
    case Waiting(b) => ReadingClient(b)
    case EndedEarly(_) => Refused
    case Header(header, leftover, _) =>
      if Target(header).None? then Refused else ReadingRemote(Target(header).value, leftover, "")
  }

  /** Fed by the client alone, a tunnel stands where the reader says. */
  lemma {:induction false} TunnelReads(token: Bytes, receives: seq<Receive>)
    ensures Run(token, ClientEvents(receives)).phase == PhaseAfter(ReadHeader("", receives))
  {
    if receives != [] {
      var n, events := |receives| - 1, ClientEvents(receives);
      TunnelReads(token, receives[..n]);
      ReadHeaderOneMore("", receives[..n], receives[n]);
      assert receives[..n] + [receives[n]] == receives;
      assert events[..|events| - 1] == ClientEvents(receives[..n]);
    }
  }

  /** The bytes after the first blank line. */
  function Body(s: Bytes): Bytes
    requires Find(s, BLANK_LINE).Some?
  {
    s[Find(s, BLANK_LINE).value + 4..]
  }

  predicate AsksFor(fromClient: Bytes, target: Bytes) {
    var i := Find(fromClient, BLANK_LINE);
    i.Some? && Target(fromClient[..i.value]) == Some(target)
  }

  predicate Accepted(fromRemote: Bytes) {
    var i := Find(fromRemote, BLANK_LINE);
    i.Some? && Accepts(fromRemote[..i.value])
  }

  /** Where every byte is, in each phase. */
  predicate Conserved(t: Tunnel, token: Bytes) {
    match t.phase
    case ReadingClient(buffer) =>
      && buffer == t.fromClient && Find(t.fromClient, BLANK_LINE).None?
      && t.toRemote == "" && t.fromRemote == "" && t.toClient == ""
    case Refused =>
      t.toRemote == "" && t.fromRemote == "" && t.toClient == ""
    case ReadingRemote(target, leftover, buffer) =>
      && AsksFor(t.fromClient, target) && leftover == Body(t.fromClient)
      && t.toRemote == Request(target, token)
      && buffer == t.fromRemote && Find(t.fromRemote, BLANK_LINE).None? && t.toClient == ""
    case Rejected(target) =>
      && AsksFor(t.fromClient, target) && !Accepted(t.fromRemote)
      && t.toRemote == Request(target, token) && t.toClient == BAD_GATEWAY
    case Answering(target, leftover, remoteLeftover) =>
      && AsksFor(t.fromClient, target) && leftover == Body(t.fromClient) && t.toRemote == Request(target, token)
      && Accepted(t.fromRemote) && remoteLeftover == Body(t.fromRemote) && t.toClient == ESTABLISHED
    case Pumping(target) => Relayed(t, token, target)
    case Closed(target) => Relayed(t, token, target)
  }

  /** Both directions: our own header, then exactly what the other side sent after its header. */
  predicate Relayed(t: Tunnel, token: Bytes, target: Bytes) {
    && AsksFor(t.fromClient, target) && t.toRemote == Request(target, token) + Body(t.fromClient)
    && Accepted(t.fromRemote) && t.toClient == ESTABLISHED + Body(t.fromRemote)
  }

  lemma BodyGrows(s: Bytes, more: Bytes)
    requires Find(s, BLANK_LINE).Some?
    ensures Find(s + more, BLANK_LINE) == Find(s, BLANK_LINE)
    ensures Body(s + more) == Body(s) + more
    ensures (s + more)[..Find(s, BLANK_LINE).value] == s[..Find(s, BLANK_LINE).value]
  {
    FindIsStable(s, more, BLANK_LINE);
  }

  lemma ClientKeepsConserved(t: Tunnel, token: Bytes, data: Bytes, last: bool)
    requires Conserved(t, token)
    ensures Conserved(OnClient(t, token, data, last), token)
  {
    if t.phase.Pumping? {
      BodyGrows(t.fromClient, data);
      var request := Request(t.phase.target, token);
      assert request + Body(t.fromClient) + data == request + (Body(t.fromClient) + data);
    }
  }

  lemma RemoteHeaderKeepsConserved(t: Tunnel, token: Bytes, data: Bytes, last: bool)
    requires Conserved(t, token) && t.phase.ReadingRemote?
    ensures Conserved(OnRemote(t, data, last), token)
  {
    var t' := OnRemote(t, data, last);
    assert t.fromRemote + data == t.phase.buffer + data == t'.fromRemote;
    assert t.toClient + BAD_GATEWAY == BAD_GATEWAY && t.toClient + ESTABLISHED == ESTABLISHED;
  }

  lemma RemoteKeepsConserved(t: Tunnel, token: Bytes, data: Bytes, last: bool)
    requires Conserved(t, token)
    ensures Conserved(OnRemote(t, data, last), token)
  {
    if t.phase.ReadingRemote? {
      RemoteHeaderKeepsConserved(t, token, data, last);
    } else if t.phase.Pumping? {
      BodyGrows(t.fromRemote, data);
      assert ESTABLISHED + Body(t.fromRemote) + data == ESTABLISHED + (Body(t.fromRemote) + data);
    }
  }

  /** At every moment of every run, whatever the cutting and interleaving of the two streams. */
  lemma {:induction false} EveryRunConserves(token: Bytes, events: seq<Event>)
    ensures Conserved(Run(token, events), token)
  {
    if events != [] {
      var t := Run(token, events[..|events| - 1]);
      EveryRunConserves(token, events[..|events| - 1]);
      match events[|events| - 1]
      case FromClient(data, last) => ClientKeepsConserved(t, token, data, last);
      case FromRemote(data, last) => RemoteKeepsConserved(t, token, data, last);
      case AnswerSent =>
    }
  }

  /** What has been sent depends only on what has been received, not on how it was cut: two tunnels in
      the pumping stage that received the same bytes sent the same bytes. */
  lemma CuttingDoesNotMatter(token: Bytes, a: seq<Event>, b: seq<Event>)
    requires Run(token, a).phase.Pumping? && Run(token, b).phase.Pumping?
    requires Run(token, a).fromClient == Run(token, b).fromClient
    requires Run(token, a).fromRemote == Run(token, b).fromRemote
    ensures Run(token, a) == Run(token, b)
  {
    EveryRunConserves(token, a);
    EveryRunConserves(token, b);
  }

  // ---------------------------------------------------------------- what the remote end reads

  predicate NoCr(s: Bytes) { forall i :: 0 <= i < |s| ==> s[i] != '\r' }

  lemma NotBlankAt(text: Bytes, i: nat)
    requires i + 4 <= |text| && (text[i] != '\r' || text[i + 2] != '\r')
    ensures !At(text, BLANK_LINE, i)
  {
    var window := text[i..i + 4];
    assert window[0] == text[i] && window[2] == text[i + 2];
  }

  ghost predicate NoCrlf(s: Bytes) { forall i: nat :: !At(s, CRLF, i) }

  lemma CrlfAt(s: Bytes, i: nat)
    requires i + 1 < |s|
    ensures At(s, CRLF, i) <==> s[i] == '\r' && s[i + 1] == '\n'
  {
    var window := s[i..i + 2];
    assert window[0] == s[i] && window[1] == s[i + 1];
  }

  /** A piece without a line break, framed by text without carriage returns, makes no line break. */
  lemma Framed(before: Bytes, piece: Bytes, after: Bytes) returns (line: Bytes)
    requires NoCr(before) && NoCrlf(piece) && NoCr(after) && (after != "" ==> after[0] != '\n')
    ensures line == before + piece + after && NoCrlf(line)
  {
    line := before + piece + after;
    forall i: nat ensures !At(line, CRLF, i) {
      if i + 2 <= |line| {
        CrlfAt(line, i);
        var k := i - |before|;
        if 0 <= k < |piece| - 1 {
          CrlfAt(piece, k);
          assert line[i] == piece[k] && line[i + 1] == piece[k + 1];
        }
      }
    }
  }

  /** Two lines and the start of a third hold no blank line. */
  lemma NoBlankBefore(a: Bytes, b: Bytes, c: Bytes, rest: Bytes)
    requires NoCrlf(a) && NoCrlf(b) && NoCr(c) && b != "" && b[0] != '\r' && c != ""
    ensures
      var head := a + CRLF + b + CRLF + c;
      forall i: nat :: i < |head| ==> !At(head + rest, BLANK_LINE, i)
  {
    var head := a + CRLF + b + CRLF + c;
    var text, p, q := head + rest, |a|, |a| + 2 + |b|;
    assert text[p] == text[q] == '\r' && text[p + 1] == text[q + 1] == '\n';
    assert text[p + 2] == b[0] && text[q + 2] == c[0];
    forall i: nat | i < |head| ensures !At(text, BLANK_LINE, i) {
      if i + 4 <= |text| {
        if i < p {
          assert text[i] == a[i];
          if i + 1 < p { CrlfAt(a, i); assert text[i + 1] == a[i + 1]; }
        } else if p + 2 <= i < q {
          assert text[i] == b[i - p - 2];
          if i + 1 < q { CrlfAt(b, i - p - 2); assert text[i + 1] == b[i + 1 - p - 2]; }
        } else if q + 2 <= i {
          assert text[i] == c[i - q - 2];
        }
        NotBlank(text, i);
      }
    }
  }

  lemma NotBlank(text: Bytes, i: nat)
    requires i + 4 <= |text| && (text[i] != '\r' || text[i + 1] != '\n' || text[i + 2] != '\r')
    ensures !At(text, BLANK_LINE, i)
  {
    var window := text[i..i + 4];
    assert window[0] == text[i] && window[1] == text[i + 1] && window[2] == text[i + 2];
  }

  // ---------------------------------------------------------------- the target is one line

  lemma {:induction false} FirstPieceIsInfix(s: Bytes, sep: Bytes) returns (k: nat)
    requires sep != ""
    ensures k + |FirstPiece(s, sep)| <= |s| && s[k..k + |FirstPiece(s, sep)|] == FirstPiece(s, sep)
    decreases |s|
  {
    k := 0;
    if s != "" && sep <= s {
      k := FirstPieceIsInfix(s[|sep|..], sep);
      k := k + |sep|;
    }
  }

  lemma {:induction false} FirstPieceHasNoSep(s: Bytes, sep: Bytes, i: nat)
    requires sep != ""
    ensures !At(FirstPiece(s, sep), sep, i)
    decreases |s|
  {
    if s != "" {
      if sep <= s {
        FirstPieceHasNoSep(s[|sep|..], sep, i);
      } else {
        FindIsFirst(s, sep);
        var piece := FirstPiece(s, sep);
        if i + |sep| <= |piece| {
          assert piece[i..i + |sep|] == s[i..i + |sep|];
          assert At(piece, sep, i) ==> At(s, sep, i);
        }
      }
    }
  }

  lemma InfixHasNoCrlf(s: Bytes, k: nat, r: Bytes)
    requires NoCrlf(s) && k + |r| <= |s| && s[k..k + |r|] == r
    ensures NoCrlf(r)
  {
    forall i: nat ensures !At(r, CRLF, i) {
      if i + 2 <= |r| { assert r[i..i + 2] == s[k + i..k + i + 2] && !At(s, CRLF, k + i); }
    }
  }

  lemma TargetHasNoCrlf(header: Bytes)
    requires Target(header).Some?
    ensures NoCrlf(Target(header).value)
  {
    var line := FirstPiece(header, CRLF);
    forall i: nat ensures !At(line, CRLF, i) { FirstPieceHasNoSep(header, CRLF, i); }
    InfixHasNoCrlf(line, 8, line[8..]);
    var k := FirstPieceIsInfix(line[8..], " ");
    InfixHasNoCrlf(line[8..], k, Target(header).value);
  }

  // ---------------------------------------------------------------- where our request's header ends

  /** The request up to the token. */
  function Head(target: Bytes): Bytes {
    "CONNECT " + target + " HTTP/1.1" + CRLF + ("Host: " + target) + CRLF + "x-session-token: "
  }

  lemma RequestIs(target: Bytes, token: Bytes)
    ensures Request(target, token) == Head(target) + (token + BLANK_LINE)
  {
    assert " HTTP/1.1\r\nHost: " == " HTTP/1.1" + CRLF + "Host: ";
    assert "\r\nx-session-token: " == CRLF + "x-session-token: ";
  }

  lemma HeadHasNoBlank(target: Bytes, rest: Bytes)
    requires NoCrlf(target)
    ensures forall i: nat :: i < |Head(target)| ==> !At(Head(target) + rest, BLANK_LINE, i)
  {
    var a := Framed("CONNECT ", target, " HTTP/1.1");
    var b := Framed("Host: ", target, "");
    assert "Host: " + target + "" == "Host: " + target;
    NoBlankBefore(a, b, "x-session-token: ", rest);
  }

  lemma FindSkips(prefix: Bytes, s: Bytes)
    requires (forall i: nat :: i < |prefix| ==> !At(prefix + s, BLANK_LINE, i)) && Find(s, BLANK_LINE).Some?
    ensures Find(prefix + s, BLANK_LINE) == Some(|prefix| + Find(s, BLANK_LINE).value)
  {
    FindIsFirst(s, BLANK_LINE);
    var n, k := |prefix|, Find(s, BLANK_LINE).value;
    forall i: nat | i < n + k ensures !At(prefix + s, BLANK_LINE, i) {
      if i >= n { AtInTail(prefix, s, i - n); }
    }
    AtInTail(prefix, s, k);
    FirstIsFound(prefix + s, BLANK_LINE, n + k);
  }

  lemma AtInTail(prefix: Bytes, s: Bytes, i: nat)
    ensures At(prefix + s, BLANK_LINE, |prefix| + i) <==> At(s, BLANK_LINE, i)
  {
    var n := |prefix|;
    if i + 4 <= |s| { assert (prefix + s)[n + i..n + i + 4] == s[i..i + 4]; }
  }

  lemma BlankStartsWithCr(s: Bytes, i: nat)
    requires At(s, BLANK_LINE, i)
    ensures s[i] == '\r'
  {
    assert s[i..i + 4][0] == s[i];
  }

  /** Where the token's own header line ends: at its end, unless the token holds a blank line or half of one. */
  function TokenEnd(token: Bytes): (k: nat)
    ensures k <= |token| && Find(token + BLANK_LINE, BLANK_LINE) == Some(k)
  {
    TokenIsEnded(token);
    Find(token + BLANK_LINE, BLANK_LINE).value
  }

  lemma TokenIsEnded(token: Bytes)
    ensures Find(token + BLANK_LINE, BLANK_LINE).Some? && Find(token + BLANK_LINE, BLANK_LINE).value <= |token|
  {
    var s := token + BLANK_LINE;
    assert s[|token|..|token| + 4] == BLANK_LINE;
    assert At(s, BLANK_LINE, |token|);
    FindIsFirst(s, BLANK_LINE);
  }

  /** Read up to the first blank line, our request followed by anything leaves what follows it behind whatever
      the token holds after its own end. */
  lemma RequestBody(target: Bytes, token: Bytes, rest: Bytes)
    requires NoCrlf(target)
    ensures Find(Request(target, token) + rest, BLANK_LINE).Some?
    ensures Body(Request(target, token) + rest) == (token + BLANK_LINE)[TokenEnd(token) + 4..] + rest
  {
    RequestIs(target, token);
    HeadHasNoBlank(target, token + BLANK_LINE);
    var request, k := Request(target, token), TokenEnd(token);
    FindSkips(Head(target), token + BLANK_LINE);
    BodyGrows(request, rest);
    assert request[|Head(target)| + k + 4..] == (token + BLANK_LINE)[k + 4..];
  }

  lemma TokenEndsWithCr(token: Bytes)
    ensures TokenEnd(token) < |token| ==> token[TokenEnd(token)] == '\r'
  {
    FindIsFirst(token + BLANK_LINE, BLANK_LINE);
    BlankStartsWithCr(token + BLANK_LINE, TokenEnd(token));
  }

  /** A token without carriage returns ends at its end. */
  lemma PlainTokenEnds(token: Bytes)
    requires NoCr(token)
    ensures TokenEnd(token) == |token|
  {
    TokenEndsWithCr(token);
  }

  lemma EstablishedIsOneHeader()
    ensures Find(ESTABLISHED, BLANK_LINE) == Some(|ESTABLISHED| - 4)
  {
    var line: Bytes := "HTTP/1.1 200 Connection Established";
    var n := |line|;
    assert ESTABLISHED == line + BLANK_LINE;
    assert ESTABLISHED[n..n + 4] == BLANK_LINE;
    assert NoCr(line);
    forall i: nat | i < n ensures !At(ESTABLISHED, BLANK_LINE, i) {
      assert ESTABLISHED[i] == line[i];
      NotBlankAt(ESTABLISHED, i);
    }
    FirstIsFound(ESTABLISHED, BLANK_LINE, n);
  }

  lemma BodyAfterHeader(header: Bytes, rest: Bytes)
    requires Find(header, BLANK_LINE) == Some(|header| - 4)
    ensures Find(header + rest, BLANK_LINE).Some? && Body(header + rest) == rest
  {
    BodyGrows(header, rest);
  }

  /** In every pumping run the client is left with exactly the remote's own bytes, and the remote with what
      the token holds after its own end and then the client's: exactly the client's own bytes if and only if
      the first blank line after the token's start is the one written behind it. */
  lemma FarEndsReadEachOther(token: Bytes, events: seq<Event>)
    requires Run(token, events).phase.Pumping?
    ensures
      var t := Run(token, events);
      && Find(t.fromClient, BLANK_LINE).Some? && Find(t.fromRemote, BLANK_LINE).Some?
      && Find(t.toRemote, BLANK_LINE).Some? && Find(t.toClient, BLANK_LINE).Some?
      && Body(t.toClient) == Body(t.fromRemote)
      && Body(t.toRemote) == (token + BLANK_LINE)[TokenEnd(token) + 4..] + Body(t.fromClient)
      && (Body(t.toRemote) == Body(t.fromClient) <==> Find(token + BLANK_LINE, BLANK_LINE) == Some(|token|))
  {
    EveryRunConserves(token, events);
    var t := Run(token, events);
    TargetHasNoCrlf(t.fromClient[..Find(t.fromClient, BLANK_LINE).value]);
    RequestBody(t.phase.target, token, Body(t.fromClient));
    EstablishedIsOneHeader();
    BodyAfterHeader(ESTABLISHED, Body(t.fromRemote));
  }

  /** A token as the orchestrator issues them ends at its end, so every pumping run leaves the remote with
      exactly the client's bytes. */
  lemma IssuedTokenIsRelayed(
    k: SessionToken.Codec, p: SessionToken.Payload, secret: string, events: seq<Event>)
    requires Run(SessionToken.Issue(k, p, secret), events).phase.Pumping?
    ensures
      var t := Run(SessionToken.Issue(k, p, secret), events);
      Find(t.toRemote, BLANK_LINE).Some? && Find(t.fromClient, BLANK_LINE).Some?
      && Body(t.toRemote) == Body(t.fromClient)
  {
    Base64.EncodeAlphabet(k.write(p));
    Base64.EncodeAlphabet(k.mac(SessionToken.Body(k, p), secret));
    PlainTokenEnds(SessionToken.Issue(k, p, secret));
    FarEndsReadEachOther(SessionToken.Issue(k, p, secret), events);
  }

  lemma EndsAtFirstBlank(x: Bytes, y: Bytes)
    requires NoCr(x)
    ensures TokenEnd(x + BLANK_LINE + y) == |x| && (x + BLANK_LINE + y + BLANK_LINE)[|x| + 4..] == y + BLANK_LINE
  {
    var s, tail := x + BLANK_LINE + y + BLANK_LINE, BLANK_LINE + (y + BLANK_LINE);
    assert s == x + tail;
    forall i: nat | i < |x| ensures !At(x + tail, BLANK_LINE, i) {
      if At(x + tail, BLANK_LINE, i) { BlankStartsWithCr(x + tail, i); }
    }
    assert tail[..4] == BLANK_LINE;
    FindSkips(x, tail);
    assert tail[4..] == y + BLANK_LINE;
  }

  /** With a blank line inside the token the header ends there, and the token's rest comes before the client's
      bytes. */
  lemma TokenWithBlankLine(x: Bytes, y: Bytes, events: seq<Event>)
    requires NoCr(x) && Run(x + BLANK_LINE + y, events).phase.Pumping?
    ensures
      var t := Run(x + BLANK_LINE + y, events);
      Find(t.toRemote, BLANK_LINE).Some? && Find(t.fromClient, BLANK_LINE).Some?
      && Body(t.toRemote) == y + BLANK_LINE + Body(t.fromClient)
  {
    FarEndsReadEachOther(x + BLANK_LINE + y, events);
    EndsAtFirstBlank(x, y);
  }
}
