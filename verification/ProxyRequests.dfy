/** What the proxy asks the remote for, what it makes of the answer, and when a tunnel ends. */
module ProxyRequests {
  import opened Optional
  import opened ProxyRelay

  // ---------------------------------------------------------------- the target

  /** No space and no line break. */
  predicate Word(t: Bytes) {
    t != "" && forall i :: 0 <= i < |t| ==> t[i] != ' ' && t[i] != '\r' && t[i] != '\n'
  }

  lemma AtStarts(s: Bytes, sep: Bytes, i: nat)
    requires sep != "" && At(s, sep, i)
    ensures s[i] == sep[0]
  {
    assert s[i..i + |sep|][0] == s[i];
  }

  lemma NothingBefore(s: Bytes, sep: Bytes, n: nat)
    requires sep != "" && n <= |s| && forall i :: 0 <= i < n ==> s[i] != sep[0]
    ensures Find(s, sep).Some? ==> Find(s, sep).value >= n
  {
    FindIsFirst(s, sep);
    if Find(s, sep).Some? { AtStarts(s, sep, Find(s, sep).value); }
  }

  lemma FirstWord(t: Bytes, tail: Bytes)
    requires Word(t)
    ensures FirstPiece(t + " " + tail, " ") == t
  {
    var s := t + " " + tail;
    NothingBefore(s, " ", |t|);
    assert s[|t|..|t| + 1] == " ";
    assert At(s, " ", |t|);
    FindIsFirst(s, " ");
    assert s[..1] == [t[0]];
  }

  /** A well-formed header that asks for a target is read as asking for exactly that target, whatever follows. */
  lemma TargetIsRead(t: Bytes, tail: Bytes)
    requires Word(t) && ValidUtf8("CONNECT " + t + " " + tail)
    ensures Target("CONNECT " + t + " " + tail) == Some(t)
  {
    var start := "CONNECT " + t + " ";
    var header := start + tail;
    assert header == "CONNECT " + t + " " + tail;
    NothingBefore(header, CRLF, |start|);
    assert header[..2] == "CO";
    var line := FirstPiece(header, CRLF);
    assert start <= line <= header;
    var after := line[|start|..];
    assert line[8..] == t + " " + after;
    FirstWord(t, after);
    assert "CONNECT " <= line;
  }

  /** `n` separators. */
  function Repeat(sep: Bytes, n: nat): Bytes { if n == 0 then "" else sep + Repeat(sep, n - 1) }

  lemma {:induction false} SkipsSeparators(sep: Bytes, n: nat, s: Bytes)
    requires sep != ""
    ensures FirstPiece(Repeat(sep, n) + s, sep) == FirstPiece(s, sep)
  {
    if n > 0 {
      SkipsSeparators(sep, n - 1, s);
      var all := Repeat(sep, n) + s;
      assert all[|sep|..] == Repeat(sep, n - 1) + s;
      assert sep <= all;
    } else {
      assert Repeat(sep, 0) + s == s;
    }
  }

  lemma LineOfTarget(spaces: Bytes, t: Bytes, tail: Bytes)
    requires Word(t) && forall i :: 0 <= i < |spaces| ==> spaces[i] == ' '
    ensures
      var start := "CONNECT " + spaces + t + " ";
      start <= FirstPiece(start + tail, CRLF)
  {
    var start := "CONNECT " + spaces + t + " ";
    NothingBefore(start + tail, CRLF, |start|);
    assert (start + tail)[..2] == "CO";
  }

  lemma {:induction false} RepeatedSpaces(n: nat)
    ensures forall i :: 0 <= i < |Repeat(" ", n)| ==> Repeat(" ", n)[i] == ' '
  {
    if n > 0 { RepeatedSpaces(n - 1); }
  }

  /** Line breaks in front of the request line and further spaces in front of the target make no difference. */
  lemma TargetAfterSeparators(breaks: nat, spaces: nat, t: Bytes, tail: Bytes)
    requires Word(t)
    requires ValidUtf8(Repeat(CRLF, breaks) + ("CONNECT " + Repeat(" ", spaces) + t + " " + tail))
    ensures Target(Repeat(CRLF, breaks) + ("CONNECT " + Repeat(" ", spaces) + t + " " + tail)) == Some(t)
  {
    var start := "CONNECT " + Repeat(" ", spaces) + t + " ";
    RepeatedSpaces(spaces);
    LineOfTarget(Repeat(" ", spaces), t, tail);
    SkipsSeparators(CRLF, breaks, start + tail);
    var line := FirstPiece(start + tail, CRLF);
    var after := line[|start|..];
    assert line[8..] == Repeat(" ", spaces) + (t + " " + after);
    SkipsSeparators(" ", spaces, t + " " + after);
    FirstWord(t, after);
    assert "CONNECT " <= line;
  }

  /** And what is taken for a target, in a header of well-formed UTF-8 only, is a word. */
  lemma TargetIsWord(header: Bytes)
    requires Target(header).Some?
    ensures ValidUtf8(header) && Target(header).value != "" && NoCrlf(Target(header).value)
    ensures forall i :: 0 <= i < |Target(header).value| ==> Target(header).value[i] != ' '
  {
    TargetHasNoCrlf(header);
    var t, line := Target(header).value, FirstPiece(header, CRLF);
    forall i | 0 <= i < |t| ensures t[i] != ' ' {
      FirstPieceHasNoSep(line[8..], " ", i);
      assert t[i..i + 1] == [t[i]];
    }
  }

  lemma StartsLonger(a: Bytes, b: Bytes, c: Bytes)
    requires b <= c
    ensures a <= b ==> a <= c
  {}

  /** A header that starts with neither the method nor a line break asks for nothing. */
  lemma NoConnectNoTarget(header: Bytes)
    requires !("CONNECT " <= header) && !(CRLF <= header)
    ensures Target(header).None?
  {
    var line := FirstPiece(header, CRLF);
    assert line <= header;
    StartsLonger("CONNECT ", line, header);
  }

  lemma HeaderStarts(s: Bytes, t: Bytes)
    requires Word(t) && "CONNECT " + t + " " <= s && Find(s, BLANK_LINE).Some?
    ensures "CONNECT " + t + " " <= s[..Find(s, BLANK_LINE).value]
  {
    NothingBefore(s, BLANK_LINE, |"CONNECT " + t + " "|);
  }

  lemma TargetOfStart(header: Bytes, t: Bytes)
    requires Word(t) && "CONNECT " + t + " " <= header && ValidUtf8(header)
    ensures Target(header) == Some(t)
  {
    var start := "CONNECT " + t + " ";
    assert header == start + header[|start|..];
    TargetIsRead(t, header[|start|..]);
  }

  /** In every run whose client asks for a target, nothing is sent to the remote but the request for that target
      and what follows it. */
  lemma AsksForTheTarget(token: Bytes, events: seq<Event>, t: Bytes)
    requires Word(t) && "CONNECT " + t + " " <= Run(token, events).fromClient
    ensures Run(token, events).toRemote == "" || Request(t, token) <= Run(token, events).toRemote
  {
    EveryRunConserves(token, events);
    var run := Run(token, events);
    if run.toRemote != "" {
      HeaderStarts(run.fromClient, t);
      TargetOfStart(run.fromClient[..Find(run.fromClient, BLANK_LINE).value], t);
    }
  }

  /** And it is sent once the header is there, in any cutting. */
  lemma TargetIsAsked(token: Bytes, receives: seq<Receive>, t: Bytes)
    requires ReadHeader("", receives).Header? && Word(t) && "CONNECT " + t + " " <= ReadHeader("", receives).header
    requires ValidUtf8(ReadHeader("", receives).header)
    ensures Run(token, ClientEvents(receives)).phase == ReadingRemote(t, ReadHeader("", receives).leftover, "")
    ensures Run(token, ClientEvents(receives)).toRemote == Request(t, token)
  {
    TunnelReads(token, receives);
    TargetOfStart(ReadHeader("", receives).header, t);
    EveryRunConserves(token, ClientEvents(receives));
  }

  // ---------------------------------------------------------------- the request, line by line

  /** Line `n` of a text, as a reader takes it off. */
  function Line(s: Bytes, n: nat): Bytes {
    var i := Find(s, CRLF);
    if i.None? then s else if n == 0 then s[..i.value] else Line(s[i.value + 2..], n - 1)
  }

  lemma LineEnds(line: Bytes, rest: Bytes)
    requires NoCr(line)
    ensures Find(line + CRLF + rest, CRLF) == Some(|line|) && (line + CRLF + rest)[|line| + 2..] == rest
  {
    var s := line + CRLF + rest;
    assert s[|line|..|line| + 2] == CRLF;
    NothingBefore(s, CRLF, |line|);
    FindIsFirst(s, CRLF);
    assert At(s, CRLF, |line|);
  }

  lemma NextLine(line: Bytes, rest: Bytes, n: nat)
    requires NoCr(line)
    ensures Line(line + CRLF + rest, 0) == line && Line(line + CRLF + rest, n + 1) == Line(rest, n)
  {
    LineEnds(line, rest);
  }

  /** Four lines, the last of them empty. */
  lemma FourLines(a: Bytes, b: Bytes, c: Bytes, rest: Bytes)
    requires NoCr(a) && NoCr(b) && NoCr(c)
    ensures
      var s := a + CRLF + (b + CRLF + (c + CRLF + ("" + CRLF + rest)));
      Line(s, 0) == a && Line(s, 1) == b && Line(s, 2) == c && Line(s, 3) == ""
  {
    var s3 := "" + CRLF + rest;
    var s2 := c + CRLF + s3;
    var s1 := b + CRLF + s2;
    NextLine(a, s1, 0);
    NextLine(a, s1, 1);
    NextLine(a, s1, 2);
    NextLine(b, s2, 0);
    NextLine(b, s2, 1);
    NextLine(c, s3, 0);
    NextLine("", rest, 0);
  }

  lemma RequestLines(t: Bytes, token: Bytes, rest: Bytes)
    ensures Request(t, token) + rest
         == "CONNECT " + t + " HTTP/1.1" + CRLF
            + ("Host: " + t + CRLF + ("x-session-token: " + token + CRLF + ("" + CRLF + rest)))
  {
    var a, b, c := "CONNECT " + t + " HTTP/1.1", "Host: " + t, "x-session-token: " + token;
    assert Request(t, token) == a + (CRLF + b) + (CRLF + c) + BLANK_LINE by {
      assert " HTTP/1.1\r\nHost: " == " HTTP/1.1" + (CRLF + "Host: ");
      assert "\r\nx-session-token: " == CRLF + "x-session-token: ";
    }
    Joined(a, b, c, rest);
  }

  lemma Joined(a: Bytes, b: Bytes, c: Bytes, rest: Bytes)
    ensures a + (CRLF + b) + (CRLF + c) + BLANK_LINE + rest
         == a + CRLF + (b + CRLF + (c + CRLF + ("" + CRLF + rest)))
  {
    assert BLANK_LINE == CRLF + CRLF;
  }

  /** The request is a request line for the target, its host, the token, and the end. */
  lemma RequestReads(t: Bytes, token: Bytes, rest: Bytes)
    requires NoCr(t) && NoCr(token)
    ensures
      var s := Request(t, token) + rest;
      && Line(s, 0) == "CONNECT " + t + " HTTP/1.1" && Line(s, 1) == "Host: " + t
      && Line(s, 2) == "x-session-token: " + token && Line(s, 3) == ""
  {
    RequestLines(t, token, rest);
    FourLines("CONNECT " + t + " HTTP/1.1", "Host: " + t, "x-session-token: " + token, rest);
  }

  // ---------------------------------------------------------------- the answer

  /** The two status lines the proxy goes on after. */
  predicate Says200(header: Bytes) { "HTTP/1.1 200" <= header || "HTTP/1.0 200" <= header }

  /** Past the remote's answer, in every run: the client has been told that the tunnel stands exactly if the
      answer's header is UTF-8 and says 200, and otherwise that it does not. */
  lemma AnswerDecides(token: Bytes, events: seq<Event>)
    requires
      var t := Run(token, events);
      t.phase.Rejected? || t.phase.Answering? || t.phase.Pumping? || t.phase.Closed?
    ensures
      var t := Run(token, events);
      var i := Find(t.fromRemote, BLANK_LINE);
      var fine := i.Some? && ValidUtf8(t.fromRemote[..i.value]) && Says200(t.fromRemote[..i.value]);
      && (t.phase.Rejected? <==> !fine)
      && (fine ==> "HTTP/1.1 200 Connection Established\r\n\r\n" <= t.toClient)
      && (!fine ==> t.toClient == "HTTP/1.1 502 Bad Gateway\r\n\r\n")
  {
    EveryRunConserves(token, events);
  }

  // ---------------------------------------------------------------- a tunnel opens and goes on

  function RemoteEvents(receives: seq<Receive>): (events: seq<Event>)
    ensures |events| == |receives|
  {
    if receives == [] then []
    else
      var r := receives[|receives| - 1];
      RemoteEvents(receives[..|receives| - 1]) + [FromRemote(r.data, r.last)]
  }

  /** Where a reading of the remote's header leaves a tunnel that has asked. */
  function PhaseAfterAnswer(target: Bytes, leftover: Bytes, reading: Reading): Phase {
    match reading
    case Waiting(b) => ReadingRemote(target, leftover, b)
    case EndedEarly(_) => Rejected(target)
    case Header(header, after, _) =>
      if ValidUtf8(header) && Says200(header) then Answering(target, leftover, after) else Rejected(target)
  }

  lemma OneMoreEvent(token: Bytes, events: seq<Event>, e: Event)
    ensures Run(token, events + [e]) == Step(Run(token, events), token, e)
  {
    assert (events + [e])[..|events|] == events;
  }

  lemma AnswerStep(t: Tunnel, token: Bytes, target: Bytes, leftover: Bytes, reading: Reading, r: Receive)
    requires t.phase == PhaseAfterAnswer(target, leftover, reading)
    ensures Step(t, token, FromRemote(r.data, r.last)).phase
         == PhaseAfterAnswer(target, leftover, Continued(reading, r))
  {}

  lemma {:induction false} RemoteReads(
    token: Bytes, events: seq<Event>, target: Bytes, leftover: Bytes, receives: seq<Receive>)
    requires Run(token, events).phase == ReadingRemote(target, leftover, "")
    ensures Run(token, events + RemoteEvents(receives)).phase
         == PhaseAfterAnswer(target, leftover, ReadHeader("", receives))
  {
    if receives == [] {
      assert events + [] == events;
    } else {
      var n := |receives| - 1;
      var before, e := events + RemoteEvents(receives[..n]), FromRemote(receives[n].data, receives[n].last);
      RemoteReads(token, events, target, leftover, receives[..n]);
      ReadHeaderOneMore("", receives[..n], receives[n]);
      assert receives[..n] + [receives[n]] == receives;
      assert events + RemoteEvents(receives) == before + [e];
      OneMoreEvent(token, before, e);
      AnswerStep(Run(token, before), token, target, leftover, ReadHeader("", receives[..n]), receives[n]);
    }
  }

  /** A client that asks in well-formed UTF-8 and a remote that says 200 get their tunnel, however both streams are
      cut. */
  lemma TunnelOpens(token: Bytes, client: seq<Receive>, remote: seq<Receive>, t: Bytes)
    requires ReadHeader("", client).Header? && ReadHeader("", remote).Header?
    requires Word(t) && "CONNECT " + t + " " <= ReadHeader("", client).header
    requires ValidUtf8(ReadHeader("", client).header)
    requires ValidUtf8(ReadHeader("", remote).header) && Says200(ReadHeader("", remote).header)
    ensures Run(token, ClientEvents(client) + RemoteEvents(remote) + [AnswerSent]).phase == Pumping(t)
  {
    TargetIsAsked(token, client, t);
    RemoteReads(token, ClientEvents(client), t, ReadHeader("", client).leftover, remote);
    OneMoreEvent(token, ClientEvents(client) + RemoteEvents(remote), AnswerSent);
  }

  /** Once open it stays open, and each side is sent what the other sends, until a stream ends. */
  lemma TunnelGoesOn(token: Bytes, events: seq<Event>, data: Bytes)
    requires Run(token, events).phase.Pumping?
    ensures
      var t := Run(token, events);
      && Run(token, events + [FromClient(data, false)])
         == t.(fromClient := t.fromClient + data, toRemote := t.toRemote + data)
      && Run(token, events + [FromRemote(data, false)])
         == t.(fromRemote := t.fromRemote + data, toClient := t.toClient + data)
  {
    OneMoreEvent(token, events, FromClient(data, false));
    OneMoreEvent(token, events, FromRemote(data, false));
  }

  // ---------------------------------------------------------------- the end

  /** Nothing happens on this connection any more. */
  predicate Over(p: Phase) { p.Refused? || p.Rejected? || p.Closed? }

  lemma {:induction false} OverStays(token: Bytes, events: seq<Event>, later: seq<Event>)
    requires Over(Run(token, events).phase)
    ensures Run(token, events + later) == Run(token, events)
  {
    if later == [] {
      assert events + later == events;
    } else {
      var n := |later| - 1;
      OverStays(token, events, later[..n]);
      assert (events + later)[..|events + later| - 1] == events + later[..n];
    }
  }

  /** The stream that ends with this event is one the tunnel is listening to. */
  predicate Ends(t: Tunnel, e: Event) {
    match e
    case FromClient(_, last) => last && (t.phase.ReadingClient? || t.phase.Pumping?)
    case FromRemote(_, last) => last && (t.phase.ReadingRemote? || t.phase.Pumping?)
    case AnswerSent => false
  }

  /** When a stream ends while its header is still incomplete, or while the pumps run, that is the end: whatever
      comes later, nothing more is sent in either direction. */
  lemma EndIsTheEnd(token: Bytes, events: seq<Event>, e: Event, later: seq<Event>)
    requires Ends(Run(token, events), e)
    requires
      var t := Run(token, events);
      t.phase.Pumping? || Find((if e.FromClient? then t.fromClient else t.fromRemote) + e.data, BLANK_LINE).None?
    ensures Over(Run(token, events + [e]).phase)
    ensures Run(token, events + [e] + later) == Run(token, events + [e])
  {
    EveryRunConserves(token, events);
    assert (events + [e])[..|events|] == events;
    OverStays(token, events + [e], later);
  }
}
