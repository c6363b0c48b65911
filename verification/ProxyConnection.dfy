/** The proxy's callbacks on one client connection, updating their buffers and sending in place. */
module ProxyConnection {
  import opened ProxyRelay

  class Connection {
    const token: Bytes
    var phase: Phase
    ghost var fromClient: Bytes
    ghost var fromRemote: Bytes
    var toClient: Bytes
    var toRemote: Bytes

    ghost function View(): Tunnel
      reads this
    {
      Tunnel(phase, fromClient, fromRemote, toClient, toRemote)
    }

    constructor (token: Bytes)
      ensures View() == OPENED && Conserved(View(), token) && this.token == token
    {
      this.token, phase := token, ReadingClient("");
      fromClient, fromRemote, toClient, toRemote := "", "", "", "";
    }

    /** The reader both sides share, on one receive. */
    method ReadUntilDoubleCrlf(received: Bytes, data: Bytes, last: bool) returns (taken: Taken)
      ensures taken == Take(received, Receive(data, last))
    {
      var buffer := received + data;
      var range := Find(buffer, BLANK_LINE);
      if range.Some? { return Found(buffer[..range.value], buffer[range.value + 4..]); }
      if last { return Ended; }
      return More(buffer);
    }

    method OnClientReceive(data: Bytes, last: bool)
      requires Conserved(View(), token)
      modifies this
      ensures View() == OnClient(old(View()), token, data, last) && Conserved(View(), token)
    {
      ClientKeepsConserved(View(), token, data, last);
      if phase.ReadingClient? {
        var taken := ReadUntilDoubleCrlf(phase.buffer, data, last);
        fromClient := fromClient + data;
        match taken
        case Found(header, leftover) => HandleClientHeader(header, leftover);
        case Ended => phase := Refused;
        case More(buffer) => phase := ReadingClient(buffer);
      } else if phase.Pumping? {
        fromClient := fromClient + data;
        toRemote := toRemote + data;
        if last { phase := Closed(phase.target); }
      }
    }

    method HandleClientHeader(header: Bytes, leftover: Bytes)
      modifies this`phase, this`toRemote
      ensures if Target(header).None? then phase == Refused && toRemote == old(toRemote)
              else phase == ReadingRemote(Target(header).value, leftover, "")
                   && toRemote == old(toRemote) + Request(Target(header).value, token)
    {
      var target := Target(header);
      if target.None? {
        phase := Refused;
      } else {
        phase := ReadingRemote(target.value, leftover, "");
        toRemote := toRemote + Request(target.value, token);
      }
    }

    method OnRemoteReceive(data: Bytes, last: bool)
      requires Conserved(View(), token)
      modifies this
      ensures View() == OnRemote(old(View()), data, last) && Conserved(View(), token)
    {
      RemoteKeepsConserved(View(), token, data, last);
      if phase.ReadingRemote? {
        var target, leftover := phase.target, phase.leftover;
        var taken := ReadUntilDoubleCrlf(phase.buffer, data, last);
        fromRemote := fromRemote + data;
        if taken.More? {
          phase := ReadingRemote(target, leftover, taken.buffer);
        } else if taken.Ended? || !Accepts(taken.header) {
          toClient := toClient + BAD_GATEWAY;
          phase := Rejected(target);
        } else {
          toClient := toClient + ESTABLISHED;
          phase := Answering(target, leftover, taken.leftover);
        }
      } else if phase.Pumping? {
        fromRemote := fromRemote + data;
        toClient := toClient + data;
        if last { phase := Closed(phase.target); }
      }
    }

    method OnAnswerProcessed()
      requires Conserved(View(), token)
      modifies this
      ensures View() == OnAnswerSent(old(View())) && Conserved(View(), token)
    {
      if phase.Answering? {
        var target, leftover, remoteLeftover := phase.target, phase.leftover, phase.remoteLeftover;
        if leftover != "" { toRemote := toRemote + leftover; }
        if remoteLeftover != "" { toClient := toClient + remoteLeftover; }
        phase := Pumping(target);
      }
    }
  }
}
