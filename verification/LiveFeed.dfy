/** The server's hub of connected sockets, one of them, and the page behind it, as objects updated in place.
    Seen together they are a `World` of `Replication`, and their methods are its events. */
module LiveFeed {
  import opened Optional
  import opened Replication
  import opened SessionLog

  class Socket {
    var open: bool
    /** Sent and not yet delivered, oldest first. */
    var pending: seq<Row>
    /** How many rows the hub had broadcast when it was registered, and the last it has delivered. */
    ghost var registeredAt: nat
    ghost var delivered: nat

    constructor ()
      ensures open && pending == [] && registeredAt == 0 && delivered == 0
    {
      open, pending, registeredAt, delivered := true, [], 0, 0;
    }

    /** The oldest row arrives and the page's handler runs. */
    method Deliver(page: SessionPage, ghost hub: Hub, ghost rows: seq<Row>)
      modifies this, page
      ensures View(hub, this, page, rows) == Apply(page.sid, old(View(hub, this, page, rows)), Event.Deliver)
    {
      if pending == [] { return; }
      var row := pending[0];
      pending := pending[1..];
      delivered := delivered + 1;
      page.OnMessage(row);
    }
  }

  class Hub {
    var clients: set<Socket>
    /** How many rows of the log have been broadcast. */
    ghost var broadcast: nat

    constructor ()
      ensures clients == {} && broadcast == 0
    {
      clients, broadcast := {}, 0;
    }

    method RegisterClient(socket: Socket, ghost page: SessionPage, ghost rows: seq<Row>)
      requires socket in clients || (socket.open && socket.pending == [])
      modifies this, socket
      ensures clients == old(clients) + {socket}
      ensures View(this, socket, page, rows) == Apply(page.sid, old(View(this, socket, page, rows)), Register)
    {
      if socket !in clients { socket.registeredAt, socket.delivered := broadcast, broadcast; }
      clients := clients + {socket};
    }

    method OnClose(socket: Socket)
      modifies this
      ensures clients == old(clients) - {socket} && broadcast == old(broadcast)
    {
      clients := clients - {socket};
    }

    /** The next row of the log goes to every registered open socket, last and once, and to nobody else; in the
        world of any one of them that is its broadcast. */
    method Broadcast(row: Row, ghost socket: Socket, ghost page: SessionPage, ghost rows: seq<Row>)
      requires broadcast < |rows| && row == rows[broadcast]
      requires if socket in clients then socket.open else socket.pending == []
      modifies this, clients
      ensures clients == old(clients)
      ensures forall c :: c in clients ==> c.open == old(c.open)
      ensures forall c :: c in clients ==> c.pending == old(c.pending) + (if c.open then [row] else [])
      ensures View(this, socket, page, rows) == Apply(page.sid, old(View(this, socket, page, rows)), Event.Broadcast)
    {
      var rest := clients;
      broadcast := broadcast + 1;
      while rest != {}
        invariant rest <= clients && clients == old(clients) && broadcast == old(broadcast) + 1
        invariant forall c :: c in clients ==> c.open == old(c.open)
        invariant forall c :: c in clients ==> c.registeredAt == old(c.registeredAt) && c.delivered == old(c.delivered)
        invariant forall c :: c in clients - rest ==> c.pending == old(c.pending) + (if c.open then [row] else [])
        invariant forall c :: c in rest ==> c.pending == old(c.pending)
        decreases |rest|
      {
        var client :| client in rest;
        if client.open { client.pending := client.pending + [row]; }
        rest := rest - {client};
      }
    }
  }

  class SessionPage {
    const sid: SessionId
    var live: seq<Row>
    /** The answer of the snapshot request on its way. */
    var response: Option<seq<Row>>
    var detail: Option<seq<Row>>
    /** How long the log was when the snapshot was read. */
    ghost var readAt: nat

    constructor (sid: SessionId)
      ensures this.sid == sid && live == [] && response == None && detail == None && readAt == 0
    {
      this.sid, live, response, detail, readAt := sid, [], None, None, 0;
    }

    method OnMessage(row: Row)
      modifies this`live
      ensures live == Received(old(live), row, sid)
    {
      if row.sessionId != sid { return; }
      live := live + [row];
    }

    /** The server answers the page's one snapshot request from its table. */
    method ReadSnapshot(rows: seq<Row>, ghost hub: Hub, ghost socket: Socket)
      modifies this
      ensures View(hub, socket, this, rows) == Apply(sid, old(View(hub, socket, this, rows)), Event.ReadSnapshot)
    {
      if response.Some? || detail.Some? || SessionEvents(rows, sid) == [] { return; }
      response, readAt := Some(SessionEvents(rows, sid)), |rows|;
    }

    method SetDetail(ghost hub: Hub, ghost socket: Socket, ghost rows: seq<Row>)
      modifies this
      ensures View(hub, socket, this, rows) == Apply(sid, old(View(hub, socket, this, rows)), SnapshotArrives)
    {
      if response.None? { return; }
      response, detail := None, response;
    }
  }

  /** Hub, socket and page on a log, as a world. */
  ghost function View(hub: Hub, socket: Socket, page: SessionPage, rows: seq<Row>): World
    reads hub, socket, page
  {
    World(rows, hub.broadcast, socket in hub.clients, socket.pending, page.live, page.response, page.detail,
          socket.registeredAt, socket.delivered, page.readAt)
  }
}
