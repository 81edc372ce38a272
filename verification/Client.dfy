/** The client transport: Connect takes a lease from the pool and keeps it only if it succeeds. */
module Client {
  import opened Common
  import opened PoolSpec
  import opened ConnectionPool
  import opened Tracks
  import opened ControlConnection
  import opened Retrying
  import L = ClientSpec

  // What the library calls of one Connect answer: nil or an error each, and the discovered ID.
  datatype SetupAnswers = SetupAnswers(run: Option<Error>, fetch: Option<Error>, sessionID: string, subscribe: Option<Error>)

  datatype ConnectResult = Connected(conn: Conn, sessionID: string) | Failed(err: Error)

  predicate Succeeds(a: SetupAnswers) {
    a.run.None? && a.fetch.None? && a.sessionID != "" && a.subscribe.None?
  }

  // The error of the first session call that failed, where an empty session ID is one too.
  predicate IsFirstError(a: SetupAnswers, err: Error) {
    || a.run == Some(err)
    || (a.run.None? && a.fetch == Some(err))
    || (a.run.None? && a.fetch.None? && a.sessionID == "" && err == EmptySessionID)
    || (a.run.None? && a.fetch.None? && a.sessionID != "" && a.subscribe == Some(err))
  }

  /** One Connect on values: it ends holding one more lease or none more. */
  lemma ConnectOutcome(s: L.Sys, c: nat, now: int, dial: Dial, ok: bool)
    requires c !in s.clients && (dial.Dialed? ==> dial.conn !in s.dialled)
    ensures var got := L.Step(s, L.Connect(c, false, now, dial));
      && c in got.clients && !got.clients[c].Open?
      && (got.clients[c].Ended? <==> PoolSpec.Get(s.pool, false, s.addr, now, dial).1.Refused?)
      && (got.clients[c].Ended? ==> L.Holders(got) == L.Holders(s))
      && (got.clients[c].Connecting? ==>
            && L.Holders(L.Step(got, L.ConnectReturns(c))) == L.Holders(s) + {c}
            && L.Holders(L.Step(got, L.ConnectFails(c, false))) == L.Holders(s))
  {
  }

  class MOQTClientTransport {
    const addr: string
    const connPool: QUICConnectionPool
    var session: Option<nat>
    var sessionID: string
    var quicConn: Option<Conn>
    ghost var sys: L.Sys       // every Connect of this transport so far

    ghost predicate Valid()
      reads this, connPool, EntriesOf(connPool.connections)
    {
      connPool.Valid() && sys.pool == connPool.View() && sys.addr == addr && SessionFields()
    }

    // The fields are those of the Connect call that returned last, or were cleared since.
    ghost predicate SessionFields()
      reads this
    {
      match sys.session
      case None => session.None? && quicConn.None?
      case Some(d) => session.Some? && d in sys.clients && sys.clients[d].Open? && quicConn == Some(sys.clients[d].conn)
    }

    constructor (addr: string)
      ensures Valid() && fresh(connPool) && sys == L.Init(addr, 10, 30_000_000_000)
      ensures session == None && sessionID == "" && quicConn == None
    {
      this.addr, session, sessionID, quicConn := addr, None, "", None;
      connPool := new QUICConnectionPool(10, 30_000_000_000);
      sys := L.Init(addr, 10, 30_000_000_000);
    }

    /** A Connect that fails after obtaining a lease gives it back; one that succeeds keeps exactly one
        and returns a control connection whose OnClose gives it back. */
    method Connect(ghost c: nat, now: int, dial: Dial, sessionRef: nat, answers: SetupAnswers)
      returns (r: ConnectResult, conn: ClientConnection?)
      requires Valid() && c !in sys.clients && (dial.Dialed? ==> dial.conn !in sys.dialled)
      modifies this, connPool, EntriesOf(connPool.connections)
      ensures Valid() && fresh(EntriesOf(connPool.connections) - old(EntriesOf(connPool.connections)))
      ensures var got := L.Step(old(sys), L.Connect(c, false, now, dial));
        sys == if got.clients[c].Ended? then got
               else if Succeeds(answers) then L.Step(got, L.ConnectReturns(c))
               else L.Step(got, L.ConnectFails(c, false))
      ensures r.Connected? ==> L.Holders(sys) == L.Holders(old(sys)) + {c} && L.Holds(sys, c, r.conn)
      ensures r.Connected? ==> r.sessionID == sessionID == answers.sessionID != ""
      ensures r.Connected? ==> session == Some(sessionRef) && quicConn == Some(r.conn)
      ensures conn != null <==> r.Connected?
      ensures r.Connected? ==> fresh(conn) && fresh(conn.control) && conn.transport == this && conn.c == c && conn.quic == r.conn
      ensures r.Connected? ==> conn.Linked() && !conn.control.closed
      ensures r.Failed? ==> L.Holders(sys) == L.Holders(old(sys))
      ensures r.Failed? ==> session == old(session) && sessionID == old(sessionID) && quicConn == old(quicConn)
      ensures r.Connected? <==> PoolSpec.Get(old(sys).pool, false, addr, now, dial).1.Got? && Succeeds(answers)
      ensures r.Failed? ==> PoolSpec.Get(old(sys).pool, false, addr, now, dial).1 == Refused(r.err) || IsFirstError(answers, r.err)
    {
      ConnectOutcome(sys, c, now, dial, Succeeds(answers));
      var g := connPool.Get(addr, now, dial);
      sys := L.Step(sys, L.Connect(c, false, now, dial));
      conn := null;
      if g.Refused? {
        return Failed(g.err), null;
      }
      r := Establish(c, g.conn, sessionRef, answers);
      if r.Connected? {
        conn := new ClientConnection(this, c, g.conn, now);
      }
    }

    // The part of Connect after the pool has answered.
    method Establish(ghost c: nat, quic: Conn, sessionRef: nat, answers: SetupAnswers) returns (r: ConnectResult)
      requires Valid() && c in sys.clients && sys.clients[c] == L.Connecting(quic)
      modifies this, connPool, EntriesOf(connPool.connections)
      ensures Valid() && connPool.connections == old(connPool.connections)
      ensures sys == L.Step(old(sys), if Succeeds(answers) then L.ConnectReturns(c) else L.ConnectFails(c, false))
      ensures r.Connected? <==> Succeeds(answers)
      ensures r.Connected? ==> r == Connected(quic, answers.sessionID)
      ensures r.Connected? ==> session == Some(sessionRef) && sessionID == answers.sessionID && quicConn == Some(quic)
      ensures r.Failed? ==> session == old(session) && sessionID == old(sessionID) && quicConn == old(quicConn)
      ensures r.Failed? ==> IsFirstError(answers, r.err)
    {
      if answers.run.Some? {
        GiveBack(c, quic);
        return Failed(answers.run.value);
      }
      if answers.fetch.Some? {
        GiveBack(c, quic);
        return Failed(answers.fetch.value);
      }
      if answers.sessionID == "" {
        GiveBack(c, quic);
        return Failed(EmptySessionID);
      }
      if answers.subscribe.Some? {
        GiveBack(c, quic);
        return Failed(answers.subscribe.value);
      }
      session, sessionID, quicConn := Some(sessionRef), answers.sessionID, Some(quic);
      sys := L.Step(sys, L.ConnectReturns(c));
      r := Connected(quic, answers.sessionID);
    }

    method GiveBack(ghost c: nat, quic: Conn)
      requires Valid() && c in sys.clients && sys.clients[c] == L.Connecting(quic)
      modifies this`sys, connPool, EntriesOf(connPool.connections)
      ensures Valid() && connPool.connections == old(connPool.connections)
      ensures sys == L.Step(old(sys), L.ConnectFails(c, false))
    {
      connPool.Put(quic);
      sys := L.Step(sys, L.ConnectFails(c, false));
    }

    /** The OnClose closure given to the control connection. It clears the transport's session fields
        whoever they belong to: a session that is still open is forgotten exactly when the fields hold
        another Connect call's. */
    method OnControlClose(ghost c: nat, quic: Conn)
      requires Valid() && c in sys.clients && sys.clients[c] == L.Open(quic)
      modifies this, connPool, EntriesOf(connPool.connections)
      ensures Valid() && connPool.connections == old(connPool.connections)
      ensures sys == L.Step(old(sys), L.CloseControl(c, false)) && c !in L.Holders(sys)
      ensures session == None && quicConn == None && sessionID == old(sessionID)
      ensures (old(sys).session.Some? && sys.clients[old(sys).session.value].Open?) <==> old(sys).session !in {None, Some(c)}
    {
      connPool.Put(quic);
      session, quicConn := None, None;
      sys := L.Step(sys, L.CloseControl(c, false));
    }

    method Close()
      requires Valid()
      modifies this`sys, connPool
      ensures Valid() && connPool.closed
      ensures sys == L.Step(L.Step(old(sys), L.TransportClose), L.Drain)
    {
      connPool.Close();
      sys := L.Step(L.Step(sys, L.TransportClose), L.Drain);
    }
  }

  /** A control connection that Connect has returned, with its OnClose. */
  class ClientConnection {
    const transport: MOQTClientTransport
    const control: ControlConn
    const quic: Conn
    ghost const c: nat

    // The lease is held exactly while the control connection is open.
    ghost predicate Linked()
      reads this, control, control.ackTracker, control.heartbeat, control.write, control.send, transport
    {
      && control.Valid() && c in transport.sys.clients
      && transport.sys.clients[c] == if control.closed then L.Ended else L.Open(quic)
    }

    constructor (transport: MOQTClientTransport, ghost c: nat, quic: Conn, now: int)
      requires c in transport.sys.clients && transport.sys.clients[c] == L.Open(quic)
      ensures this.transport == transport && this.c == c && this.quic == quic && fresh(control)
      ensures Linked() && !control.closed
    {
      var slot := new PublisherSlot();
      this.transport, this.c, this.quic := transport, c, quic;
      control := new ControlConn(DEFAULT_RETRY, slot, now, []);
    }

    /** The first Close ends the control connection and gives its one lease back; a later one changes
        nothing, so each lease is given back once. */
    method Close(now: int)
      requires transport.Valid() && Linked()
      modifies control, control.ackTracker, control.heartbeat, control.write, control.send
      modifies transport, transport.connPool, EntriesOf(transport.connPool.connections)
      ensures transport.Valid() && Linked() && control.closed && control.hung
      ensures transport.sys == if old(control.closed) then old(transport.sys)
                               else L.Step(old(transport.sys), L.CloseControl(c, false))
    {
      var first := control.Close(now);
      if first {
        transport.OnControlClose(c, quic);
      }
    }

    /** The same through the heartbeat: the lease goes back in the failure that closes the connection. */
    method HeartbeatFailed(pongBefore: bool, pongAfter: bool, now: int)
      requires transport.Valid() && Linked()
      modifies control, control.ackTracker, control.heartbeat, control.write, control.send
      modifies transport, transport.connPool, EntriesOf(transport.connPool.connections)
      ensures transport.Valid() && Linked()
      ensures control.closed <==> old(control.closed) || control.heartbeat.closed
      ensures transport.sys == if old(control.closed) || !control.closed then old(transport.sys)
                               else L.Step(old(transport.sys), L.CloseControl(c, false))
    {
      var first := control.HeartbeatFailed(pongBefore, pongAfter, now);
      if first {
        transport.OnControlClose(c, quic);
      }
    }
  }
}
