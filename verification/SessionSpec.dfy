/** Establishing a session: the client's discovery FETCH and the two control SUBSCRIBEs that cross
    each other, with messages delivered in any order. */
module SessionSpec {
  import opened Common
  import opened RoutingSpec

  datatype Msg =
    | Fetch                                                     // to the server
    | FetchReply(sessionID: string)                             // to the client
    | SubscribeServer(ns: seq<string>, track: string, rw: nat)  // to the server
    | SubscribeClient(ns: seq<string>, track: string, rw: nat)  // to the client
    | ServerAnswers(ok: bool)                                   // to the client
    | ClientAnswers(ok: bool)                                   // to the server

  datatype ClientState = ClientIdle | Discovering | Subscribing | ClientDone | ClientFailed

  datatype ServerState = ServerIdle | Accepting | ServerDone | ServerFailed

  // The subscription a party offers as the peer's send track.
  const CLIENT_RW: nat := 1
  const SERVER_RW: nat := 2

  datatype Sys = Sys(
    serverID: string,            // the ID the server has generated
    client: ClientState,
    clientID: string,            // what the client's Connect returns
    clientHandler: Handler,
    server: ServerState,
    serverHandler: Handler,
    net: set<Msg>)

  datatype Event = ClientConnects | ServerAccepts | Deliver(msg: Msg)

  function Init(serverID: string): Sys {
    Sys(serverID, ClientIdle, "", Handler("", CLIENT_TO_SERVER, None),
        ServerIdle, Handler(serverID, SERVER_TO_CLIENT, None), {})
  }

  // A party handles messages once its session runs.
  predicate Enabled(s: Sys, ev: Event) {
    match ev
    case ClientConnects => s.client.ClientIdle?
    case ServerAccepts => s.server.ServerIdle?
    case Deliver(m) =>
      m in s.net && if m.Fetch? || m.SubscribeServer? || m.ClientAnswers? then !s.server.ServerIdle? else !s.client.ClientIdle?
  }

  function Step(s: Sys, ev: Event): Sys {
    if !Enabled(s, ev) then s
    else match ev
    case ClientConnects => s.(client := Discovering, net := s.net + {Fetch})
    case ServerAccepts =>
      s.(server := Accepting, net := s.net + {SubscribeClient(ControlNamespace(s.serverID), CLIENT_TO_SERVER, SERVER_RW)})
    case Deliver(m) => Receive(s.(net := s.net - {m}), m)
  }

  function Receive(s: Sys, m: Msg): Sys {
    match m
    case Fetch => s.(net := s.net + {FetchReply(s.serverHandler.sessionID)})
    case FetchReply(id) =>
      if id == "" then s.(client := ClientFailed)
      else s.(client := Subscribing, clientID := id,
              net := s.net + {SubscribeServer(ControlNamespace(id), SERVER_TO_CLIENT, CLIENT_RW)})
    case SubscribeServer(ns, track, rw) =>
      if Accepts(s.serverHandler, ns, track) then
        s.(serverHandler := AfterAccept(s.serverHandler, ns, rw), net := s.net + {ServerAnswers(true)})
      else s.(net := s.net + {ServerAnswers(false)})
    case SubscribeClient(ns, track, rw) =>
      if Accepts(s.clientHandler, ns, track) then
        s.(clientHandler := AfterAccept(s.clientHandler, ns, rw), net := s.net + {ClientAnswers(true)})
      else s.(net := s.net + {ClientAnswers(false)})
    case ServerAnswers(ok) => s.(client := if ok then ClientDone else ClientFailed)
    case ClientAnswers(ok) => s.(server := if ok then ServerDone else ServerFailed)
  }

  function Run(serverID: string, evs: seq<Event>): Sys {
    if evs == [] then Init(serverID) else Step(Run(serverID, evs[..|evs| - 1]), evs[|evs| - 1])
  }

  // ---- how far each side has come ----

  // The message of the client's conversation that is under way at each of its stages.
  function ClientNet(id: string, c: nat): set<Msg> {
    if c == 1 then {Fetch}
    else if c == 2 then {FetchReply(id)}
    else if c == 3 then {SubscribeServer(ControlNamespace(id), SERVER_TO_CLIENT, CLIENT_RW)}
    else if c == 4 then {ServerAnswers(true)}
    else {}
  }

  function ServerNet(id: string, v: nat): set<Msg> {
    if v == 1 then {SubscribeClient(ControlNamespace(id), CLIENT_TO_SERVER, SERVER_RW)}
    else if v == 2 then {ClientAnswers(true)}
    else {}
  }

  ghost predicate At(s: Sys, c: nat, v: nat) {
    && c <= 5 && v <= 3
    && s.net == ClientNet(s.serverID, c) + ServerNet(s.serverID, v)
    && s.client == (if c == 0 then ClientIdle else if c <= 2 then Discovering else if c <= 4 then Subscribing else ClientDone)
    && s.server == (if v == 0 then ServerIdle else if v <= 2 then Accepting else ServerDone)
    && s.clientID == (if c <= 2 then "" else s.serverID)
    && s.serverHandler == Handler(s.serverID, SERVER_TO_CLIENT, if c <= 3 then None else Some(CLIENT_RW))
    && s.clientHandler == Handler(if v <= 1 then "" else s.serverID, CLIENT_TO_SERVER, if v <= 1 then None else Some(SERVER_RW))
  }

  /** Each step that can happen moves exactly one side one stage on: the measure 8 - (c + v) falls. */
  lemma StepAdvances(s: Sys, ev: Event, c: nat, v: nat) returns (c': nat, v': nat)
    requires s.serverID != "" && At(s, c, v)
    ensures At(Step(s, ev), c', v') && c <= c' && v <= v'
    ensures c' + v' == c + v + if Enabled(s, ev) then 1 else 0
  {
    c', v' := c, v;
    if Enabled(s, ev) {
      if ev.ClientConnects? || (ev.Deliver? && ev.msg in ClientNet(s.serverID, c)) {
        c' := c + 1;
        ClientMoves(s, ev, c, v);
      } else {
        v' := v + 1;
        ServerMoves(s, ev, c, v);
      }
    }
  }

  lemma ClientMoves(s: Sys, ev: Event, c: nat, v: nat)
    requires s.serverID != "" && At(s, c, v) && Enabled(s, ev)
    requires ev.ClientConnects? || (ev.Deliver? && ev.msg in ClientNet(s.serverID, c))
    ensures At(Step(s, ev), c + 1, v)
  {
    assert Step(s, ev).net == ClientNet(s.serverID, c + 1) + ServerNet(s.serverID, v);
  }

  lemma ServerMoves(s: Sys, ev: Event, c: nat, v: nat)
    requires s.serverID != "" && At(s, c, v) && Enabled(s, ev)
    requires ev.ServerAccepts? || (ev.Deliver? && ev.msg in ServerNet(s.serverID, v))
    ensures At(Step(s, ev), c, v + 1)
  {
    assert Step(s, ev).net == ClientNet(s.serverID, c) + ServerNet(s.serverID, v + 1);
  }

  function Happened(serverID: string, evs: seq<Event>): nat {
    if evs == [] then 0
    else Happened(serverID, evs[..|evs| - 1]) + if Enabled(Run(serverID, evs[..|evs| - 1]), evs[|evs| - 1]) then 1 else 0
  }

  lemma {:induction false} RunsAt(serverID: string, evs: seq<Event>) returns (c: nat, v: nat)
    requires serverID != ""
    ensures At(Run(serverID, evs), c, v) && c + v == Happened(serverID, evs) && Run(serverID, evs).serverID == serverID
  {
    if evs == [] {
      c, v := 0, 0;
    } else {
      c, v := RunsAt(serverID, evs[..|evs| - 1]);
      c, v := StepAdvances(Run(serverID, evs[..|evs| - 1]), evs[|evs| - 1], c, v);
    }
  }

  /** In every order of messages: nobody rejects or fails; at most eight events can happen; and what
      the client's handler has learned is the server's ID or nothing yet. */
  lemma {:induction false} NobodyRejects(serverID: string, evs: seq<Event>)
    requires serverID != ""
    ensures var s := Run(serverID, evs);
      && ServerAnswers(false) !in s.net && ClientAnswers(false) !in s.net
      && !s.client.ClientFailed? && !s.server.ServerFailed?
      && Happened(serverID, evs) <= 8
      && (s.clientHandler.sessionID == "" || s.clientHandler.sessionID == serverID)
  {
    var c, v := RunsAt(serverID, evs);
  }

  /** Quiescence is completion: as long as a Connect has not returned, some event can happen. */
  lemma NoDeadlock(serverID: string, evs: seq<Event>)
    requires serverID != ""
    ensures var s := Run(serverID, evs);
      (exists ev :: Enabled(s, ev)) <==> !(s.client.ClientDone? && s.server.ServerDone?)
    ensures Happened(serverID, evs) == 8 <==> Run(serverID, evs).client.ClientDone? && Run(serverID, evs).server.ServerDone?
  {
    var c, v := RunsAt(serverID, evs);
    var s := Run(serverID, evs);
    if s.client.ClientIdle? {
      assert Enabled(s, ClientConnects);
    } else if s.server.ServerIdle? {
      assert Enabled(s, ServerAccepts);
    } else if c <= 4 {
      var m :| m in ClientNet(serverID, c);
      assert Enabled(s, Deliver(m));
    } else if v <= 2 {
      var m :| m in ServerNet(serverID, v);
      assert Enabled(s, Deliver(m));
    }
  }

  /** When both Connects have returned they hold the same session ID, the client's handler has learned
      it, and each send slot holds the peer's subscription. */
  lemma SessionAgreement(serverID: string, evs: seq<Event>)
    requires serverID != ""
    ensures var s := Run(serverID, evs);
      s.client.ClientDone? && s.server.ServerDone? ==>
        && s.clientID == s.serverHandler.sessionID == s.clientHandler.sessionID == serverID
        && s.clientHandler.slot == Some(SERVER_RW) && s.serverHandler.slot == Some(CLIENT_RW)
  {
    var c, v := RunsAt(serverID, evs);
  }

  /** What the client's handler has learned never changes afterwards. */
  lemma {:induction false} LearnedIsFinal(serverID: string, evs: seq<Event>, n: nat)
    requires serverID != "" && n <= |evs| && Run(serverID, evs[..n]).clientHandler.sessionID != ""
    ensures Run(serverID, evs).clientHandler == Run(serverID, evs[..n]).clientHandler
    decreases |evs|
  {
    if n < |evs| {
      var front := evs[..|evs| - 1];
      assert front[..n] == evs[..n];
      LearnedIsFinal(serverID, front, n);
      var c, v := RunsAt(serverID, front);
      var c', v' := StepAdvances(Run(serverID, front), evs[|evs| - 1], c, v);
    } else {
      assert evs[..n] == evs;
    }
  }

  /** The ID must not be empty: with an empty one no client's Connect ever succeeds. */
  lemma {:induction false} EmptyIDNeverConnects(evs: seq<Event>)
    ensures var s := Run("", evs);
      && !s.client.ClientDone? && !s.client.Subscribing? && s.serverHandler.sessionID == ""
      && forall m :: m in s.net ==> !m.SubscribeServer? && !m.ServerAnswers? && (m.FetchReply? ==> m.sessionID == "")
  {
    if evs != [] {
      EmptyIDNeverConnects(evs[..|evs| - 1]);
    }
  }
}
