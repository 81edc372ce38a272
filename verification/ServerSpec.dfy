/** The server's two registries: control connections, and data-track handlers by session ID. */
module ServerSpec {
  import opened Common
  import opened RoutingSpec

  // The handler of one track type that was created together with one connection.
  datatype HandlerID = HandlerID(conn: nat, trackType: int)

  datatype Server = Server(
    connections: set<nat>,
    sessions: map<string, seq<HandlerID>>,
    ids: seq<string>,                      // the session ID of every connection ever set up
    connCloses: seq<nat>,                  // how often each has been closed
    handlerCloses: map<HandlerID, nat>,
    closed: bool,
    sweeping: bool,                        // transport Close has begun and has not ended
    closing: set<nat>,                     // connections its loop has still to close
    orphans: set<nat>)                     // connections whose handlers it closed instead of them

  datatype Event =
    | Setup(sessionID: string)     // accept one connection, taken as one step
    | CloseConnection(conn: nat)   // its control connection closes, by whomever
    | CloseBegins
    | CloseEnds

  const EMPTY := Server({}, map[], [], [], map[], false, false, {}, {})

  function DefaultHandlers(k: nat): seq<HandlerID> {
    [HandlerID(k, RESOURCES), HandlerID(k, TOOLS), HandlerID(k, NOTIFICATIONS)]
  }

  // Closing a handler a second time has no effect.
  function CloseAll(closes: map<HandlerID, nat>, hs: set<HandlerID>): map<HandlerID, nat> {
    map h | h in closes :: if h in hs && closes[h] == 0 then 1 else closes[h]
  }

  function Members(hs: seq<HandlerID>): set<HandlerID> { set h | h in hs }

  function AllMembers(sessions: map<string, seq<HandlerID>>): set<HandlerID> {
    set id, h | id in sessions && h in sessions[id] :: h
  }

  function SetUp(s: Server, id: string): Server {
    var k := |s.ids|;
    s.(connections := s.connections + {k}, sessions := s.sessions[id := DefaultHandlers(k)],
       ids := s.ids + [id], connCloses := s.connCloses + [0],
       handlerCloses := s.handlerCloses + map h | h in Members(DefaultHandlers(k)) :: 0)
  }

  // OnClose of connection k: leave the registry, take the session's handlers out and close them.
  function CloseConn(s: Server, k: nat): Server
    requires k < |s.ids| == |s.connCloses|
  {
    if s.connCloses[k] > 0 then s
    else
      var id := s.ids[k];
      var hs := if id in s.sessions then Members(s.sessions[id]) else {};
      s.(connCloses := s.connCloses[k := 1], connections := s.connections - {k}, closing := s.closing - {k},
         sessions := s.sessions - {id}, handlerCloses := CloseAll(s.handlerCloses, hs))
  }

  function Begin(s: Server): Server {
    if s.closed then s
    else s.(closed := true, sweeping := true, closing := s.connections, connections := {})
  }

  function Sweep(s: Server): Server {
    s.(sweeping := false, sessions := map[], handlerCloses := CloseAll(s.handlerCloses, AllMembers(s.sessions)),
       orphans := s.orphans + s.connections)
  }

  // Session IDs are fresh and not empty.
  predicate Enabled(s: Server, ev: Event) {
    match ev
    case Setup(id) => id != "" && id !in s.ids
    case CloseConnection(k) => k < |s.ids| == |s.connCloses|
    case CloseBegins => true
    case CloseEnds => s.sweeping && s.closing == {}
  }

  function Step(s: Server, ev: Event): Server {
    if !Enabled(s, ev) then s
    else match ev
    case Setup(id) => SetUp(s, id)
    case CloseConnection(k) => CloseConn(s, k)
    case CloseBegins => Begin(s)
    case CloseEnds => Sweep(s)
  }

  function Run(evs: seq<Event>): Server {
    if evs == [] then EMPTY else Step(Run(evs[..|evs| - 1]), evs[|evs| - 1])
  }

  // ---- the invariant ----

  predicate IsOpen(s: Server, k: nat) { k < |s.connCloses| && s.connCloses[k] == 0 }

  ghost predicate ConnOk(s: Server, k: nat)
    requires k < |s.ids| == |s.connCloses|
  {
    && s.connCloses[k] <= 1 && s.ids[k] != ""
    && (IsOpen(s, k) <==> k in s.connections || k in s.closing)
    && (forall j :: k < j < |s.ids| ==> s.ids[j] != s.ids[k])
    && (s.ids[k] in s.sessions ==> IsOpen(s, k) && s.sessions[s.ids[k]] == DefaultHandlers(k))
    && (IsOpen(s, k) && s.ids[k] !in s.sessions ==> k in s.orphans)
    && (k in s.orphans ==> s.ids[k] !in s.sessions)
    && (forall t :: KnownType(t) ==>
          HandlerID(k, t) in s.handlerCloses
          && s.handlerCloses[HandlerID(k, t)] == (if s.ids[k] in s.sessions then 0 else 1))
  }

  ghost predicate Inv(s: Server) {
    && |s.ids| == |s.connCloses|
    && (forall k :: k in s.connections ==> k < |s.ids|)
    && (forall k :: k in s.closing ==> k < |s.ids|)
    && (forall k :: k in s.orphans ==> k < |s.ids|)
    && (forall id :: id in s.sessions ==> id in s.ids)
    && (forall h :: h in s.handlerCloses ==> h.conn < |s.ids| && KnownType(h.trackType))
    && (forall k :: 0 <= k < |s.ids| ==> ConnOk(s, k))
    && (s.sweeping ==> s.closed) && (!s.sweeping ==> s.closing == {})
  }

  lemma SetupOld(s: Server, id: string, k: nat)
    requires Inv(s) && id != "" && id !in s.ids && k < |s.ids|
    ensures ConnOk(SetUp(s, id), k)
  {
    var t, n := SetUp(s, id), |s.ids|;
    assert ConnOk(s, k) && s.ids[k] in s.ids;
    forall u | KnownType(u)
      ensures HandlerID(k, u) in t.handlerCloses && t.handlerCloses[HandlerID(k, u)] == s.handlerCloses[HandlerID(k, u)]
    {
      OwnHandlers(n, HandlerID(k, u));
    }
  }

  lemma SetupNew(s: Server, id: string)
    requires Inv(s) && id != "" && id !in s.ids
    ensures ConnOk(SetUp(s, id), |s.ids|)
  {
    forall u | KnownType(u) ensures HandlerID(|s.ids|, u) in Members(DefaultHandlers(|s.ids|)) {
      OwnHandlers(|s.ids|, HandlerID(|s.ids|, u));
    }
  }

  lemma SetupKeeps(s: Server, id: string)
    requires Inv(s) && id != "" && id !in s.ids
    ensures Inv(SetUp(s, id))
  {
    var t, n := SetUp(s, id), |s.ids|;
    forall k | 0 <= k <= n ensures ConnOk(t, k) {
      if k < n { SetupOld(s, id, k); } else { SetupNew(s, id); }
    }
    forall i | i in t.sessions ensures i in t.ids {
      assert t.ids[n] == id;
    }
    forall h | h in t.handlerCloses ensures h.conn <= n && KnownType(h.trackType) {
      OwnHandlers(n, h);
    }
  }

  lemma OwnHandlers(k: nat, h: HandlerID)
    ensures h in Members(DefaultHandlers(k)) <==> h.conn == k && KnownType(h.trackType)
  {
    if h.conn == k && KnownType(h.trackType) {
      assert DefaultHandlers(k)[h.trackType] == h;
    }
  }

  lemma CloseConnKeeps(s: Server, k: nat)
    requires Inv(s) && k < |s.ids|
    ensures Inv(CloseConn(s, k))
  {
    assert ConnOk(s, k);
    if IsOpen(s, k) {
      var t := CloseConn(s, k);
      forall j | 0 <= j < |s.ids| ensures ConnOk(t, j) {
        assert ConnOk(s, j);
        forall u | KnownType(u)
          ensures HandlerID(j, u) in t.handlerCloses
          ensures t.handlerCloses[HandlerID(j, u)] == (if s.ids[j] in t.sessions then 0 else 1)
        {
          OwnHandlers(k, HandlerID(j, u));
          assert HandlerID(j, u) in s.handlerCloses;
        }
      }
    }
  }

  lemma SweepKeeps(s: Server)
    requires Inv(s) && s.closing == {} && s.sweeping
    ensures Inv(Sweep(s))
  {
    var t := Sweep(s);
    forall j | 0 <= j < |s.ids| ensures ConnOk(t, j) {
      assert ConnOk(s, j);
      forall u | KnownType(u)
        ensures HandlerID(j, u) in t.handlerCloses && t.handlerCloses[HandlerID(j, u)] == 1
      {
        OwnHandlers(j, HandlerID(j, u));
        assert HandlerID(j, u) in s.handlerCloses;
        if s.ids[j] in s.sessions {
          assert HandlerID(j, u) in s.sessions[s.ids[j]];
        }
      }
    }
  }

  lemma BeginKeeps(s: Server)
    requires Inv(s)
    ensures Inv(Begin(s))
  {
    forall j | 0 <= j < |s.ids| ensures ConnOk(Begin(s), j) {
      assert ConnOk(s, j);
    }
  }

  lemma StepKeeps(s: Server, ev: Event)
    requires Inv(s)
    ensures Inv(Step(s, ev))
  {
    if Enabled(s, ev) {
      match ev
      case Setup(id) => SetupKeeps(s, id);
      case CloseConnection(k) => CloseConnKeeps(s, k);
      case CloseBegins => BeginKeeps(s);
      case CloseEnds => SweepKeeps(s);
    }
  }

  lemma {:induction false} RunsKeep(evs: seq<Event>)
    ensures Inv(Run(evs))
  {
    if evs != [] {
      RunsKeep(evs[..|evs| - 1]);
      StepKeeps(Run(evs[..|evs| - 1]), evs[|evs| - 1]);
    }
  }

  // ---- what it means ----

  function IDsOf(s: Server, ks: set<nat>): set<string> {
    set k | k in ks && k < |s.ids| :: s.ids[k]
  }

  // No connection is set up while transport Close is running.
  ghost predicate NoSetupWhileClosing(evs: seq<Event>) {
    evs == [] ||
    (NoSetupWhileClosing(evs[..|evs| - 1]) &&
     (evs[|evs| - 1].Setup? ==> !Run(evs[..|evs| - 1]).sweeping))
  }

  lemma {:induction false} NoOrphans(evs: seq<Event>)
    requires NoSetupWhileClosing(evs)
    ensures Run(evs).orphans == {} && (Run(evs).sweeping ==> Run(evs).connections == {})
  {
    if evs != [] {
      NoOrphans(evs[..|evs| - 1]);
    }
  }

  /** The session IDs in the handler registry are those of the registered connections, and of those
      Close has still to close, exactly when no orphan is open: a connection that was set up inside
      transport Close, and lost its handlers to it, has been closed itself since. */
  lemma RegistriesAgreeIff(evs: seq<Event>)
    ensures var s := Run(evs);
      s.sessions.Keys == IDsOf(s, s.connections + s.closing) <==> forall k :: k in s.orphans ==> !IsOpen(s, k)
  {
    RunsKeep(evs);
    var s := Run(evs);
    forall id | id in s.sessions ensures id in IDsOf(s, s.connections + s.closing) {
      var k :| 0 <= k < |s.ids| && s.ids[k] == id;
      assert ConnOk(s, k);
    }
    if forall k :: k in s.orphans ==> !IsOpen(s, k) {
      forall k | k in s.connections + s.closing ensures s.ids[k] in s.sessions {
        assert ConnOk(s, k);
      }
    } else {
      var k :| k in s.orphans && IsOpen(s, k);
      assert ConnOk(s, k);
      assert s.ids[k] in IDsOf(s, s.connections + s.closing);
    }
  }

  /** If no setup runs inside transport Close there are no orphans, so the registries agree; while
      Close is not running, without its remainder. */
  lemma RegistriesAgree(evs: seq<Event>)
    requires NoSetupWhileClosing(evs)
    ensures var s := Run(evs);
      && s.sessions.Keys == IDsOf(s, s.connections + s.closing)
      && (!s.sweeping ==> s.sessions.Keys == IDsOf(s, s.connections))
  {
    RunsKeep(evs);
    NoOrphans(evs);
    RegistriesAgreeIff(evs);
    assert !Run(evs).sweeping ==> Run(evs).connections + Run(evs).closing == Run(evs).connections;
  }

  /** They need not agree otherwise: a connection set up inside Close loses its handlers and stays open. */
  lemma SetupInsideCloseOrphans(id: string)
    requires id != ""
    ensures var s := Run([CloseBegins, Setup(id), CloseEnds]);
      !s.sweeping && s.connections == {0} && IsOpen(s, 0) && s.sessions == map[]
  {
    var evs := [CloseBegins, Setup(id), CloseEnds];
    assert evs[..2][..1][..0] == [] && evs[..2][..1] == [evs[0]] && evs[..2] == [evs[0], evs[1]];
    assert Run(evs[..2][..1]) == Begin(EMPTY);
    assert Run(evs[..2]) == SetUp(Begin(EMPTY), id);
  }

  function FirstOfType(hs: seq<HandlerID>, trackType: int): Option<HandlerID> {
    if hs == [] then None
    else if hs[0].trackType == trackType then Some(hs[0])
    else FirstOfType(hs[1..], trackType)
  }

  function Lookup(s: Server, id: string, trackType: int): Option<HandlerID> {
    if id in s.sessions then FirstOfType(s.sessions[id], trackType) else None
  }

  /** Looking a handler up by session and type finds the one open handler that fits both. */
  lemma LookupIff(evs: seq<Event>, id: string, trackType: int, h: HandlerID)
    ensures var s := Run(evs);
      Lookup(s, id, trackType) == Some(h) <==>
        h.conn < |s.ids| && s.ids[h.conn] == id && h.trackType == trackType && h in s.handlerCloses && s.handlerCloses[h] == 0
  {
    RunsKeep(evs);
    var s := Run(evs);
    if id in s.sessions {
      var k :| 0 <= k < |s.ids| && s.ids[k] == id;
      assert ConnOk(s, k);
      FindDefault(k, trackType);
      if h.conn < |s.ids| && s.ids[h.conn] == id {
        assert ConnOk(s, h.conn);
        assert h == HandlerID(h.conn, h.trackType);
      }
    } else if h.conn < |s.ids| && s.ids[h.conn] == id {
      assert ConnOk(s, h.conn);
      assert h == HandlerID(h.conn, h.trackType);
    }
  }

  lemma FindDefault(k: nat, trackType: int)
    ensures FirstOfType(DefaultHandlers(k), trackType) == if KnownType(trackType) then Some(HandlerID(k, trackType)) else None
  {
    var d := DefaultHandlers(k);
    assert d[1..] == [d[1], d[2]] && d[1..][1..] == [d[2]] && d[1..][1..][1..] == [];
    assert FirstOfType([d[2]], trackType) == if trackType == NOTIFICATIONS then Some(d[2]) else None;
    assert FirstOfType([d[1], d[2]], trackType) == if trackType == TOOLS then Some(d[1]) else FirstOfType([d[2]], trackType);
  }

  /** A setup registers its connection and the three open handlers of its session; what was registered
      and open before stays so. */
  lemma SetupRegisters(evs: seq<Event>, id: string, trackType: int, other: string)
    requires id != "" && id !in Run(evs).ids && other != id
    ensures var s := Run(evs); var t, k := Step(s, Setup(id)), |s.ids|;
      && t.ids == s.ids + [id] && t.connections == s.connections + {k} && IsOpen(t, k)
      && Lookup(t, id, trackType) == (if KnownType(trackType) then Some(HandlerID(k, trackType)) else None)
      && Lookup(t, other, trackType) == Lookup(s, other, trackType)
      && (forall h :: h in s.handlerCloses ==> h in t.handlerCloses && t.handlerCloses[h] == s.handlerCloses[h])
      && t.closed == s.closed
  {
    RunsKeep(evs);
    var s := Run(evs);
    FindDefault(|s.ids|, trackType);
    forall h | h in s.handlerCloses ensures h !in Members(DefaultHandlers(|s.ids|)) {
      OwnHandlers(|s.ids|, h);
    }
  }

  /** Closing one connection takes it and its session out of the registries and leaves the others. */
  lemma CloseLeavesOthers(evs: seq<Event>, k: nat, other: nat, trackType: int)
    requires k < |Run(evs).ids| && other < |Run(evs).ids| && other != k && IsOpen(Run(evs), k)
    ensures var s := Run(evs); var t := Step(s, CloseConnection(k));
      && t.connections == s.connections - {k} && t.ids == s.ids && t.closed == s.closed
      && Lookup(t, s.ids[k], trackType) == None
      && Lookup(t, s.ids[other], trackType) == Lookup(s, s.ids[other], trackType)
      && other < |t.connCloses| && t.connCloses[other] == s.connCloses[other]
  {
    RunsKeep(evs);
    var s := Run(evs);
    assert ConnOk(s, k) && ConnOk(s, other);
  }

  /** After closing a connection its own three handlers are closed once and no other handler is touched;
      a second close changes nothing. */
  lemma CloseTakesOwnHandlers(evs: seq<Event>, k: nat)
    requires k < |Run(evs).ids|
    ensures var s := Run(evs); var t := Step(s, CloseConnection(k));
      && t.handlerCloses.Keys == s.handlerCloses.Keys
      && (forall h :: h in s.handlerCloses && h.conn != k ==> t.handlerCloses[h] == s.handlerCloses[h])
      && (forall u :: KnownType(u) ==> HandlerID(k, u) in t.handlerCloses && t.handlerCloses[HandlerID(k, u)] == 1)
      && k < |t.connCloses| && t.connCloses[k] == 1 && Step(t, CloseConnection(k)) == t
  {
    RunsKeep(evs);
    var s := Run(evs);
    assert ConnOk(s, k);
    CloseConnKeeps(s, k);
    assert ConnOk(Step(s, CloseConnection(k)), k);
    forall h | h in s.handlerCloses && h.conn != k
      ensures Step(s, CloseConnection(k)).handlerCloses[h] == s.handlerCloses[h]
    {
      OwnHandlers(k, h);
    }
  }

  // The connections that were set up once transport Close had begun, or after it.
  function Late(evs: seq<Event>): set<nat> {
    if evs == [] then {}
    else
      var before, ev := Run(evs[..|evs| - 1]), evs[|evs| - 1];
      Late(evs[..|evs| - 1]) + if ev.Setup? && Enabled(before, ev) && before.closed then {|before.ids|} else {}
  }

  lemma {:induction false} RegisteredIsLate(evs: seq<Event>)
    ensures var s := Run(evs);
      (s.closed ==> s.connections <= Late(evs)) && (s.sweeping ==> s.closed)
      && forall k :: k in Late(evs) ==> k < |s.ids|
  {
    if evs != [] {
      RegisteredIsLate(evs[..|evs| - 1]);
    }
  }

  /** Once transport Close has ended, both registries are empty exactly when every connection that was
      set up after Close had begun has been closed itself; exactly then every connection ever set up has
      been closed once. And every handler has been closed once exactly when the handler registry is empty. */
  lemma {:induction false} CloseEmptiesRegistriesIff(evs: seq<Event>)
    requires Run(evs).closed && !Run(evs).sweeping
    ensures var s := Run(evs);
      && (s.connections == {} && s.sessions == map[] <==> forall k :: k in Late(evs) ==> !IsOpen(s, k))
      && ((forall k :: 0 <= k < |s.connCloses| ==> s.connCloses[k] == 1) <==> forall k :: k in Late(evs) ==> !IsOpen(s, k))
      && ((forall h :: h in s.handlerCloses ==> s.handlerCloses[h] == 1) <==> s.sessions == map[])
  {
    RunsKeep(evs);
    RegisteredIsLate(evs);
    var s := Run(evs);
    forall k | 0 <= k < |s.ids|
      ensures s.connCloses[k] == 1 <==> k !in s.connections
      ensures IsOpen(s, k) <==> k in s.connections
    {
      assert ConnOk(s, k);
    }
    assert s.connections == {} <==> forall k :: k in Late(evs) ==> !IsOpen(s, k);
    if s.connections == {} {
      NoSessionLeft(s);
    }
    HandlersClosedIff(s);
  }

  // An open connection is registered when Close is not running.
  lemma NoSessionLeft(s: Server)
    requires Inv(s) && s.connections == {} && !s.sweeping
    ensures s.sessions == map[]
  {
    forall k | 0 <= k < |s.ids| ensures s.ids[k] !in s.sessions {
      assert ConnOk(s, k);
    }
  }

  lemma HandlersClosedIff(s: Server)
    requires Inv(s)
    ensures (forall h :: h in s.handlerCloses ==> s.handlerCloses[h] == 1) <==> s.sessions == map[]
  {
    if s.sessions == map[] {
      AllClosed(s);
    } else {
      var id :| id in s.sessions;
      var k :| 0 <= k < |s.ids| && s.ids[k] == id;
      assert ConnOk(s, k) && KnownType(TOOLS);
      assert s.handlerCloses[HandlerID(k, TOOLS)] == 0;
    }
  }

  /** A setup that ends after Close has ended is not refused: its connection stays open and registered
      with its handlers in a closed transport. */
  lemma SetupAfterCloseStays(id: string)
    requires id != ""
    ensures var evs := [CloseBegins, CloseEnds, Setup(id)];
      var s := Run(evs);
      && s.closed && !s.sweeping && s.connections == {0} == Late(evs) && IsOpen(s, 0)
      && s.sessions == map[id := DefaultHandlers(0)] && s.orphans == {}
  {
    var evs := [CloseBegins, CloseEnds, Setup(id)];
    assert evs[..2][..1][..0] == [] && evs[..2][..1] == [evs[0]] && evs[..2] == [evs[0], evs[1]];
    assert Run(evs[..2][..1]) == Begin(EMPTY);
    assert Run(evs[..2]) == Sweep(Begin(EMPTY));
    assert Late(evs[..2][..1]) == {} && Late(evs[..2]) == {};
  }

  lemma AllClosed(s: Server)
    requires Inv(s) && s.sessions == map[]
    ensures forall h :: h in s.handlerCloses ==> s.handlerCloses[h] == 1
  {
    forall h | h in s.handlerCloses ensures s.handlerCloses[h] == 1 {
      assert ConnOk(s, h.conn);
      assert h == HandlerID(h.conn, h.trackType);
    }
  }
}
