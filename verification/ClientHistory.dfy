/** What runs of the client system lead to: closed connections handed out again, a pool filled with
    leaks, and sessions that the transport forgets. */
module ClientHistory {
  import opened Common
  import opened ClientSpec
  import P = PoolSpec

  lemma RunSnoc(s: Sys, evs: seq<Event>, ev: Event)
    ensures Run(s, evs + [ev]) == Step(Run(s, evs), ev)
  {
    assert (evs + [ev])[..|evs|] == evs;
  }

  // ---- the client's runs are runs of its pool ----

  // The section of the pool that an event runs, if any.
  function PoolEvent(s: Sys, ev: Event): Option<P.Event> {
    if !Enabled(s, ev) then None
    else match ev
      case Connect(_, stale, now, dial) => Some(P.EvGet(stale, s.addr, now, dial))
      case ConnectFails(c, stale) => Some(P.EvPut(stale, s.clients[c].conn))
      case ConnectReturns(_) => None
      case CloseControl(c, stale) => if c in s.clients && s.clients[c].Open? then Some(P.EvPut(stale, s.clients[c].conn)) else None
      case Cleanup(now) => Some(P.EvCleanup(now))
      case TransportClose => Some(P.EvCloseBegin)
      case Drain => Some(P.EvCloseDrain)
  }

  ghost function PoolTrace(s: Sys, evs: seq<Event>): seq<P.Event> {
    if evs == [] then []
    else
      var ran := PoolEvent(Run(s, evs[..|evs| - 1]), evs[|evs| - 1]);
      PoolTrace(s, evs[..|evs| - 1]) + if ran.Some? then [ran.value] else []
  }

  lemma StepRunsThePool(s: Sys, ev: Event)
    ensures Step(s, ev).pool == if PoolEvent(s, ev).Some? then P.Step(s.pool, PoolEvent(s, ev).value) else s.pool
  {
  }

  lemma PoolSnoc(p: P.Pool, trace: seq<P.Event>, ev: P.Event)
    ensures P.Run(p, trace + [ev]) == P.Step(P.Run(p, trace), ev)
  {
    assert (trace + [ev])[..|trace|] == trace;
  }

  /** Each Connect runs one Get, each failing Connect and each closing control connection one Put, so what
      holds of every run of a pool holds of the client's. */
  lemma {:induction false} ClientRunsThePool(s: Sys, evs: seq<Event>)
    ensures Run(s, evs).pool == P.Run(s.pool, PoolTrace(s, evs))
  {
    if evs != [] {
      var n := |evs| - 1;
      var before, trace := Run(s, evs[..n]), PoolTrace(s, evs[..n]);
      ClientRunsThePool(s, evs[..n]);
      StepRunsThePool(before, evs[n]);
      if PoolEvent(before, evs[n]).Some? {
        PoolSnoc(s.pool, trace, PoolEvent(before, evs[n]).value);
      } else {
        assert trace + [] == trace;
      }
    }
  }

  // ---- closed connections in the pool ----

  predicate Returns(s: Sys, ev: Event) {
    ev.ConnectReturns? && Enabled(s, ev)
  }

  /** The connections on which some Connect of the run has returned successfully. */
  ghost function Established(s: Sys, evs: seq<Event>): set<P.Conn> {
    if evs == [] then {}
    else
      var before, ev := Run(s, evs[..|evs| - 1]), evs[|evs| - 1];
      Established(s, evs[..|evs| - 1]) + if Returns(before, ev) then {before.clients[ev.c].conn} else {}
  }

  function OpenConns(s: Sys): set<P.Conn> {
    set c | c in s.clients && s.clients[c].Open? :: s.clients[c].conn
  }

  // A connection that was established has been closed, or its control connection is still open.
  ghost predicate HungInv(s: Sys, established: set<P.Conn>) {
    s.hung <= established && OpenConns(s) <= established && established <= s.hung + OpenConns(s)
  }

  lemma HungStep(s: Sys, ev: Event, established: set<P.Conn>)
    requires HungInv(s, established)
    ensures HungInv(Step(s, ev), established + if Returns(s, ev) then {s.clients[ev.c].conn} else {})
  {
    var t := Step(s, ev);
    var after := established + if Returns(s, ev) then {s.clients[ev.c].conn} else {};
    forall k | k in after ensures k in t.hung + OpenConns(t) {
      if k in OpenConns(s) {
        var c :| c in s.clients && s.clients[c].Open? && s.clients[c].conn == k;
        assert k in t.hung || (c in t.clients && t.clients[c] == s.clients[c]);
      } else if k !in s.hung {
        assert t.clients[ev.c] == Open(k);
      }
    }
  }

  lemma {:induction false} HungRuns(s: Sys, evs: seq<Event>)
    requires s.clients == map[] && s.hung == {}
    ensures HungInv(Run(s, evs), Established(s, evs))
  {
    if evs != [] {
      HungRuns(s, evs[..|evs| - 1]);
      HungStep(Run(s, evs[..|evs| - 1]), evs[|evs| - 1], Established(s, evs[..|evs| - 1]));
    }
  }

  // Of the connections the pool itself has closed, none is listed as idle.
  ghost predicate ShutInv(s: Sys) {
    && s.pool.shut <= s.dialled
    && forall e :: e in Mine(s) && e.conn in s.pool.shut ==> e.inUse && e.conn !in Held(s)
  }

  lemma ShutStep(s: Sys, ev: Event)
    requires Inv(s) && ShutInv(s)
    ensures ShutInv(Step(s, ev))
  {
    match ev
    case Connect(_, _, _, _) =>
      if Enabled(s, ev) { ShutConnect(s, ev); }
    case Cleanup(now) => ShutCleanup(s, now);
    case Drain => ShutDrain(s);
    case ConnectReturns(_) => HeldSame(s, Step(s, ev));
    case TransportClose => HeldSame(s, Step(s, ev));
    case _ =>
      if GivesBack(s, ev) { ShutReturn(s, ev); }
  }

  lemma ShutConnect(s: Sys, ev: Event)
    requires Inv(s) && ShutInv(s) && ev.Connect? && Enabled(s, ev)
    ensures ShutInv(Step(s, ev))
  {
    var t := Step(s, ev);
    if t.clients[ev.c].Connecting? {
      HeldGrows(s, t, ev.c, t.clients[ev.c].conn);
      if P.FirstReusable(Mine(s), s.pool.maxIdleTime, ev.now).Some? {
        ShutReuse(s, ev);
      } else {
        assert Mine(t) == Mine(s) + [P.Entry(ev.dial.conn, ev.dial.at, true)];
      }
    } else {
      HeldSame(s, t);
      assert Mine(t) == Mine(s);
    }
  }

  lemma ShutReuse(s: Sys, ev: Event)
    requires Inv(s) && ShutInv(s) && ev.Connect? && Enabled(s, ev) && Step(s, ev).clients[ev.c].Connecting?
    requires P.FirstReusable(Mine(s), s.pool.maxIdleTime, ev.now).Some?
    requires Held(Step(s, ev)) == Held(s) + {Step(s, ev).clients[ev.c].conn}
    ensures ShutInv(Step(s, ev))
  {
    var i := P.FirstReusable(Mine(s), s.pool.maxIdleTime, ev.now).value;
    assert Mine(s)[i] in Mine(s);
    Replaced(Mine(s), i, Mine(s)[i].(lastUsedAt := ev.now, inUse := true));
  }

  lemma ShutReturn(s: Sys, ev: Event)
    requires Inv(s) && ShutInv(s) && GivesBack(s, ev)
    ensures ShutInv(Step(s, ev))
  {
    var t, k := Step(s, ev), s.clients[ev.c].conn;
    assert ev.c in Holders(s) && k in Held(s);
    HeldShrinks(s, t, ev.c);
    var i := P.IndexOf(Mine(s), k);
    if !(s.pool.closed && !ev.stale) && k.remote == s.addr && i.Some? {
      assert Mine(s)[i.value] in Mine(s);
      Replaced(Mine(s), i.value, Mine(s)[i.value].(inUse := false));
    } else {
      assert Mine(t) == Mine(s);
    }
  }

  lemma ShutCleanup(s: Sys, now: int)
    requires Inv(s) && ShutInv(s)
    ensures ShutInv(Step(s, Cleanup(now)))
  {
    var t := Step(s, Cleanup(now));
    HeldSame(s, t);
    CleanedMine(s, now);
    KeepIsPart(Mine(s), s.pool.maxIdleTime, now);
    KeptNotExpired(Mine(s), s.pool.maxIdleTime, now);
  }

  lemma {:induction false} KeptNotExpired(es: seq<P.Entry>, maxIdle: int, now: int)
    requires OneEach(es)
    ensures forall e, f :: e in P.Keep(es, maxIdle, now) && f in es && P.Expired(f, maxIdle, now) ==> e.conn != f.conn
  {
    var pos := P.KeepIsFilter(es, maxIdle, now);
    forall e, f | e in P.Keep(es, maxIdle, now) && f in es && P.Expired(f, maxIdle, now) ensures e.conn != f.conn {
      var j :| 0 <= j < |pos| && P.Keep(es, maxIdle, now)[j] == e;
      var i :| 0 <= i < |es| && es[i] == f;
      assert pos[j] in pos;
    }
  }

  lemma ShutDrain(s: Sys)
    requires Inv(s) && ShutInv(s)
    ensures ShutInv(Step(s, Drain))
  {
    if s.pool.draining {
      assert Mine(Step(s, Drain)) == [];
    }
  }

  lemma {:induction false} ShutRuns(addr: string, maxPoolSize: int, maxIdleTime: int, evs: seq<Event>)
    ensures ShutInv(Run(Init(addr, maxPoolSize, maxIdleTime), evs))
  {
    if evs != [] {
      var n := |evs| - 1;
      ShutRuns(addr, maxPoolSize, maxIdleTime, evs[..n]);
      RunsKeep(addr, maxPoolSize, maxIdleTime, evs[..n]);
      ShutStep(Run(Init(addr, maxPoolSize, maxIdleTime), evs[..n]), evs[n]);
    }
  }

  /** Closing a control connection closes its QUIC connection before returning it to the pool. So the
      connection a pool hit hands out is closed already exactly when some Connect has ever returned
      on it; the pool itself has closed none of those it hands out. */
  lemma {:induction false} PoolHitIsDeadIff(addr: string, maxPoolSize: int, maxIdleTime: int, evs: seq<Event>, ev: Event)
    ensures var s0 := Init(addr, maxPoolSize, maxIdleTime);
      var s := Run(s0, evs);
      ev.Connect? && Enabled(s, ev) && P.Reuses(s.pool, P.EvGet(ev.stale, s.addr, ev.now, ev.dial)) ==>
        var p := Step(s, ev).clients[ev.c];
        p.Connecting? && (p.conn in s.hung <==> p.conn in Established(s0, evs))
        && (p.conn in s.hung || p.conn in s.aborted) && p.conn !in s.pool.shut
  {
    var s0 := Init(addr, maxPoolSize, maxIdleTime);
    var s := Run(s0, evs);
    RunsKeep(addr, maxPoolSize, maxIdleTime, evs);
    HungRuns(s0, evs);
    ShutRuns(addr, maxPoolSize, maxIdleTime, evs);
    PoolHitsAreSpent(addr, maxPoolSize, maxIdleTime, evs, ev);
    if ev.Connect? && Enabled(s, ev) && P.Reuses(s.pool, P.EvGet(ev.stale, s.addr, ev.now, ev.dial)) {
      var i := P.FirstReusable(Mine(s), s.pool.maxIdleTime, ev.now).value;
      var k := Mine(s)[i].conn;
      assert Mine(s)[i] in Mine(s) && k !in Held(s);
      forall c | c in s.clients && s.clients[c].Open? ensures s.clients[c].conn != k {
        assert c in Holders(s);
      }
    }
  }

  lemma ClosedInPool(k: P.Conn, now: int) returns (s: Sys)
    ensures s == Run(Init(k.remote, 10, 30_000_000_000),
                     [Connect(0, false, now, P.Dialed(k, now)), ConnectReturns(0), CloseControl(0, false)])
    ensures k in s.hung && s.clients == map[0 := Ended] && s.addr == k.remote && !s.pool.closed
    ensures s.pool.connections == map[k.remote := [P.Entry(k, now, false)]] && s.pool.maxIdleTime == 30_000_000_000
  {
    var s0 := Init(k.remote, 10, 30_000_000_000);
    var a, b, c := Connect(0, false, now, P.Dialed(k, now)), ConnectReturns(0), CloseControl(0, false);
    RunThree(s0, a, b, c);
    assert [a] + [b, c] == [a, b, c];
    assert Mine(Step(s0, a)) == [P.Entry(k, now, true)];
    s := Step(Step(Step(s0, a), b), c);
    assert Mine(s) == [P.Entry(k, now, false)];
    assert s.pool.connections == map[k.remote := Mine(s)];
  }

  lemma HitsFirst(s: Sys, k: P.Conn, c: nat, now: int)
    requires s.pool.connections == map[s.addr := [P.Entry(k, now, false)]] && s.pool.maxIdleTime >= 0
    requires !s.pool.closed && c !in s.clients
    ensures var t := Step(s, Connect(c, false, now, P.DialFailed(Timeout)));
      && c in t.clients && t.clients == s.clients[c := Connecting(k)] && t.hung == s.hung
      && t.pool.connections == map[s.addr := [P.Entry(k, now, true)]] && !t.pool.closed
      && t.addr == s.addr && t.pool.maxIdleTime == s.pool.maxIdleTime
  {
    var t := Step(s, Connect(c, false, now, P.DialFailed(Timeout)));
    assert Mine(s) == [P.Entry(k, now, false)];
    assert Mine(t) == [P.Entry(k, now, true)];
    assert t.pool.connections == map[s.addr := Mine(t)];
  }

  /** Both kinds of dead hit in one run: after one Connect has succeeded and its control connection has
      closed, a second Connect is handed the closed connection, fails on it, and so is the third. */
  lemma DeadHits(id: nat, addr: string, now: int)
    ensures var k := P.Conn(id, addr);
      var s := Run(Init(addr, 10, 30_000_000_000),
                   [Connect(0, false, now, P.Dialed(k, now)), ConnectReturns(0), CloseControl(0, false)]);
      var t := Step(s, Connect(1, false, now, P.DialFailed(Timeout)));
      var u := Step(Step(t, ConnectFails(1, false)), Connect(2, false, now, P.DialFailed(Timeout)));
      && k in s.hung && 1 in t.clients && t.clients[1] == Connecting(k)
      && k in u.hung && k in u.aborted && 2 in u.clients && u.clients[2] == Connecting(k)
  {
    var k := P.Conn(id, addr);
    var s := ClosedInPool(k, now);
    HitsFirst(s, k, 1, now);
    var v := Step(Step(s, Connect(1, false, now, P.DialFailed(Timeout))), ConnectFails(1, false));
    assert Mine(v) == [P.Entry(k, now, false)];
    HitsFirst(v, k, 2, now);
  }

  // ---- a pool filled with leaks ----

  // One Connect call that comes to its end, well or badly, on a connection that reports `remote`.
  function Round(c: nat, remote: string, now: int, fails: bool): seq<Event> {
    [Connect(c, false, now, P.Dialed(P.Conn(c, remote), now))]
    + if fails then [ConnectFails(c, false)] else [ConnectReturns(c), CloseControl(c, false)]
  }

  function Rounds(n: nat, remote: string, now: int, fails: nat -> bool): seq<Event> {
    if n == 0 then [] else Rounds(n - 1, remote, now, fails) + Round(n - 1, remote, now, fails(n - 1))
  }

  function LeakedEntries(n: nat, remote: string, now: int): (es: seq<P.Entry>)
    ensures |es| == n
  {
    seq(n, c requires 0 <= c < n => P.Entry(P.Conn(c, remote), now, true))
  }

  // Nobody holds a lease, and the list of the dialled name has n entries that are marked in use.
  ghost predicate FilledTo(s: Sys, n: nat, remote: string, now: int) {
    && s.pool.connections == (if n == 0 then map[] else map[s.addr := LeakedEntries(n, remote, now)])
    && s.pool.stats.total == n && !s.pool.closed && !s.pool.draining
    && s.clients.Keys == Below(n)
    && (forall c :: c in s.clients ==> s.clients[c].Ended?)
    && (forall k :: k in s.dialled ==> k.id < n)
  }

  lemma ConnectFills(s: Sys, n: nat, remote: string, now: int)
    requires FilledTo(s, n, remote, now) && (s.pool.maxPoolSize > 0 ==> n < s.pool.maxPoolSize)
    ensures var k := P.Conn(n, remote);
      Step(s, Connect(n, false, now, P.Dialed(k, now)))
        == s.(pool := P.Added(s.pool, s.addr, k, now), clients := s.clients[n := Connecting(k)], dialled := s.dialled + {k})
  {
    var es := Mine(s);
    assert es == LeakedEntries(n, remote, now);
    assert P.FirstReusable(es, s.pool.maxIdleTime, now).None?;
  }

  // Call n has its connection and has not ended.
  ghost predicate Underway(s: Sys, n: nat, remote: string, now: int) {
    && s.pool.connections == map[s.addr := LeakedEntries(n + 1, remote, now)]
    && s.pool.stats.total == n + 1 && !s.pool.closed && !s.pool.draining
    && s.clients.Keys == Below(n + 1) && s.clients[n] == Connecting(P.Conn(n, remote))
    && (forall c :: c in s.clients && c != n ==> s.clients[c].Ended?)
    && (forall k :: k in s.dialled ==> k.id < n + 1)
  }

  lemma EntriesGrow(s: Sys, n: nat, remote: string, now: int)
    requires s.pool.connections == (if n == 0 then map[] else map[s.addr := LeakedEntries(n, remote, now)])
    ensures P.Added(s.pool, s.addr, P.Conn(n, remote), now).connections == map[s.addr := LeakedEntries(n + 1, remote, now)]
  {
    assert Mine(s) == LeakedEntries(n, remote, now);
    assert Mine(s) + [P.Entry(P.Conn(n, remote), now, true)] == LeakedEntries(n + 1, remote, now);
  }

  lemma ConnectUnderway(s: Sys, n: nat, remote: string, now: int)
    requires FilledTo(s, n, remote, now) && (s.pool.maxPoolSize > 0 ==> n < s.pool.maxPoolSize)
    ensures Underway(Step(s, Connect(n, false, now, P.Dialed(P.Conn(n, remote), now))), n, remote, now)
  {
    ConnectFills(s, n, remote, now);
    EntriesGrow(s, n, remote, now);
    assert Below(n + 1) == Below(n) + {n};
  }

  lemma EndFills(t: Sys, n: nat, remote: string, now: int)
    requires remote != t.addr && Underway(t, n, remote, now)
    ensures FilledTo(Step(t, ConnectFails(n, false)), n + 1, remote, now)
    ensures FilledTo(Step(Step(t, ConnectReturns(n)), CloseControl(n, false)), n + 1, remote, now)
  {
    PutNowhere(t, P.Conn(n, remote));
  }

  lemma RoundFills(s: Sys, n: nat, remote: string, now: int, fails: bool)
    requires remote != s.addr && FilledTo(s, n, remote, now) && (s.pool.maxPoolSize > 0 ==> n < s.pool.maxPoolSize)
    ensures FilledTo(Run(s, Round(n, remote, now, fails)), n + 1, remote, now)
  {
    var a := Connect(n, false, now, P.Dialed(P.Conn(n, remote), now));
    ConnectUnderway(s, n, remote, now);
    EndFills(Step(s, a), n, remote, now);
    RunThree(s, a, ConnectReturns(n), CloseControl(n, false));
    RunThree(s, a, ConnectFails(n, false), ConnectFails(n, false));
  }

  lemma RunThree(s: Sys, a: Event, b: Event, c: Event)
    ensures Run(s, [a] + [b]) == Step(Step(s, a), b)
    ensures Run(s, [a] + [b, c]) == Step(Step(Step(s, a), b), c)
  {
    RunSnoc(s, [], a);
    RunSnoc(s, [] + [a], b);
    RunSnoc(s, [] + [a] + [b], c);
    assert [] + [a] + [b] == [a] + [b] && [] + [a] + [b] + [c] == [a] + [b, c];
  }

  lemma {:induction false} RunJoins(s: Sys, a: seq<Event>, b: seq<Event>)
    ensures Run(s, a + b) == Run(Run(s, a), b)
  {
    if b == [] {
      assert a + b == a;
    } else {
      RunJoins(s, a, b[..|b| - 1]);
      assert (a + b)[..|a + b| - 1] == a + b[..|b| - 1];
    }
  }

  lemma {:induction false} RoundsFill(s0: Sys, n: nat, remote: string, now: int, fails: nat -> bool)
    requires remote != s0.addr && FilledTo(s0, 0, remote, now)
    requires s0.pool.maxPoolSize > 0 ==> n <= s0.pool.maxPoolSize
    ensures FilledTo(Run(s0, Rounds(n, remote, now, fails)), n, remote, now)
  {
    if n > 0 {
      var evs := Rounds(n - 1, remote, now, fails);
      RoundsFill(s0, n - 1, remote, now, fails);
      AddrFixed(s0, evs);
      LimitFixed(s0, evs);
      RoundFills(Run(s0, evs), n - 1, remote, now, fails(n - 1));
      RunJoins(s0, evs, Round(n - 1, remote, now, fails(n - 1)));
    }
  }

  lemma {:induction false} LimitFixed(s: Sys, evs: seq<Event>)
    ensures Run(s, evs).pool.maxPoolSize == s.pool.maxPoolSize
  {
    if evs != [] {
      LimitFixed(s, evs[..|evs| - 1]);
    }
  }

  /** When the reported address differs from the dialled name, as many Connect calls as the pool has
      room for, each ended well or badly before the next, fill the pool with entries nobody holds;
      from then on every Get is refused, whatever happens short of Close. */
  lemma LeaksFillThePool(addr: string, remote: string, maxPoolSize: nat, maxIdleTime: int, now: int,
                         fails: nat -> bool, more: seq<P.Event>, later: int, dial: P.Dial)
    requires remote != addr && maxPoolSize > 0 && forall ev :: ev in more ==> !ev.EvCloseBegin?
    ensures var s := Run(Init(addr, maxPoolSize, maxIdleTime), Rounds(maxPoolSize, remote, now, fails));
      && Holders(s) == {} && |Leaked(s)| == maxPoolSize && P.AllMismatched(s.pool) && P.AtCapacity(s.pool) && !s.pool.closed
      && P.Get(P.Run(s.pool, more), false, addr, later, dial) == (s.pool, P.Refused(PoolFull))
  {
    var s0 := Init(addr, maxPoolSize, maxIdleTime);
    var evs := Rounds(maxPoolSize, remote, now, fails);
    var s := Run(s0, evs);
    RoundsFill(s0, maxPoolSize, remote, now, fails);
    RunsKeep(addr, maxPoolSize, maxIdleTime, evs);
    AddrFixed(s0, evs);
    LimitFixed(s0, evs);
    FilledIsLeaked(s, maxPoolSize, remote, now);
    P.MismatchedPoolStaysFull(s.pool, more, addr, later, dial);
  }

  lemma FilledIsLeaked(s: Sys, n: nat, remote: string, now: int)
    requires Inv(s) && FilledTo(s, n, remote, now) && remote != s.addr
    ensures Holders(s) == {} && |Leaked(s)| == n && P.AllMismatched(s.pool)
    ensures forall a :: a in s.pool.connections ==> s.pool.connections[a] != []
  {
    NobodyHolds(s, n, remote, now);
    ActiveIsHolders(s);
    AllLeaked(s, n, remote, now);
  }

  lemma NobodyHolds(s: Sys, n: nat, remote: string, now: int)
    requires FilledTo(s, n, remote, now) && remote != s.addr
    ensures Holders(s) == {} && P.AllMismatched(s.pool) && !s.pool.closed
    ensures forall a :: a in s.pool.connections ==> s.pool.connections[a] != []
  {
  }

  lemma {:induction false} AllLeaked(s: Sys, n: nat, remote: string, now: int)
    requires Inv(s) && FilledTo(s, n, remote, now)
    ensures s.pool.stats.active == n
  {
    LeasedHere(s);
    AllInUse(LeakedEntries(n, remote, now));
  }

  lemma {:induction false} AllInUse(es: seq<P.Entry>)
    requires forall i :: 0 <= i < |es| ==> es[i].inUse
    ensures P.Busy(es) == |es|
  {
    if es != [] {
      AllInUse(es[..|es| - 1]);
    }
  }

  // ---- the transport's own session ----

  predicate Closes(s: Sys, ev: Event) {
    ev.CloseControl? && ev.c in s.clients && s.clients[ev.c].Open?
  }

  // The fields hold the session of an open control connection, if any.
  predicate SessionOpen(s: Sys) {
    s.session.Some? ==> s.session.value in s.clients && s.clients[s.session.value].Open?
  }

  lemma {:induction false} SessionRuns(s: Sys, evs: seq<Event>)
    requires SessionOpen(s)
    ensures SessionOpen(Run(s, evs))
  {
    if evs != [] {
      SessionRuns(s, evs[..|evs| - 1]);
    }
  }

  /** At event n the Connect call d returned, and no Connect has returned and no control connection has
      closed since. */
  ghost predicate LastReturn(s: Sys, evs: seq<Event>, n: nat, d: nat) {
    && n < |evs| && evs[n] == ConnectReturns(d) && Enabled(Run(s, evs[..n]), evs[n])
    && forall m :: n < m < |evs| ==> Quiet(s, evs, m)
  }

  ghost predicate Quiet(s: Sys, evs: seq<Event>, m: nat)
    requires m < |evs|
  {
    !Returns(Run(s, evs[..m]), evs[m]) && !Closes(Run(s, evs[..m]), evs[m])
  }

  lemma {:induction false} SessionIsLast(s: Sys, evs: seq<Event>, d: nat)
    requires s.session.None?
    ensures Run(s, evs).session == Some(d) <==> exists n: nat :: LastReturn(s, evs, n, d)
  {
    if evs != [] {
      var n := |evs| - 1;
      SessionIsLast(s, evs[..n], d);
      var before, ev := Run(s, evs[..n]), evs[n];
      if Returns(before, ev) {
        assert LastReturn(s, evs, n, ev.c);
        forall k: nat | k < n ensures !LastReturn(s, evs, k, d) {
          assert !Quiet(s, evs, n);
        }
      } else if Closes(before, ev) {
        forall k: nat ensures !LastReturn(s, evs, k, d) {
          assert !Quiet(s, evs, n);
        }
      } else {
        QuietLast(s, evs, d);
      }
    }
  }

  lemma QuietLast(s: Sys, evs: seq<Event>, d: nat)
    requires evs != [] && Quiet(s, evs, |evs| - 1)
    ensures var front := evs[..|evs| - 1];
      (exists k: nat :: LastReturn(s, front, k, d)) <==> exists k: nat :: LastReturn(s, evs, k, d)
  {
    var front := evs[..|evs| - 1];
    forall k: nat | k < |front| ensures LastReturn(s, front, k, d) <==> LastReturn(s, evs, k, d) {
      forall m | k <= m < |front| ensures front[..m] == evs[..m] && (Quiet(s, front, m) <==> Quiet(s, evs, m)) {
        assert front[..m] == evs[..m];
      }
    }
  }

  /** Closing a control connection makes the transport forget a session that is still open exactly when
      the Connect that returned last is another one, and no control connection has closed since. */
  lemma ForgetsLiveSessionIff(addr: string, maxPoolSize: int, maxIdleTime: int, evs: seq<Event>, c: nat, stale: bool)
    ensures var s0 := Init(addr, maxPoolSize, maxIdleTime);
      var s := Run(s0, evs);
      var t := Step(s, CloseControl(c, stale));
      Closes(s, CloseControl(c, stale)) ==>
        && t.session.None?
        && ((s.session.Some? && s.session.value in t.clients && t.clients[s.session.value].Open?) <==>
              exists n: nat, d: nat :: LastReturn(s0, evs, n, d) && d != c)
  {
    var s0 := Init(addr, maxPoolSize, maxIdleTime);
    var s := Run(s0, evs);
    SessionRuns(s0, evs);
    if s.session.Some? {
      SessionIsLast(s0, evs, s.session.value);
      var n: nat :| LastReturn(s0, evs, n, s.session.value);
    }
    forall n: nat, d: nat | LastReturn(s0, evs, n, d) ensures s.session == Some(d) {
      SessionIsLast(s0, evs, d);
    }
  }

  /** It happens: two Connects return, the first control connection closes, and the transport has no
      session although the second is open. */
  lemma OlderCloseForgets(addr: string, now: int, a: P.Conn, b: P.Conn)
    requires a != b
    ensures var s := Run(Init(addr, 10, 30_000_000_000),
        [Connect(0, false, now, P.Dialed(a, now)), ConnectReturns(0),
         Connect(1, false, now, P.Dialed(b, now)), ConnectReturns(1), CloseControl(0, false)]);
      s.session.None? && 1 in s.clients && s.clients[1] == Open(b)
  {
    var s0 := Init(addr, 10, 30_000_000_000);
    var e0, e1 := Connect(0, false, now, P.Dialed(a, now)), ConnectReturns(0);
    var e2, e3, e4 := Connect(1, false, now, P.Dialed(b, now)), ConnectReturns(1), CloseControl(0, false);
    RunSnoc(s0, [], e0);
    RunSnoc(s0, [] + [e0], e1);
    RunSnoc(s0, [] + [e0] + [e1], e2);
    RunSnoc(s0, [] + [e0] + [e1] + [e2], e3);
    RunSnoc(s0, [] + [e0] + [e1] + [e2] + [e3], e4);
    assert [] + [e0] + [e1] + [e2] + [e3] + [e4] == [e0, e1, e2, e3, e4];
    var s2 := Step(Step(s0, e0), e1);
    assert Mine(s2) == [P.Entry(a, now, true)];
    assert P.FirstReusable(Mine(s2), 30_000_000_000, now).None?;
  }
}
