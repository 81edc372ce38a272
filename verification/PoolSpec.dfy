/** The QUIC connection pool on values: what each locked section does to the pool's state, and
    what holds after every interleaving of those sections. */
module PoolSpec {
  import opened Common

  // A connection is its identity together with the peer address it reports.
  datatype Conn = Conn(id: nat, remote: string)

  datatype Entry = Entry(conn: Conn, lastUsedAt: int, inUse: bool)

  datatype Stats = Stats(total: int, active: int, idle: int, created: int, closed: int, hits: int, misses: int)

  datatype Pool = Pool(
    connections: map<string, seq<Entry>>,
    maxPoolSize: int,
    maxIdleTime: int,
    closed: bool,
    draining: bool,      // Close has set `closed` and has not yet emptied the pool
    stats: Stats,
    shut: set<Conn>)     // connections the pool has called CloseWithError on

  datatype Dial = DialFailed(err: Error) | Dialed(conn: Conn, at: int)

  // ---- reading the lists ----

  function Lookup(m: map<string, seq<Entry>>, addr: string): seq<Entry> {
    if addr in m then m[addr] else []
  }

  predicate Expired(e: Entry, maxIdle: int, now: int) {
    !e.inUse && now - e.lastUsedAt > maxIdle
  }

  predicate Reusable(e: Entry, maxIdle: int, now: int) {
    !e.inUse && !Expired(e, maxIdle, now)
  }

  function FirstReusable(es: seq<Entry>, maxIdle: int, now: int): (r: Option<nat>)
    ensures r.Some? ==> r.value < |es| && Reusable(es[r.value], maxIdle, now)
    ensures r.Some? ==> forall i :: 0 <= i < r.value ==> !Reusable(es[i], maxIdle, now)
    ensures r.None? ==> forall i :: 0 <= i < |es| ==> !Reusable(es[i], maxIdle, now)
  {
    if es == [] then None
    else if Reusable(es[0], maxIdle, now) then Some(0)
    else match FirstReusable(es[1..], maxIdle, now)
      case None => None
      case Some(i) =>
        assert forall j :: 0 < j < i + 1 ==> es[j] == es[1..][j - 1];
        Some(i + 1)
  }

  function IndexOf(es: seq<Entry>, conn: Conn): (r: Option<nat>)
    ensures r.Some? ==> r.value < |es| && es[r.value].conn == conn
    ensures r.Some? ==> forall i :: 0 <= i < r.value ==> es[i].conn != conn
    ensures r.None? ==> forall i :: 0 <= i < |es| ==> es[i].conn != conn
  {
    if es == [] then None
    else if es[0].conn == conn then Some(0)
    else match IndexOf(es[1..], conn)
      case None => None
      case Some(i) =>
        assert forall j :: 0 < j < i + 1 ==> es[j] == es[1..][j - 1];
        Some(i + 1)
  }

  function Keep(es: seq<Entry>, maxIdle: int, now: int): (r: seq<Entry>)
    ensures |r| <= |es|
  {
    if es == [] then []
    else
      var e := es[|es| - 1];
      var front := Keep(es[..|es| - 1], maxIdle, now);
      if Expired(e, maxIdle, now) then front else front + [e]
  }

  function Busy(es: seq<Entry>): (r: nat)
    ensures r <= |es|
  {
    if es == [] then 0
    else (if es[|es| - 1].inUse then 1 else 0) + Busy(es[..|es| - 1])
  }

  function Lens(m: map<string, seq<Entry>>): map<string, nat> {
    map a | a in m :: |m[a]|
  }

  function Busies(m: map<string, seq<Entry>>): map<string, nat> {
    map a | a in m :: Busy(m[a])
  }

  function Goners(m: map<string, seq<Entry>>, maxIdle: int, now: int): map<string, nat> {
    map a | a in m :: |m[a]| - |Keep(m[a], maxIdle, now)|
  }

  ghost function Pooled(p: Pool): nat { Sum(Lens(p.connections)) }

  ghost function Leased(p: Pool): nat { Sum(Busies(p.connections)) }

  function Conns(m: map<string, seq<Entry>>): set<Conn> {
    set a, e | a in m && e in m[a] :: e.conn
  }

  function ExpiredConns(m: map<string, seq<Entry>>, maxIdle: int, now: int): set<Conn> {
    set a, e | a in m && e in m[a] && Expired(e, maxIdle, now) :: e.conn
  }

  // ---- the locked sections ----

  function New(maxPoolSize: int, maxIdleTime: int): Pool {
    Pool(map[], maxPoolSize, maxIdleTime, false, false, Stats(0, 0, 0, 0, 0, 0, 0), {})
  }

  function AtCapacity(p: Pool): bool {
    p.maxPoolSize > 0 && p.stats.total >= p.maxPoolSize
  }

  datatype GetResult = Got(conn: Conn) | Refused(err: Error)

  function Reused(p: Pool, addr: string, i: nat, now: int): Pool
    requires i < |Lookup(p.connections, addr)|
  {
    var es := Lookup(p.connections, addr);
    p.(connections := p.connections[addr := es[i := es[i].(lastUsedAt := now, inUse := true)]],
       stats := p.stats.(hits := p.stats.hits + 1, idle := p.stats.idle - 1, active := p.stats.active + 1))
  }

  function Added(p: Pool, addr: string, conn: Conn, at: int): Pool {
    p.(connections := p.connections[addr := Lookup(p.connections, addr) + [Entry(conn, at, true)]],
       stats := p.stats.(misses := p.stats.misses + 1, total := p.stats.total + 1,
                         active := p.stats.active + 1, created := p.stats.created + 1))
  }

  function GetLocked(p: Pool, addr: string, now: int, dial: Dial): (Pool, GetResult) {
    var es := Lookup(p.connections, addr);
    match FirstReusable(es, p.maxIdleTime, now)
    case Some(i) => (Reused(p, addr, i, now), Got(es[i].conn))
    case None =>
      if AtCapacity(p) then (p, Refused(PoolFull))
      else match dial
        case DialFailed(err) => (p.(stats := p.stats.(misses := p.stats.misses + 1)), Refused(err))
        case Dialed(conn, at) => (Added(p, addr, conn, at), Got(conn))
  }

  function PutLocked(p: Pool, conn: Conn): Pool {
    var es := Lookup(p.connections, conn.remote);
    match IndexOf(es, conn)
    case None => p
    case Some(i) =>
      p.(connections := p.connections[conn.remote := es[i := es[i].(inUse := false)]],
         stats := p.stats.(active := p.stats.active - 1, idle := p.stats.idle + 1))
  }

  ghost function CleanupLocked(p: Pool, now: int): Pool {
    var gone := Sum(Goners(p.connections, p.maxIdleTime, now));
    p.(connections := map a | a in p.connections && Keep(p.connections[a], p.maxIdleTime, now) != []
                        :: Keep(p.connections[a], p.maxIdleTime, now),
       stats := p.stats.(closed := p.stats.closed + gone, total := p.stats.total - gone, idle := p.stats.idle - gone),
       shut := p.shut + ExpiredConns(p.connections, p.maxIdleTime, now))
  }

  function CloseBegin(p: Pool): Pool {
    if p.closed then p else p.(closed := true, draining := true)
  }

  ghost function CloseDrain(p: Pool): Pool {
    if !p.draining then p
    else p.(connections := map[], draining := false,
            stats := p.stats.(closed := p.stats.closed + Pooled(p), total := 0, active := 0, idle := 0),
            shut := p.shut + Conns(p.connections))
  }

  // ---- whole operations; a stale call is one that read `closed` before Close set it ----

  function Get(p: Pool, stale: bool, addr: string, now: int, dial: Dial): (Pool, GetResult) {
    if p.closed && !stale then (p, Refused(PoolClosed)) else GetLocked(p, addr, now, dial)
  }

  function Put(p: Pool, stale: bool, conn: Conn): Pool {
    if p.closed && !stale then p.(shut := p.shut + {conn}) else PutLocked(p, conn)
  }

  predicate IsHealthy(p: Pool) {
    !p.closed && p.stats.active >= 0 && p.stats.idle >= 0
  }

  datatype Event =
    | EvGet(stale: bool, addr: string, now: int, dial: Dial)
    | EvPut(stale: bool, conn: Conn)
    | EvCleanup(now: int)
    | EvCloseBegin
    | EvCloseDrain

  ghost function Step(p: Pool, ev: Event): Pool {
    match ev
    case EvGet(stale, addr, now, dial) => Get(p, stale, addr, now, dial).0
    case EvPut(stale, conn) => Put(p, stale, conn)
    case EvCleanup(now) => CleanupLocked(p, now)
    case EvCloseBegin => CloseBegin(p)
    case EvCloseDrain => CloseDrain(p)
  }

  ghost function Run(p: Pool, evs: seq<Event>): Pool {
    if evs == [] then p else Step(Run(p, evs[..|evs| - 1]), evs[|evs| - 1])
  }

  // A Put that finds its connection in the pool already idle.
  predicate HitsIdle(p: Pool, ev: Event) {
    && ev.EvPut?
    && !(p.closed && !ev.stale)
    && var es := Lookup(p.connections, ev.conn.remote);
       var i := IndexOf(es, ev.conn);
       i.Some? && !es[i.value].inUse
  }

  /** How many Puts since the pool was last emptied hit an entry that was already idle. */
  ghost function RepeatPuts(p: Pool, evs: seq<Event>): nat {
    if evs == [] then 0
    else
      var before := Run(p, evs[..|evs| - 1]);
      var n := RepeatPuts(p, evs[..|evs| - 1]);
      var ev := evs[|evs| - 1];
      if HitsIdle(before, ev) then n + 1
      else if ev.EvCloseDrain? && before.draining then 0
      else n
  }

  // ---- counting lemmas ----

  lemma {:induction false} BusySet(es: seq<Entry>, i: nat, e: Entry)
    requires i < |es|
    ensures Busy(es[i := e]) == Busy(es) - (if es[i].inUse then 1 else 0) + (if e.inUse then 1 else 0)
  {
    var n := |es| - 1;
    if i < n {
      BusySet(es[..n], i, e);
      assert es[i := e][..n] == es[..n][i := e];
    } else {
      assert es[i := e][..n] == es[..n];
    }
  }

  lemma LensPut(m: map<string, seq<Entry>>, addr: string, es: seq<Entry>)
    ensures Lens(m[addr := es]) == Lens(m)[addr := |es|]
  {
  }

  lemma BusiesPut(m: map<string, seq<Entry>>, addr: string, es: seq<Entry>)
    ensures Busies(m[addr := es]) == Busies(m)[addr := Busy(es)]
  {
  }

  lemma {:induction false} PutList(m: map<string, seq<Entry>>, addr: string, es: seq<Entry>)
    ensures Sum(Lens(m[addr := es])) == Sum(Lens(m)) - |Lookup(m, addr)| + |es|
    ensures Sum(Busies(m[addr := es])) == Sum(Busies(m)) - Busy(Lookup(m, addr)) + Busy(es)
  {
    LensPut(m, addr, es);
    BusiesPut(m, addr, es);
    SumPut(Lens(m), addr, |es|);
    SumPut(Busies(m), addr, Busy(es));
  }

  lemma {:induction false} KeepBusy(es: seq<Entry>, maxIdle: int, now: int)
    ensures Busy(Keep(es, maxIdle, now)) == Busy(es)
  {
    if es != [] {
      var n := |es| - 1;
      KeepBusy(es[..n], maxIdle, now);
      var front := Keep(es[..n], maxIdle, now);
      assert (front + [es[n]])[..|front|] == front;
    }
  }

  lemma CleanupCounts(p: Pool, now: int)
    ensures var q := CleanupLocked(p, now);
      && Pooled(p) == Pooled(q) + Sum(Goners(p.connections, p.maxIdleTime, now))
      && Leased(q) == Leased(p)
  {
    CleanupLens(p, now);
    CleanupBusies(p, now);
  }

  lemma CleanupLens(p: Pool, now: int)
    ensures Pooled(p) == Pooled(CleanupLocked(p, now)) + Sum(Goners(p.connections, p.maxIdleTime, now))
  {
    var m, q := p.connections, CleanupLocked(p, now).connections;
    forall a | a in m ensures |m[a]| == At(Lens(q), a) + At(Goners(m, p.maxIdleTime, now), a) {
    }
    SumSplit(Lens(m), Lens(q), Goners(m, p.maxIdleTime, now));
  }

  lemma CleanupBusies(p: Pool, now: int)
    ensures Leased(CleanupLocked(p, now)) == Leased(p)
  {
    var m, q := p.connections, CleanupLocked(p, now).connections;
    forall a | a in m ensures Busy(m[a]) == At(Busies(q), a) {
      KeepBusy(m[a], p.maxIdleTime, now);
    }
    SumSplit(Busies(m), Busies(q), map[]);
  }

  // ---- conservation over every run ----

  ghost predicate Conserved(p: Pool, repeats: nat) {
    && p.stats.total == Pooled(p)
    && p.stats.active + p.stats.idle == p.stats.total
    && p.stats.created == p.stats.closed + p.stats.total
    && p.stats.active == Leased(p) - repeats
    && (p.maxPoolSize > 0 ==> p.stats.total <= p.maxPoolSize)
    && (p.draining ==> p.closed)
  }

  lemma GetConserves(p: Pool, addr: string, now: int, dial: Dial, repeats: nat)
    requires Conserved(p, repeats)
    ensures Conserved(GetLocked(p, addr, now, dial).0, repeats)
  {
    match FirstReusable(Lookup(p.connections, addr), p.maxIdleTime, now)
    case Some(i) => ReuseConserves(p, addr, i, now, repeats);
    case None =>
      if !AtCapacity(p) && dial.Dialed? {
        AddConserves(p, addr, dial.conn, dial.at, repeats);
      }
  }

  lemma ReuseConserves(p: Pool, addr: string, i: nat, now: int, repeats: nat)
    requires Conserved(p, repeats)
    requires i < |Lookup(p.connections, addr)| && !Lookup(p.connections, addr)[i].inUse
    ensures Conserved(Reused(p, addr, i, now), repeats)
  {
    var es := Lookup(p.connections, addr);
    var e := es[i].(lastUsedAt := now, inUse := true);
    BusySet(es, i, e);
    PutList(p.connections, addr, es[i := e]);
  }

  lemma AddConserves(p: Pool, addr: string, conn: Conn, at: int, repeats: nat)
    requires Conserved(p, repeats) && !AtCapacity(p)
    ensures Conserved(Added(p, addr, conn, at), repeats)
  {
    var es := Lookup(p.connections, addr);
    var e := Entry(conn, at, true);
    assert (es + [e])[..|es|] == es;
    PutList(p.connections, addr, es + [e]);
  }

  lemma PutConserves(p: Pool, stale: bool, conn: Conn, repeats: nat)
    requires Conserved(p, repeats)
    ensures Conserved(Put(p, stale, conn), repeats + if HitsIdle(p, EvPut(stale, conn)) then 1 else 0)
  {
    var es := Lookup(p.connections, conn.remote);
    var i := IndexOf(es, conn);
    if !(p.closed && !stale) && i.Some? {
      var e := es[i.value].(inUse := false);
      BusySet(es, i.value, e);
      PutList(p.connections, conn.remote, es[i.value := e]);
    }
  }

  /** The stats agree with the lists after every sequence of locked sections whatever the callers
      do: stale calls, repeated Puts and foreign connections included. */
  lemma {:induction false} Conservation(maxPoolSize: int, maxIdleTime: int, evs: seq<Event>)
    ensures Conserved(Run(New(maxPoolSize, maxIdleTime), evs), RepeatPuts(New(maxPoolSize, maxIdleTime), evs))
  {
    var p0 := New(maxPoolSize, maxIdleTime);
    if evs != [] {
      var n := |evs| - 1;
      Conservation(maxPoolSize, maxIdleTime, evs[..n]);
      var p, repeats := Run(p0, evs[..n]), RepeatPuts(p0, evs[..n]);
      match evs[n]
      case EvGet(stale, addr, now, dial) => GetConserves(p, addr, now, dial, repeats);
      case EvPut(stale, conn) => PutConserves(p, stale, conn, repeats);
      case EvCleanup(now) => CleanupCounts(p, now);
      case EvCloseBegin =>
      case EvCloseDrain =>
    }
  }

  lemma {:induction false} LeasedAtMostPooled(m: map<string, seq<Entry>>)
    ensures Sum(Busies(m)) <= Sum(Lens(m))
    decreases m.Keys
  {
    if m.Keys != {} {
      var a := Pick(m);
      SumTake(Lens(m), a);
      SumTake(Busies(m), a);
      assert Lens(m) - {a} == Lens(m - {a});
      assert Busies(m) - {a} == Busies(m - {a});
      LeasedAtMostPooled(m - {a});
    }
  }

  /** IsHealthy reports more than "not closed" exactly when repeated Puts outnumber the leases. */
  lemma {:induction false} HealthyIff(maxPoolSize: int, maxIdleTime: int, evs: seq<Event>)
    ensures var p0 := New(maxPoolSize, maxIdleTime);
      var p := Run(p0, evs);
      IsHealthy(p) <==> !p.closed && RepeatPuts(p0, evs) <= Leased(p)
  {
    Conservation(maxPoolSize, maxIdleTime, evs);
    LeasedAtMostPooled(Run(New(maxPoolSize, maxIdleTime), evs).connections);
  }

  /** The failing family is not empty: one lease returned twice makes an open pool unhealthy. */
  lemma ReturningTwiceIsUnhealthy(maxPoolSize: int, maxIdleTime: int, now: int, id: nat, addr: string)
    ensures var c := Conn(id, addr);
      var evs := [EvGet(false, addr, now, Dialed(c, now)), EvPut(false, c), EvPut(false, c)];
      var p := Run(New(maxPoolSize, maxIdleTime), evs);
      !p.closed && !IsHealthy(p)
  {
    var c := Conn(id, addr);
    var p0 := New(maxPoolSize, maxIdleTime);
    var evs := [EvGet(false, addr, now, Dialed(c, now)), EvPut(false, c), EvPut(false, c)];
    assert evs[..2][..1][..0] == [] && Run(p0, []) == p0;
    assert evs[..2][..1] == [evs[0]];
    assert evs[..2] == [evs[0], evs[1]];
    var p1 := Run(p0, evs[..2][..1]);
    assert p1 == Added(p0, addr, c, now);
    var p2 := Run(p0, evs[..2]);
    assert p2 == Put(p1, false, c);
  }

  // ---- cleanup is a filter ----

  /** Keep retains exactly the entries that have not expired, in their order. */
  lemma {:induction false} KeepIsFilter(es: seq<Entry>, maxIdle: int, now: int) returns (pos: seq<nat>)
    ensures |pos| == |Keep(es, maxIdle, now)|
    ensures forall j :: 0 <= j < |pos| ==> pos[j] < |es| && Keep(es, maxIdle, now)[j] == es[pos[j]]
    ensures forall j, k :: 0 <= j < k < |pos| ==> pos[j] < pos[k]
    ensures forall i :: 0 <= i < |es| ==> (i in pos <==> !Expired(es[i], maxIdle, now))
  {
    if es == [] {
      pos := [];
    } else {
      var n := |es| - 1;
      pos := KeepIsFilter(es[..n], maxIdle, now);
      assert n !in pos;
      if !Expired(es[n], maxIdle, now) {
        pos := pos + [n];
      }
    }
  }

  /** What one cleanup does to the lists: each is filtered, none is left empty, and what it shuts
      was idle for longer than the limit. */
  lemma {:induction false} CleanupFilters(p: Pool, now: int)
    ensures var q := CleanupLocked(p, now);
      && (forall a :: Lookup(q.connections, a) == Keep(Lookup(p.connections, a), p.maxIdleTime, now))
      && (forall a :: a in q.connections ==> q.connections[a] != [])
      && (forall c :: c in q.shut && c !in p.shut ==>
            exists a, e :: a in p.connections && e in p.connections[a] && e.conn == c
                           && !e.inUse && now - e.lastUsedAt > p.maxIdleTime)
  {
    var q := CleanupLocked(p, now);
    forall c | c in q.shut && c !in p.shut
      ensures exists a, e :: a in p.connections && e in p.connections[a] && e.conn == c
                             && !e.inUse && now - e.lastUsedAt > p.maxIdleTime
    {
      var a, e :| a in p.connections && e in p.connections[a] && Expired(e, p.maxIdleTime, now) && e.conn == c;
    }
  }

  // ---- reuse is sound ----

  /** When each connection was last handed out by a successful Get. */
  ghost function HandOuts(p: Pool, evs: seq<Event>): map<Conn, int> {
    if evs == [] then map[]
    else
      var before := Run(p, evs[..|evs| - 1]);
      var h := HandOuts(p, evs[..|evs| - 1]);
      var ev := evs[|evs| - 1];
      if ev.EvGet? then
        match Get(before, ev.stale, ev.addr, ev.now, ev.dial).1
        case Refused(_) => h
        case Got(conn) => h[conn := if Reuses(before, ev) then ev.now else ev.dial.at]
      else h
  }

  predicate Reuses(p: Pool, ev: Event) {
    && ev.EvGet?
    && !(p.closed && !ev.stale)
    && FirstReusable(Lookup(p.connections, ev.addr), p.maxIdleTime, ev.now).Some?
  }

  /** Dialling yields a connection that was not seen before. */
  ghost predicate FreshDials(p: Pool, evs: seq<Event>) {
    evs == [] ||
    (var n := |evs| - 1;
     FreshDials(p, evs[..n]) &&
     (evs[n].EvGet? && evs[n].dial.Dialed? ==> evs[n].dial.conn !in HandOuts(p, evs[..n])))
  }

  ghost predicate Stamped(m: map<string, seq<Entry>>, h: map<Conn, int>) {
    forall a, i :: a in m && 0 <= i < |m[a]| ==> m[a][i].conn in h && h[m[a][i].conn] == m[a][i].lastUsedAt
  }

  ghost predicate Distinct(m: map<string, seq<Entry>>) {
    forall a, i, b, j :: a in m && b in m && 0 <= i < |m[a]| && 0 <= j < |m[b]| && m[a][i].conn == m[b][j].conn
      ==> a == b && i == j
  }

  ghost predicate Tracked(p: Pool, h: map<Conn, int>) {
    Stamped(p.connections, h) && Distinct(p.connections)
  }

  lemma CleanupTracked(p: Pool, now: int, h: map<Conn, int>)
    requires Tracked(p, h)
    ensures Tracked(CleanupLocked(p, now), h)
  {
    var q := CleanupLocked(p, now);
    forall a, i, b, j | a in q.connections && b in q.connections && 0 <= i < |q.connections[a]|
        && 0 <= j < |q.connections[b]| && q.connections[a][i].conn == q.connections[b][j].conn
      ensures a == b && i == j
    {
      var pa := KeepIsFilter(p.connections[a], p.maxIdleTime, now);
      var pb := KeepIsFilter(p.connections[b], p.maxIdleTime, now);
      assert p.connections[a][pa[i]].conn == p.connections[b][pb[j]].conn;
    }
    forall a, i | a in q.connections && 0 <= i < |q.connections[a]|
      ensures var e := q.connections[a][i]; e.conn in h && h[e.conn] == e.lastUsedAt
    {
      var pa := KeepIsFilter(p.connections[a], p.maxIdleTime, now);
      assert q.connections[a][i] == p.connections[a][pa[i]];
    }
  }

  lemma ReuseTracked(p: Pool, addr: string, i: nat, now: int, h: map<Conn, int>)
    requires Tracked(p, h) && i < |Lookup(p.connections, addr)|
    ensures Tracked(Reused(p, addr, i, now), h[Lookup(p.connections, addr)[i].conn := now])
  {
    var m: map<string, seq<Entry>>, q: map<string, seq<Entry>> := p.connections, Reused(p, addr, i, now).connections;
    assert forall a, j :: a in q && 0 <= j < |q[a]| ==> a in m && j < |m[a]| && q[a][j].conn == m[a][j].conn;
    forall a, j | a in q && 0 <= j < |q[a]| && !(a == addr && j == i)
      ensures q[a][j] == m[a][j] && m[a][j].conn != m[addr][i].conn
    {
    }
  }

  lemma AddTracked(p: Pool, addr: string, conn: Conn, at: int, h: map<Conn, int>)
    requires Tracked(p, h) && conn !in h
    ensures Tracked(Added(p, addr, conn, at), h[conn := at])
  {
    var m: map<string, seq<Entry>>, q: map<string, seq<Entry>> := p.connections, Added(p, addr, conn, at).connections;
    var n := |Lookup(m, addr)|;
    forall a, j | a in q && 0 <= j < |q[a]| && !(a == addr && j == n)
      ensures a in m && j < |m[a]| && q[a][j] == m[a][j] && q[a][j].conn != conn
    {
    }
    assert q[addr][n] == Entry(conn, at, true);
  }

  lemma GetTracked(p: Pool, addr: string, now: int, dial: Dial, h: map<Conn, int>)
    requires Tracked(p, h) && (dial.Dialed? ==> dial.conn !in h)
    ensures var (q, r) := GetLocked(p, addr, now, dial);
      Tracked(q, if r.Refused? then h
                 else h[r.conn := if FirstReusable(Lookup(p.connections, addr), p.maxIdleTime, now).Some? then now else dial.at])
  {
    match FirstReusable(Lookup(p.connections, addr), p.maxIdleTime, now)
    case Some(i) => ReuseTracked(p, addr, i, now, h);
    case None =>
      if !AtCapacity(p) && dial.Dialed? {
        AddTracked(p, addr, dial.conn, dial.at, h);
      }
  }

  lemma PutTracked(p: Pool, stale: bool, conn: Conn, h: map<Conn, int>)
    requires Tracked(p, h)
    ensures Tracked(Put(p, stale, conn), h)
  {
  }

  lemma {:induction false} TrackedInRuns(p0: Pool, evs: seq<Event>)
    requires p0.connections == map[] && FreshDials(p0, evs)
    ensures Tracked(Run(p0, evs), HandOuts(p0, evs))
  {
    if evs != [] {
      var n := |evs| - 1;
      TrackedInRuns(p0, evs[..n]);
      var p, h := Run(p0, evs[..n]), HandOuts(p0, evs[..n]);
      match evs[n]
      case EvGet(stale, addr, now, dial) =>
        if stale || !p.closed { GetTracked(p, addr, now, dial, h); }
      case EvPut(stale, conn) => PutTracked(p, stale, conn, h);
      case EvCleanup(now) => CleanupTracked(p, now, h);
      case EvCloseBegin =>
      case EvCloseDrain =>
    }
  }

  // The list's first entry that is neither in use nor last handed out too long ago has this connection.
  predicate FirstOfItsKind(es: seq<Entry>, conn: Conn, maxIdle: int, now: int) {
    exists i :: 0 <= i < |es| && es[i].conn == conn && Reusable(es[i], maxIdle, now)
                && forall j :: 0 <= j < i ==> es[j].inUse || now - es[j].lastUsedAt > maxIdle
  }

  /** In every run with fresh dials, a connection handed out from the pool was last handed out no
      longer than maxIdleTime ago, however recently it was returned; it is the first such entry. */
  lemma ReuseIsRecent(maxPoolSize: int, maxIdleTime: int, evs: seq<Event>, ev: Event)
    requires ev.EvGet? && FreshDials(New(maxPoolSize, maxIdleTime), evs)
    ensures var p0 := New(maxPoolSize, maxIdleTime);
      var p := Run(p0, evs);
      var r := Get(p, ev.stale, ev.addr, ev.now, ev.dial).1;
      Reuses(p, ev) ==>
        && r.Got? && r.conn in HandOuts(p0, evs) && ev.now - HandOuts(p0, evs)[r.conn] <= maxIdleTime
        && FirstOfItsKind(Lookup(p.connections, ev.addr), r.conn, maxIdleTime, ev.now)
  {
    var p0 := New(maxPoolSize, maxIdleTime);
    TrackedInRuns(p0, evs);
    LimitsFixed(p0, evs);
  }

  lemma {:induction false} LimitsFixed(p: Pool, evs: seq<Event>)
    ensures Run(p, evs).maxIdleTime == p.maxIdleTime && Run(p, evs).maxPoolSize == p.maxPoolSize
  {
    if evs != [] {
      LimitsFixed(p, evs[..|evs| - 1]);
    }
  }

  /** ErrPoolFull means the pool holds maxPoolSize entries and none for this address is reusable. */
  lemma PoolFullMeansFull(maxPoolSize: int, maxIdleTime: int, evs: seq<Event>, addr: string, now: int, dial: Dial)
    requires dial.DialFailed? ==> dial.err != PoolFull
    ensures var p := Run(New(maxPoolSize, maxIdleTime), evs);
      GetLocked(p, addr, now, dial).1 == Refused(PoolFull) <==>
        maxPoolSize > 0 && Pooled(p) == maxPoolSize &&
        (addr in p.connections ==> forall e :: e in p.connections[addr] ==> e.inUse || now - e.lastUsedAt > maxIdleTime)
  {
    Conservation(maxPoolSize, maxIdleTime, evs);
    LimitsFixed(New(maxPoolSize, maxIdleTime), evs);
    var p := Run(New(maxPoolSize, maxIdleTime), evs);
    var es := Lookup(p.connections, addr);
    if FirstReusable(es, p.maxIdleTime, now).Some? {
      assert es[FirstReusable(es, p.maxIdleTime, now).value] in es;
    }
  }

  // ---- connections dialled under a name other than the address they report ----

  predicate LeakedAt(p: Pool, addr: string, conn: Conn) {
    && conn.remote != addr && addr in p.connections
    && exists e :: e in p.connections[addr] && e.conn == conn && e.inUse
  }

  lemma LeakStep(q: Pool, ev: Event, addr: string, conn: Conn)
    requires LeakedAt(q, addr, conn) && !ev.EvCloseDrain?
    ensures LeakedAt(Step(q, ev), addr, conn)
  {
    var es: seq<Entry> := q.connections[addr];
    var i :| 0 <= i < |es| && es[i].conn == conn && es[i].inUse;
    if ev.EvCleanup? {
      var pos := KeepIsFilter(es, q.maxIdleTime, ev.now);
      assert i in pos;
      var j :| 0 <= j < |pos| && pos[j] == i;
      assert Step(q, ev).connections[addr][j] == es[i];
    } else {
      LeakStepOther(q, ev, addr, i);
      assert Step(q, ev).connections[addr][i] in Step(q, ev).connections[addr];
    }
  }

  lemma LeakStepOther(q: Pool, ev: Event, addr: string, i: nat)
    requires addr in q.connections && i < |q.connections[addr]|
    requires q.connections[addr][i].inUse && q.connections[addr][i].conn.remote != addr
    requires !ev.EvCloseDrain? && !ev.EvCleanup?
    ensures var r := Step(q, ev).connections;
      addr in r && i < |r[addr]| && r[addr][i] == q.connections[addr][i]
  {
  }

  /** Put searches under the reported address, so such a lease is never released before Close. */
  lemma {:induction false} MismatchedLeaseNeverReturns(p: Pool, evs: seq<Event>, addr: string, conn: Conn)
    requires LeakedAt(p, addr, conn)
    requires forall i :: 0 <= i < |evs| ==> !evs[i].EvCloseDrain?
    ensures LeakedAt(Run(p, evs), addr, conn)
  {
    if evs != [] {
      var n := |evs| - 1;
      MismatchedLeaseNeverReturns(p, evs[..n], addr, conn);
      LeakStep(Run(p, evs[..n]), evs[n], addr, conn);
    }
  }

  ghost predicate AllMismatched(p: Pool) {
    forall a, e :: a in p.connections && e in p.connections[a] ==> e.inUse && e.conn.remote != a
  }

  /** Once a bounded pool is filled with such leases, every later Get is refused, whatever is Put. */
  lemma {:induction false} MismatchedPoolStaysFull(p: Pool, evs: seq<Event>, addr: string, now: int, dial: Dial)
    requires AllMismatched(p) && AtCapacity(p) && !p.closed && !p.draining
    requires forall a :: a in p.connections ==> p.connections[a] != []
    requires forall ev :: ev in evs ==> !ev.EvCloseBegin?
    ensures Run(p, evs) == p
    ensures Get(Run(p, evs), false, addr, now, dial) == (p, Refused(PoolFull))
  {
    if evs != [] {
      var n := |evs| - 1;
      MismatchedPoolStaysFull(p, evs[..n], addr, now, dial);
      var ev := evs[n];
      assert ev in evs;
      if ev.EvCleanup? {
        CleanupChangesNothing(p, ev.now);
      }
    }
  }

  lemma {:induction false} NothingGone(es: seq<Entry>, maxIdle: int, now: int)
    requires forall e :: e in es ==> !Expired(e, maxIdle, now)
    ensures Keep(es, maxIdle, now) == es
  {
    if es != [] {
      NothingGone(es[..|es| - 1], maxIdle, now);
    }
  }

  lemma NothingExpires(m: map<string, seq<Entry>>, maxIdle: int, now: int)
    requires forall a, e :: a in m && e in m[a] ==> e.inUse
    requires forall a :: a in m ==> m[a] != []
    ensures (map a | a in m && Keep(m[a], maxIdle, now) != [] :: Keep(m[a], maxIdle, now)) == m
    ensures ExpiredConns(m, maxIdle, now) == {}
    ensures Sum(Goners(m, maxIdle, now)) == 0
  {
    forall a | a in m ensures Keep(m[a], maxIdle, now) == m[a] {
      NothingGone(m[a], maxIdle, now);
    }
    SumZero(Goners(m, maxIdle, now));
  }

  lemma {:induction false} SumZero(m: map<string, nat>)
    requires forall k :: k in m ==> m[k] == 0
    ensures Sum(m) == 0
    decreases m.Keys
  {
    if m.Keys != {} {
      SumZero(m - {Pick(m)});
    }
  }

  lemma CleanupChangesNothing(p: Pool, now: int)
    requires forall a, e :: a in p.connections && e in p.connections[a] ==> e.inUse
    requires forall a :: a in p.connections ==> p.connections[a] != []
    ensures CleanupLocked(p, now) == p
  {
    NothingExpires(p.connections, p.maxIdleTime, now);
  }
}
