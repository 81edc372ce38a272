/** The connection pool as an object whose methods update its lists, its entries and its stats. */
module ConnectionPool {
  import opened Common
  import opened PoolSpec

  class PooledConnection {
    const conn: Conn
    const createdAt: int
    var lastUsedAt: int
    var inUse: bool

    constructor (conn: Conn, now: int)
      ensures this.conn == conn && createdAt == now && lastUsedAt == now && !inUse
    {
      this.conn, createdAt, lastUsedAt, inUse := conn, now, now, false;
    }

    ghost function Value(): Entry
      reads this
    {
      Entry(conn, lastUsedAt, inUse)
    }

    method MarkInUse(now: int)
      modifies this
      ensures Value() == Entry(conn, now, true)
    {
      lastUsedAt := now;
      inUse := true;
    }

    // Returning a connection does not refresh lastUsedAt.
    method MarkIdle()
      modifies this
      ensures Value() == old(Value()).(inUse := false)
    {
      inUse := false;
    }

    method IsExpired(maxIdle: int, now: int) returns (r: bool)
      ensures r == Expired(Value(), maxIdle, now)
    {
      if inUse {
        return false;
      }
      r := now - lastUsedAt > maxIdle;
    }
  }

  // ---- progress of the loops, on values ----

  function ExpiredIn(es: seq<Entry>, maxIdle: int, now: int): set<Conn> {
    set e | e in es && Expired(e, maxIdle, now) :: e.conn
  }

  function ConnsIn(es: seq<Entry>): set<Conn> {
    set e | e in es :: e.conn
  }

  lemma PrefixStep(es: seq<Entry>, i: nat, maxIdle: int, now: int)
    requires i < |es|
    ensures var e := es[i];
      && Keep(es[..i + 1], maxIdle, now)
           == Keep(es[..i], maxIdle, now) + (if Expired(e, maxIdle, now) then [] else [e])
      && ExpiredIn(es[..i + 1], maxIdle, now)
           == ExpiredIn(es[..i], maxIdle, now) + (if Expired(e, maxIdle, now) then {e.conn} else {})
      && ConnsIn(es[..i + 1]) == ConnsIn(es[..i]) + {e.conn}
  {
    assert es[..i + 1] == es[..i] + [es[i]] && es[..i + 1][..i] == es[..i];
  }

  // `todo` are the lists a loop over the address map has not visited yet.
  lemma VisitCounts(counts: map<string, nat>, todo: set<string>, addr: string)
    requires todo <= counts.Keys && addr in todo
    ensures Sum(counts - (todo - {addr})) == Sum(counts - todo) + counts[addr]
  {
    var rest := todo - {addr};
    assert counts - rest - {addr} == counts - todo;
    SumTake(counts - rest, addr);
  }

  lemma VisitConns(lists: map<string, seq<Entry>>, todo: set<string>, addr: string, maxIdle: int, now: int)
    requires todo <= lists.Keys && addr in todo
    ensures ExpiredConns(lists - (todo - {addr}), maxIdle, now)
         == ExpiredConns(lists - todo, maxIdle, now) + ExpiredIn(lists[addr], maxIdle, now)
    ensures Conns(lists - (todo - {addr})) == Conns(lists - todo) + ConnsIn(lists[addr])
  {
    var a, b := lists - (todo - {addr}), lists - todo;
    assert a == b[addr := lists[addr]] && addr !in b;
    forall c | c in ConnsIn(lists[addr]) ensures c in Conns(a) {
      var e :| e in lists[addr] && e.conn == c;
      assert e in a[addr];
    }
    forall c | c in ExpiredIn(lists[addr], maxIdle, now) ensures c in ExpiredConns(a, maxIdle, now) {
      var e :| e in lists[addr] && e.conn == c && Expired(e, maxIdle, now);
      assert e in a[addr];
    }
    forall c | c in Conns(b) ensures c in Conns(a) {
      var k, e :| k in b && e in b[k] && e.conn == c;
      assert e in a[k];
    }
    forall c | c in ExpiredConns(b, maxIdle, now) ensures c in ExpiredConns(a, maxIdle, now) {
      var k, e :| k in b && e in b[k] && e.conn == c && Expired(e, maxIdle, now);
      assert e in a[k];
    }
  }

  function ListsCleanedBut(m: map<string, seq<Entry>>, todo: set<string>, idle: int, now: int): map<string, seq<Entry>> {
    map a | a in m && (a in todo || Keep(m[a], idle, now) != []) :: if a in todo then m[a] else Keep(m[a], idle, now)
  }

  lemma ListsCleanOneMore(m: map<string, seq<Entry>>, todo: set<string>, addr: string, idle: int, now: int)
    requires todo <= m.Keys && addr in todo
    ensures var before, kept := ListsCleanedBut(m, todo, idle, now), Keep(m[addr], idle, now);
      && addr in before && before[addr] == m[addr]
      && ListsCleanedBut(m, todo - {addr}, idle, now)
           == if kept == [] then before - {addr} else before[addr := kept]
  {
    var before, kept := ListsCleanedBut(m, todo, idle, now), Keep(m[addr], idle, now);
    var after := ListsCleanedBut(m, todo - {addr}, idle, now);
    var want := if kept == [] then before - {addr} else before[addr := kept];
    assert after.Keys == want.Keys;
    forall a | a in after ensures after[a] == want[a] {
    }
  }

  ghost function CleanedBut(p: Pool, todo: set<string>, now: int): Pool {
    var m, idle := p.connections, p.maxIdleTime;
    var gone := Sum(Goners(m, idle, now) - todo);
    p.(connections := ListsCleanedBut(m, todo, idle, now),
       stats := p.stats.(closed := p.stats.closed + gone, total := p.stats.total - gone, idle := p.stats.idle - gone),
       shut := p.shut + ExpiredConns(m - todo, idle, now))
  }

  ghost function ListCleaned(p: Pool, addr: string, now: int): Pool
    requires addr in p.connections
  {
    var es := p.connections[addr];
    var kept := Keep(es, p.maxIdleTime, now);
    var gone := |es| - |kept|;
    p.(connections := if kept == [] then p.connections - {addr} else p.connections[addr := kept],
       stats := p.stats.(closed := p.stats.closed + gone, total := p.stats.total - gone, idle := p.stats.idle - gone),
       shut := p.shut + ExpiredIn(es, p.maxIdleTime, now))
  }

  lemma CleanOneMore(p: Pool, todo: set<string>, addr: string, now: int)
    requires todo <= p.connections.Keys && addr in todo
    ensures addr in CleanedBut(p, todo, now).connections
    ensures ListCleaned(CleanedBut(p, todo, now), addr, now) == CleanedBut(p, todo - {addr}, now)
  {
    VisitCounts(Goners(p.connections, p.maxIdleTime, now), todo, addr);
    VisitConns(p.connections, todo, addr, p.maxIdleTime, now);
    ListsCleanOneMore(p.connections, todo, addr, p.maxIdleTime, now);
  }

  lemma CleanedStart(p: Pool, now: int)
    ensures CleanedBut(p, p.connections.Keys, now) == p
  {
    var m, gone := p.connections, Goners(p.connections, p.maxIdleTime, now);
    assert m - m.Keys == map[] && gone - m.Keys == map[];
    assert ListsCleanedBut(m, m.Keys, p.maxIdleTime, now) == m;
  }

  lemma CleanedEnd(p: Pool, now: int)
    ensures CleanedBut(p, {}, now) == CleanupLocked(p, now)
  {
    var m, gone := p.connections, Goners(p.connections, p.maxIdleTime, now);
    assert m - {} == m && gone - {} == gone;
    assert ListsCleanedBut(m, {}, p.maxIdleTime, now) == CleanupLocked(p, now).connections;
  }

  ghost function ClosedBut(p: Pool, todo: set<string>): Pool {
    p.(stats := p.stats.(closed := p.stats.closed + Sum(Lens(p.connections) - todo)),
       shut := p.shut + Conns(p.connections - todo))
  }

  lemma CloseOneMore(p: Pool, todo: set<string>, addr: string)
    requires todo <= p.connections.Keys && addr in todo
    ensures var q, es := ClosedBut(p, todo), p.connections[addr];
      ClosedBut(p, todo - {addr})
        == q.(stats := q.stats.(closed := q.stats.closed + |es|), shut := q.shut + ConnsIn(es))
  {
    VisitCounts(Lens(p.connections), todo, addr);
    VisitConns(p.connections, todo, addr, 0, 0);
  }

  lemma ClosedEnds(p: Pool)
    ensures ClosedBut(p, p.connections.Keys) == p
    ensures ClosedBut(p, {}) == p.(stats := p.stats.(closed := p.stats.closed + Pooled(p)), shut := p.shut + Conns(p.connections))
  {
    var m, lens := p.connections, Lens(p.connections);
    assert m - {} == m && lens - {} == lens && m - m.Keys == map[] && lens - m.Keys == map[];
  }

  lemma FirstAt(es: seq<Entry>, maxIdle: int, now: int, i: nat)
    requires i < |es| && Reusable(es[i], maxIdle, now)
    requires forall j :: 0 <= j < i ==> !Reusable(es[j], maxIdle, now)
    ensures FirstReusable(es, maxIdle, now) == Some(i)
  {
  }

  lemma ConnAt(es: seq<Entry>, conn: Conn, i: nat)
    requires i < |es| && es[i].conn == conn
    requires forall j :: 0 <= j < i ==> es[j].conn != conn
    ensures IndexOf(es, conn) == Some(i)
  {
  }

  ghost predicate NoSharing(m: map<string, seq<PooledConnection>>) {
    forall a, i, b, j ::
      a in m && b in m && 0 <= i < |m[a]| && 0 <= j < |m[b]| && m[a][i] == m[b][j] ==> a == b && i == j
  }

  ghost predicate Mirrors(pcs: seq<PooledConnection>, es: seq<Entry>)
    reads pcs
  {
    |pcs| == |es| && forall i :: 0 <= i < |pcs| ==> es[i] == pcs[i].Value()
  }

  ghost function EntriesOf(m: map<string, seq<PooledConnection>>): set<PooledConnection> {
    set a, pc | a in m && pc in m[a] :: pc
  }

  lemma AppendShares(m: map<string, seq<PooledConnection>>, addr: string, pc: PooledConnection)
    requires NoSharing(m) && pc !in EntriesOf(m)
    ensures var conns := if addr in m then m[addr] else [];
      && NoSharing(m[addr := conns + [pc]])
      && EntriesOf(m[addr := conns + [pc]]) == EntriesOf(m) + {pc}
  {
    var conns := if addr in m then m[addr] else [];
    var n := m[addr := conns + [pc]];
    assert n[addr][|conns|] == pc && pc in n[addr];
    forall a, i | a in n && 0 <= i < |n[a]| && !(a == addr && i == |conns|)
      ensures a in m && i < |m[a]| && n[a][i] == m[a][i] && n[a][i] != pc
    {
      assert m[a][i] in m[a] && m[a][i] in EntriesOf(m);
    }
    forall q | q in EntriesOf(m) ensures q in EntriesOf(n) {
      var a :| a in m && q in m[a];
      var i :| 0 <= i < |m[a]| && m[a][i] == q;
      assert n[a][i] == q && q in n[a];
    }
  }

  // The chosen connections stand at rising positions of a list.
  ghost predicate Picks(chosen: seq<PooledConnection>, conns: seq<PooledConnection>, pos: seq<nat>) {
    && |pos| == |chosen|
    && (forall j :: 0 <= j < |pos| ==> pos[j] < |conns| && chosen[j] == conns[pos[j]])
    && (forall j, k :: 0 <= j < k < |pos| ==> pos[j] < pos[k])
  }

  // The connections whose values Keep keeps.
  ghost function KeptConns(conns: seq<PooledConnection>, es: seq<Entry>, maxIdle: int, now: int): seq<PooledConnection>
    requires |conns| == |es|
  {
    if es == [] then []
    else
      var n := |es| - 1;
      KeptConns(conns[..n], es[..n], maxIdle, now) + if Expired(es[n], maxIdle, now) then [] else [conns[n]]
  }

  lemma KeptMore(conns: seq<PooledConnection>, es: seq<Entry>, i: nat, maxIdle: int, now: int)
    requires i < |es| == |conns|
    ensures KeptConns(conns[..i + 1], es[..i + 1], maxIdle, now)
         == KeptConns(conns[..i], es[..i], maxIdle, now) + if Expired(es[i], maxIdle, now) then [] else [conns[i]]
  {
    assert es[..i + 1][..i] == es[..i] && conns[..i + 1][..i] == conns[..i];
  }

  // The counters and the shut connections after the expired entries have been dealt with one by one.
  datatype Books = Books(stats: Stats, shut: set<Conn>)

  function DropOne(b: Books, conn: Conn): Books {
    Books(b.stats.(closed := b.stats.closed + 1, total := b.stats.total - 1, idle := b.stats.idle - 1), b.shut + {conn})
  }

  function DropExpired(b: Books, es: seq<Entry>, maxIdle: int, now: int): Books {
    if es == [] then b
    else
      var n := |es| - 1;
      var c := DropExpired(b, es[..n], maxIdle, now);
      if Expired(es[n], maxIdle, now) then DropOne(c, es[n].conn) else c
  }

  lemma DropMore(b: Books, es: seq<Entry>, i: nat, maxIdle: int, now: int)
    requires i < |es|
    ensures var c := DropExpired(b, es[..i], maxIdle, now);
      DropExpired(b, es[..i + 1], maxIdle, now) == if Expired(es[i], maxIdle, now) then DropOne(c, es[i].conn) else c
  {
    assert es[..i + 1][..i] == es[..i];
  }

  lemma {:induction false} DropTotals(b: Books, es: seq<Entry>, maxIdle: int, now: int)
    ensures var gone := |es| - |Keep(es, maxIdle, now)|;
      DropExpired(b, es, maxIdle, now) == Books(
        b.stats.(closed := b.stats.closed + gone, total := b.stats.total - gone, idle := b.stats.idle - gone),
        b.shut + ExpiredIn(es, maxIdle, now))
  {
    if es != [] {
      var n := |es| - 1;
      DropTotals(b, es[..n], maxIdle, now);
      PrefixStep(es, n, maxIdle, now);
      assert es[..n + 1] == es;
    }
  }

  lemma ListCleanedIs(p: Pool, addr: string, now: int)
    requires addr in p.connections
    ensures var es := p.connections[addr];
      var kept, books := Keep(es, p.maxIdleTime, now), DropExpired(Books(p.stats, p.shut), es, p.maxIdleTime, now);
      ListCleaned(p, addr, now) == p.(
        connections := if kept == [] then p.connections - {addr} else p.connections[addr := kept],
        stats := books.stats, shut := books.shut)
  {
    DropTotals(Books(p.stats, p.shut), p.connections[addr], p.maxIdleTime, now);
  }

  lemma {:induction false} KeptMirror(conns: seq<PooledConnection>, es: seq<Entry>, maxIdle: int, now: int)
    requires Mirrors(conns, es)
    ensures Mirrors(KeptConns(conns, es, maxIdle, now), Keep(es, maxIdle, now))
  {
    if es != [] {
      KeptMirror(conns[..|es| - 1], es[..|es| - 1], maxIdle, now);
    }
  }

  lemma {:induction false} KeptPicks(conns: seq<PooledConnection>, es: seq<Entry>, maxIdle: int, now: int)
    returns (pos: seq<nat>)
    requires |conns| == |es|
    ensures Picks(KeptConns(conns, es, maxIdle, now), conns, pos)
  {
    pos := [];
    if es != [] {
      var n := |es| - 1;
      pos := KeptPicks(conns[..n], es[..n], maxIdle, now);
      PicksMore(KeptConns(conns[..n], es[..n], maxIdle, now), conns, pos, n);
      if !Expired(es[n], maxIdle, now) {
        pos := pos + [n];
      }
    }
  }

  lemma PicksMore(chosen: seq<PooledConnection>, conns: seq<PooledConnection>, pos: seq<nat>, n: nat)
    requires n < |conns| && Picks(chosen, conns[..n], pos)
    ensures Picks(chosen, conns, pos) && Picks(chosen + [conns[n]], conns, pos + [n])
  {
  }

  lemma FilterShares(m: map<string, seq<PooledConnection>>, addr: string, active: seq<PooledConnection>, pos: seq<nat>)
    requires NoSharing(m) && addr in m && Picks(active, m[addr], pos)
    ensures NoSharing(m[addr := active]) && EntriesOf(m[addr := active]) <= EntriesOf(m)
    ensures NoSharing(m - {addr}) && EntriesOf(m - {addr}) <= EntriesOf(m)
  {
    forall q | q in active ensures q in EntriesOf(m) {
      var j :| 0 <= j < |active| && active[j] == q;
      assert m[addr][pos[j]] in m[addr];
    }
  }

  class QUICConnectionPool {
    var connections: map<string, seq<PooledConnection>>
    const maxPoolSize: int
    const maxIdleTime: int
    var closed: bool
    var stats: Stats
    ghost var lists: map<string, seq<Entry>>   // the values of the entries
    ghost var shut: set<Conn>                  // connections that got CloseWithError

    ghost predicate Valid()
      reads this, EntriesOf(connections)
    {
      && NoSharing(connections)
      && lists.Keys == connections.Keys
      && forall a :: a in connections ==>
           assert forall pc :: pc in connections[a] ==> pc in EntriesOf(connections);
           Mirrors(connections[a], lists[a])
    }

    ghost function View(): Pool
      reads this
    {
      Pool(lists, maxPoolSize, maxIdleTime, closed, false, stats, shut)
    }

    constructor (maxPoolSize: int, maxIdleTime: int)
      ensures Valid() && View() == PoolSpec.New(maxPoolSize, maxIdleTime)
    {
      connections, lists := map[], map[];
      this.maxPoolSize, this.maxIdleTime := maxPoolSize, maxIdleTime;
      closed, shut := false, {};
      stats := Stats(0, 0, 0, 0, 0, 0, 0);
    }

    method Get(addr: string, now: int, dial: Dial) returns (r: GetResult)
      requires Valid()
      modifies this, EntriesOf(connections)
      ensures Valid() && fresh(EntriesOf(connections) - old(EntriesOf(connections)))
      ensures (View(), r) == PoolSpec.Get(old(View()), false, addr, now, dial)
    {
      if closed {
        return Refused(PoolClosed);
      }
      r := LockedGet(addr, now, dial);
    }

    // The part of Get that runs under the mutex; `closed` is not read again here.
    method LockedGet(addr: string, now: int, dial: Dial) returns (r: GetResult)
      requires Valid()
      modifies this, EntriesOf(connections)
      ensures Valid() && fresh(EntriesOf(connections) - old(EntriesOf(connections)))
      ensures (View(), r) == GetLocked(old(View()), addr, now, dial)
    {
      if addr in connections {
        var conns := connections[addr];
        for i := 0 to |conns|
          invariant Valid() && connections == old(connections) && View() == old(View())
          invariant forall j :: 0 <= j < i ==> !Reusable(lists[addr][j], maxIdleTime, now)
        {
          var expired := conns[i].IsExpired(maxIdleTime, now);
          if !conns[i].inUse && !expired {
            FirstAt(lists[addr], maxIdleTime, now, i);
            r := ReuseAt(addr, i, now);
            return;
          }
        }
      }
      assert FirstReusable(Lookup(lists, addr), maxIdleTime, now) == None;
      if maxPoolSize > 0 && stats.total >= maxPoolSize {
        return Refused(PoolFull);
      }
      stats := stats.(misses := stats.misses + 1);
      match dial
      case DialFailed(err) => r := Refused(err);
      case Dialed(conn, at) =>
        AppendNew(addr, conn, at);
        r := Got(conn);
    }

    method ReuseAt(addr: string, i: nat, now: int) returns (r: GetResult)
      requires Valid() && addr in connections && i < |connections[addr]|
      modifies this`stats, this`lists, EntriesOf(connections)
      ensures Valid() && connections == old(connections)
      ensures View() == Reused(old(View()), addr, i, now)
      ensures r == Got(lists[addr][i].conn)
    {
      var pc := connections[addr][i];
      assert pc in connections[addr] && pc in EntriesOf(connections);
      pc.MarkInUse(now);
      stats := stats.(hits := stats.hits + 1, idle := stats.idle - 1, active := stats.active + 1);
      lists := lists[addr := lists[addr][i := pc.Value()]];
      r := Got(pc.conn);
    }

    method AppendNew(addr: string, conn: Conn, at: int)
      requires Valid()
      modifies this`connections, this`stats, this`lists
      ensures Valid() && fresh(EntriesOf(connections) - old(EntriesOf(connections)))
      ensures var before := old(View());
        View() == Added(before.(stats := before.stats.(misses := before.stats.misses - 1)), addr, conn, at)
    {
      var pc := new PooledConnection(conn, at);
      pc.MarkInUse(at);
      Append(addr, pc);
      stats := stats.(total := stats.total + 1, active := stats.active + 1, created := stats.created + 1);
    }

    method Append(addr: string, pc: PooledConnection)
      requires Valid() && pc !in EntriesOf(connections)
      modifies this`connections, this`lists
      ensures Valid() && EntriesOf(connections) == old(EntriesOf(connections)) + {pc}
      ensures lists == old(lists)[addr := Lookup(old(lists), addr) + [pc.Value()]]
    {
      AppendShares(connections, addr, pc);
      var conns := if addr in connections then connections[addr] else [];
      connections, lists := connections[addr := conns + [pc]], lists[addr := Lookup(lists, addr) + [pc.Value()]];
    }

    method Put(conn: Conn)
      requires Valid()
      modifies this, EntriesOf(connections)
      ensures Valid() && connections == old(connections)
      ensures View() == PoolSpec.Put(old(View()), false, conn)
    {
      if closed {
        shut := shut + {conn};
        return;
      }
      LockedPut(conn);
    }

    method LockedPut(conn: Conn)
      requires Valid()
      modifies this`stats, this`lists, EntriesOf(connections)
      ensures Valid() && connections == old(connections)
      ensures View() == PutLocked(old(View()), conn)
    {
      var addr := conn.remote;
      if addr in connections {
        var conns := connections[addr];
        for i := 0 to |conns|
          invariant Valid() && View() == old(View())
          invariant forall j :: 0 <= j < i ==> lists[addr][j].conn != conn
        {
          if conns[i].conn == conn {
            ConnAt(lists[addr], conn, i);
            IdleAt(addr, i);
            return;
          }
        }
        assert IndexOf(lists[addr], conn) == None;
      }
    }

    method IdleAt(addr: string, i: nat)
      requires Valid() && addr in connections && i < |connections[addr]|
      modifies this`stats, this`lists, EntriesOf(connections)
      ensures Valid() && connections == old(connections)
      ensures stats == old(stats).(active := old(stats).active - 1, idle := old(stats).idle + 1)
      ensures lists == old(lists)[addr := old(lists)[addr][i := old(lists)[addr][i].(inUse := false)]]
    {
      var pc := connections[addr][i];
      assert pc in connections[addr] && pc in EntriesOf(connections);
      pc.MarkIdle();
      stats := stats.(active := stats.active - 1, idle := stats.idle + 1);
      lists := lists[addr := lists[addr][i := pc.Value()]];
    }

    method CleanupExpired(now: int)
      requires Valid()
      modifies this
      ensures Valid() && EntriesOf(connections) <= old(EntriesOf(connections))
      ensures View() == CleanupLocked(old(View()), now)
    {
      ghost var before := View();
      CleanedStart(before, now);
      CleanedEnd(before, now);
      var todo := connections.Keys;
      while todo != {}
        invariant Valid() && todo <= before.connections.Keys
        invariant EntriesOf(connections) <= old(EntriesOf(connections))
        invariant View() == CleanedBut(before, todo, now)
        decreases todo
      {
        var addr :| addr in todo;
        CleanOneMore(before, todo, addr, now);
        CleanupList(addr, now);
        todo := todo - {addr};
      }
    }

    // The body of the loop over the address map: filter one list.
    method CleanupList(addr: string, now: int)
      requires Valid() && addr in connections
      modifies this`connections, this`lists, this`stats, this`shut
      ensures Valid() && EntriesOf(connections) <= old(EntriesOf(connections))
      ensures View() == ListCleaned(old(View()), addr, now)
    {
      ListCleanedIs(View(), addr, now);
      KeptMirror(connections[addr], lists[addr], maxIdleTime, now);
      ghost var pos := KeptPicks(connections[addr], lists[addr], maxIdleTime, now);
      var active := FilterList(connections[addr], now, lists[addr]);
      Install(addr, active, pos, Keep(lists[addr], maxIdleTime, now));
    }

    method FilterList(conns: seq<PooledConnection>, now: int, ghost es: seq<Entry>)
      returns (active: seq<PooledConnection>)
      requires Mirrors(conns, es)
      modifies this`stats, this`shut
      ensures active == KeptConns(conns, es, maxIdleTime, now)
      ensures Books(stats, shut) == DropExpired(Books(old(stats), old(shut)), es, maxIdleTime, now)
    {
      active := [];
      for i := 0 to |conns|
        invariant Mirrors(conns, es) && active == KeptConns(conns[..i], es[..i], maxIdleTime, now)
        invariant Books(stats, shut) == DropExpired(Books(old(stats), old(shut)), es[..i], maxIdleTime, now)
      {
        var pc := conns[i];
        var expired := pc.IsExpired(maxIdleTime, now);
        DropMore(Books(old(stats), old(shut)), es, i, maxIdleTime, now);
        KeptMore(conns, es, i, maxIdleTime, now);
        if expired {
          Expire(pc.conn);
        } else {
          active := active + [pc];
        }
      }
      assert es[..|conns|] == es && conns[..|conns|] == conns;
    }

    method Expire(conn: Conn)
      modifies this`stats, this`shut
      ensures Books(stats, shut) == DropOne(Books(old(stats), old(shut)), conn)
    {
      shut := shut + {conn};
      stats := stats.(closed := stats.closed + 1, total := stats.total - 1, idle := stats.idle - 1);
    }

    method Install(addr: string, active: seq<PooledConnection>, ghost pos: seq<nat>, ghost kept: seq<Entry>)
      requires Valid() && addr in connections
      requires Mirrors(active, kept) && Picks(active, connections[addr], pos)
      modifies this`connections, this`lists
      ensures Valid() && EntriesOf(connections) <= old(EntriesOf(connections))
      ensures lists == (if kept == [] then old(lists) - {addr} else old(lists)[addr := kept])
    {
      FilterShares(connections, addr, active, pos);
      if |active| == 0 {
        connections, lists := connections - {addr}, lists - {addr};
      } else {
        connections, lists := connections[addr := active], lists[addr := kept];
      }
    }

    method Close()
      requires Valid()
      modifies this
      ensures Valid() && EntriesOf(connections) <= old(EntriesOf(connections))
      ensures View() == CloseDrain(CloseBegin(old(View())))
    {
      if closed {
        return;
      }
      closed := true;
      CloseLists();
      connections, lists := map[], map[];
      stats := stats.(total := 0, active := 0, idle := 0);
    }

    // The loop of Close over the address map.
    method CloseLists()
      requires Valid()
      modifies this`stats, this`shut
      ensures Valid() && View() == ClosedBut(old(View()), {})
      ensures ClosedBut(old(View()), {}) == old(View()).(
        stats := old(stats).(closed := old(stats).closed + Pooled(old(View()))), shut := old(shut) + Conns(old(lists)))
    {
      ghost var before := View();
      ClosedEnds(before);
      var todo := connections.Keys;
      while todo != {}
        invariant Valid() && todo <= before.connections.Keys && connections == old(connections)
        invariant View() == ClosedBut(before, todo)
        decreases todo
      {
        var addr :| addr in todo;
        CloseOneMore(before, todo, addr);
        CloseList(addr);
        todo := todo - {addr};
      }
    }

    method CloseList(addr: string)
      requires Valid() && addr in connections
      modifies this`stats, this`shut
      ensures Valid()
      ensures stats == old(stats).(closed := old(stats).closed + |lists[addr]|)
      ensures shut == old(shut) + ConnsIn(lists[addr])
    {
      var conns := connections[addr];
      ghost var es := lists[addr];
      for i := 0 to |conns|
        invariant stats == old(stats).(closed := old(stats).closed + i)
        invariant shut == old(shut) + ConnsIn(es[..i])
      {
        PrefixStep(es, i, maxIdleTime, 0);
        shut := shut + {conns[i].conn};
        stats := stats.(closed := stats.closed + 1);
      }
      assert es[..|conns|] == es;
    }

    method IsFull() returns (r: bool)
      ensures r == AtCapacity(View())
    {
      r := maxPoolSize > 0 && stats.total >= maxPoolSize;
    }

    method Available() returns (r: int)
      ensures maxPoolSize <= 0 ==> r == -1
      ensures maxPoolSize > 0 ==> r >= 0 && (r == 0 <==> AtCapacity(View()))
      ensures maxPoolSize > 0 && !AtCapacity(View()) ==> r + stats.total == maxPoolSize
    {
      if maxPoolSize <= 0 {
        return -1;
      }
      r := maxPoolSize - stats.total;
      if r < 0 {
        return 0;
      }
    }

    method IsHealthy() returns (r: bool)
      ensures r == PoolSpec.IsHealthy(View())
    {
      if closed {
        return false;
      }
      r := stats.active >= 0 && stats.idle >= 0;
    }
  }
}
