/** What a run of the pool leaves behind: no connection is lost, and every counter tells what happened. */
module PoolHistory {
  import opened Common
  import opened PoolSpec

  // ---- no connection is lost ----

  lemma {:induction false} Listed(m: map<string, seq<Entry>>, addr: string, i: nat)
    requires addr in m && i < |m[addr]|
    ensures m[addr][i].conn in Conns(m)
  {
    assert m[addr][i] in m[addr];
  }

  // Changing entries in place, or adding some, keeps every connection listed.
  lemma {:induction false} ListsGrow(m: map<string, seq<Entry>>, addr: string, es: seq<Entry>)
    requires |Lookup(m, addr)| <= |es| && forall i :: 0 <= i < |Lookup(m, addr)| ==> es[i].conn == Lookup(m, addr)[i].conn
    ensures Conns(m) <= Conns(m[addr := es])
  {
    forall k | k in Conns(m) ensures k in Conns(m[addr := es]) {
      var a, e :| a in m && e in m[a] && e.conn == k;
      var i :| 0 <= i < |m[a]| && m[a][i] == e;
      Listed(m[addr := es], a, i);
    }
  }

  lemma {:induction false} GetListed(p: Pool, addr: string, now: int, dial: Dial)
    ensures var (q, r) := GetLocked(p, addr, now, dial);
      Conns(p.connections) <= Conns(q.connections) && (r.Got? ==> r.conn in Conns(q.connections))
  {
    var es := Lookup(p.connections, addr);
    match FirstReusable(es, p.maxIdleTime, now)
    case Some(i) =>
      ListsGrow(p.connections, addr, es[i := es[i].(lastUsedAt := now, inUse := true)]);
      Listed(Reused(p, addr, i, now).connections, addr, i);
    case None =>
      if !AtCapacity(p) && dial.Dialed? {
        ListsGrow(p.connections, addr, es + [Entry(dial.conn, dial.at, true)]);
        Listed(Added(p, addr, dial.conn, dial.at).connections, addr, |es|);
      }
  }

  lemma {:induction false} PutListed(p: Pool, stale: bool, conn: Conn)
    ensures Conns(p.connections) <= Conns(Put(p, stale, conn).connections)
  {
    var es := Lookup(p.connections, conn.remote);
    var i := IndexOf(es, conn);
    if !(p.closed && !stale) && i.Some? {
      ListsGrow(p.connections, conn.remote, es[i.value := es[i.value].(inUse := false)]);
    }
  }

  lemma {:induction false} CleanupListed(p: Pool, now: int)
    ensures var q := CleanupLocked(p, now);
      Conns(p.connections) <= Conns(q.connections) + q.shut && p.shut <= q.shut
  {
    var q := CleanupLocked(p, now);
    forall k | k in Conns(p.connections) ensures k in Conns(q.connections) + q.shut {
      var a, e :| a in p.connections && e in p.connections[a] && e.conn == k;
      var i :| 0 <= i < |p.connections[a]| && p.connections[a][i] == e;
      if !Expired(e, p.maxIdleTime, now) {
        var pos := KeepIsFilter(p.connections[a], p.maxIdleTime, now);
        var j :| 0 <= j < |pos| && pos[j] == i;
        Listed(q.connections, a, j);
      }
    }
  }

  /** In every run, each connection that was ever handed out is still in a list or has been closed by
      the pool: neither cleanup nor Close drops one without closing it. */
  lemma {:induction false} NoneLost(p0: Pool, evs: seq<Event>)
    ensures var p := Run(p0, evs);
      HandOuts(p0, evs).Keys <= Conns(p.connections) + p.shut
  {
    if evs != [] {
      var n := |evs| - 1;
      NoneLost(p0, evs[..n]);
      var p := Run(p0, evs[..n]);
      match evs[n]
      case EvGet(stale, addr, now, dial) => GetListed(p, addr, now, dial);
      case EvPut(stale, conn) => PutListed(p, stale, conn);
      case EvCleanup(now) => CleanupListed(p, now);
      case EvCloseBegin =>
      case EvCloseDrain =>
    }
  }

  /** Close empties the pool, having closed everything it still held, and a connection that is put back
      afterwards is closed as well. The sections of Close may have others between them. */
  lemma {:induction false} CloseShutsAll(p: Pool, conn: Conn)
    requires p.draining && p.closed
    ensures forall o: Pool :: !o.closed ==> CloseBegin(o) == o.(closed := true, draining := true)
    ensures var q := CloseDrain(p);
      && q.connections == map[] && !q.draining && q.closed
      && (forall a, e :: a in p.connections && e in p.connections[a] ==> e.conn in q.shut)
      && conn in Put(q, false, conn).shut && Put(q, false, conn).connections == map[]
  {
  }

  // ---- what the counters count ----

  // Gets that handed out a connection.
  ghost function Successes(p: Pool, evs: seq<Event>): nat {
    if evs == [] then 0
    else
      var before, ev := Run(p, evs[..|evs| - 1]), evs[|evs| - 1];
      Successes(p, evs[..|evs| - 1]) +
      if ev.EvGet? && Get(before, ev.stale, ev.addr, ev.now, ev.dial).1.Got? then 1 else 0
  }

  // Gets that answered with the error of a failed dial.
  ghost function FailedDials(p: Pool, evs: seq<Event>): nat {
    if evs == [] then 0
    else
      var before, ev := Run(p, evs[..|evs| - 1]), evs[|evs| - 1];
      FailedDials(p, evs[..|evs| - 1]) +
      if ev.EvGet? && ev.dial.DialFailed? && Get(before, ev.stale, ev.addr, ev.now, ev.dial).1 == Refused(ev.dial.err) then 1 else 0
  }

  // No dial fails with one of the pool's own errors.
  predicate OwnErrors(evs: seq<Event>) {
    forall i :: 0 <= i < |evs| && evs[i].EvGet? && evs[i].dial.DialFailed? ==> evs[i].dial.err !in {PoolFull, PoolClosed}
  }

  lemma {:induction false} CountGet(p: Pool, ev: Event, h: map<Conn, int>)
    requires ev.EvGet? && Tracked(p, h) && (ev.dial.Dialed? ==> ev.dial.conn !in h)
    requires ev.dial.DialFailed? ==> ev.dial.err !in {PoolFull, PoolClosed}
    ensures var (q, r) := Get(p, ev.stale, ev.addr, ev.now, ev.dial);
      && q.stats.hits == p.stats.hits + (if r.Got? && r.conn in h then 1 else 0)
      && q.stats.created == p.stats.created + (if r.Got? && r.conn !in h then 1 else 0)
      && q.stats.misses == p.stats.misses + (if r.Got? && r.conn !in h then 1 else 0)
           + (if ev.dial.DialFailed? && r == Refused(ev.dial.err) then 1 else 0)
  {
    var es := Lookup(p.connections, ev.addr);
    match FirstReusable(es, p.maxIdleTime, ev.now)
    case Some(i) => assert es[i].conn in h;
    case None =>
  }

  lemma {:induction false} OtherCounts(p: Pool, ev: Event)
    requires !ev.EvGet?
    ensures var q := Step(p, ev);
      q.stats.hits == p.stats.hits && q.stats.created == p.stats.created && q.stats.misses == p.stats.misses
  {
  }

  /** In every run with fresh dials: created counts the different connections handed out, hits the other
      successful Gets, and misses the created connections and the failed dials. */
  lemma {:induction false} CountersTell(p0: Pool, evs: seq<Event>)
    requires p0.connections == map[] && p0.stats == Stats(0, 0, 0, 0, 0, 0, 0) && FreshDials(p0, evs) && OwnErrors(evs)
    ensures var s := Run(p0, evs).stats;
      && s.created == |HandOuts(p0, evs)|
      && s.hits == Successes(p0, evs) - |HandOuts(p0, evs)|
      && s.misses == |HandOuts(p0, evs)| + FailedDials(p0, evs)
  {
    if evs != [] {
      var n := |evs| - 1;
      CountersTell(p0, evs[..n]);
      TrackedInRuns(p0, evs[..n]);
      var p, h, ev := Run(p0, evs[..n]), HandOuts(p0, evs[..n]), evs[n];
      if ev.EvGet? {
        CountGet(p, ev, h);
        var r := Get(p, ev.stale, ev.addr, ev.now, ev.dial).1;
        if r.Got? {
          HandOutSize(h, r.conn, if Reuses(p, ev) then ev.now else ev.dial.at);
        }
      } else {
        OtherCounts(p, ev);
      }
    }
  }

  lemma {:induction false} HandOutSize(h: map<Conn, int>, conn: Conn, at: int)
    ensures |h[conn := at]| == |h| + if conn in h then 0 else 1
  {
    assert h[conn := at].Keys == h.Keys + {conn};
  }

  /** A Get that is let in hands out a connection exactly when an idle one of that address was checked
      out recently enough, or there is room and the dial succeeds; a dial is made only if there is none. */
  lemma {:induction false} GetSucceedsIff(maxPoolSize: int, maxIdleTime: int, evs: seq<Event>, stale: bool, addr: string, now: int, dial: Dial)
    ensures var p := Run(New(maxPoolSize, maxIdleTime), evs);
      var (q, r) := Get(p, stale, addr, now, dial);
      var idle := addr in p.connections && exists e :: e in p.connections[addr] && !e.inUse && now - e.lastUsedAt <= maxIdleTime;
      var room := !(maxPoolSize > 0 && Pooled(p) == maxPoolSize);
      && (p.closed && !stale ==> r == Refused(PoolClosed) && q == p)
      && (!p.closed || stale ==>
            && (r.Got? <==> idle || (room && dial.Dialed?))
            && (!idle && room ==> r == if dial.Dialed? then Got(dial.conn) else Refused(dial.err))
            && (!idle && !room ==> r == Refused(PoolFull) && q == p))
  {
    Conservation(maxPoolSize, maxIdleTime, evs);
    LimitsFixed(New(maxPoolSize, maxIdleTime), evs);
    var p := Run(New(maxPoolSize, maxIdleTime), evs);
    var es := Lookup(p.connections, addr);
    var i := FirstReusable(es, p.maxIdleTime, now);
    if i.Some? {
      assert es[i.value] in es;
    }
  }
}
